/**
 * The string operations the scraper applies to account and role names:
 * `str.lower()` (over ASCII letters), the substring test of Python's `in`,
 * and the single-character forms of `str.replace` it uses
 * (`replace(" ", "")` and `replace("-", "_")`).
 */
module Text {

  predicate IsUpper(c: char) {
    'A' <= c <= 'Z'
  }

  /** `str.lower()` on one character, ASCII letters only. */
  function LowerChar(c: char): (d: char)
    ensures !IsUpper(d)
    ensures IsUpper(c) || d == c
    ensures IsUpper(c) ==> d as int - c as int == 'a' as int - 'A' as int
  {
    if IsUpper(c) then (c as int - 'A' as int + 'a' as int) as char else c
  }

  /** `str.lower()` on a whole string. */
  function Lower(s: string): string {
    seq(|s|, i requires 0 <= i < |s| => LowerChar(s[i]))
  }

  /** A pattern holding a character that `s` lacks does not occur in `s`. */
  lemma CharAbsent(p: string, s: string, j: nat)
    requires j < |p| && p[j] !in s
    ensures !IsSubstring(p, s)
  {
    IsSubstringIff(p, s);
  }

  /** A lower-case letter absent from `s` in both cases is absent from `Lower(s)`. */
  lemma LowerOmits(s: string, c: char)
    requires 'a' <= c <= 'z' && c !in s && (c as int - 'a' as int + 'A' as int) as char !in s
    ensures c !in Lower(s)
  {
    forall i | 0 <= i < |s| ensures Lower(s)[i] != c {
      assert s[i] != c;
    }
  }

  /** Lower-casing a prefix gives the prefix of the lower-cased string. */
  lemma LowerPrefix(s: string, n: nat)
    requires n <= |s|
    ensures Lower(s)[..n] == Lower(s[..n])
  {
  }

  /** Two strings that differ at most in the case of their letters. */
  predicate SameUpToCase(s: string, t: string) {
    |s| == |t| && forall i :: 0 <= i < |s| ==> LowerChar(s[i]) == LowerChar(t[i])
  }

  lemma SameUpToCaseLower(s: string, t: string)
    requires SameUpToCase(s, t)
    ensures Lower(s) == Lower(t)
  {
  }

  /** `p` occurs in `s` starting at index `i`. */
  predicate OccursAt(p: string, s: string, i: int) {
    0 <= i && i + |p| <= |s| && s[i..i + |p|] == p
  }

  /** An occurrence in the tail of `s` is an occurrence in `s` one place further on. */
  lemma {:induction false} OccursInTail(p: string, s: string)
    requires s != []
    ensures (exists i :: OccursAt(p, s[1..], i)) <==> (exists i :: 1 <= i && OccursAt(p, s, i))
  {
    if i :| OccursAt(p, s[1..], i) {
      assert s[i + 1..i + 1 + |p|] == s[1..][i..i + |p|];
      assert OccursAt(p, s, i + 1);
    }
    if i :| 1 <= i && OccursAt(p, s, i) {
      assert s[1..][i - 1..i - 1 + |p|] == s[i..i + |p|];
      assert OccursAt(p, s[1..], i - 1);
    }
  }

  /** Python's `p in s` for strings: a search from the left for `p` inside `s`. */
  function IsSubstring(p: string, s: string): bool
    decreases |s|
  {
    if |p| > |s| then false
    else if s[..|p|] == p then true
    else IsSubstring(p, s[1..])
  }

  /** The search finds `p` exactly when `p` occurs somewhere in `s`. */
  lemma {:induction false} IsSubstringIff(p: string, s: string)
    ensures IsSubstring(p, s) <==> exists i :: OccursAt(p, s, i)
    decreases |s|
  {
    if |p| > |s| {
    } else if s[..|p|] == p {
      assert OccursAt(p, s, 0);
    } else {
      IsSubstringIff(p, s[1..]);
      OccursInTail(p, s);
      assert !OccursAt(p, s, 0);
    }
  }

  /** `s.replace(c, "")`: every occurrence of `c` dropped, everything else kept in order. */
  function RemoveChar(s: string, c: char): (r: string)
    ensures c !in r
    ensures |r| <= |s|
  {
    if s == [] then
      []
    else
      (if s[0] == c then [] else [s[0]]) + RemoveChar(s[1..], c)
  }

  /** Removing `c` from two pieces and joining them is removing it from the joined string. */
  lemma {:induction false} RemoveCharAppend(s: string, t: string, c: char)
    ensures RemoveChar(s + t, c) == RemoveChar(s, c) + RemoveChar(t, c)
  {
    if s == [] {
      assert s + t == t;
    } else {
      var head: string := if s[0] == c then [] else [s[0]];
      assert (s + t)[0] == s[0];
      assert (s + t)[1..] == s[1..] + t;
      assert RemoveChar(s + t, c) == head + RemoveChar(s[1..] + t, c);
      RemoveCharAppend(s[1..], t, c);
      assert RemoveChar(s, c) == head + RemoveChar(s[1..], c);
      var x, y := RemoveChar(s[1..], c), RemoveChar(t, c);
      assert head + (x + y) == (head + x) + y;
    }
  }

  /** A string without `c` is left as it is. */
  lemma {:induction false} RemoveCharAbsent(s: string, c: char)
    requires c !in s
    ensures RemoveChar(s, c) == s
  {
    if s != [] {
      RemoveCharAbsent(s[1..], c);
      assert s == [s[0]] + s[1..];
    }
  }

  /** Two `c`-free words joined by one `c` lose exactly that `c`. */
  lemma RemoveCharBetween(a: string, b: string, c: char)
    requires c !in a && c !in b
    ensures RemoveChar(a + [c] + b, c) == a + b
  {
    RemoveCharAbsent(a, c);
    RemoveCharAbsent(b, c);
    RemoveCharAppend(a + [c], b, c);
    RemoveCharAppend(a, [c], c);
    assert RemoveChar([c], c) == [];
    assert a + [] == a;
  }

  /** Removing `c` keeps every other character that occurs in `s`, and adds none. */
  lemma {:induction false} RemoveCharKeeps(s: string, c: char, d: char)
    requires d != c
    ensures d in RemoveChar(s, c) <==> d in s
  {
    if s != [] {
      RemoveCharKeeps(s[1..], c, d);
      assert d in s <==> d == s[0] || d in s[1..];
    }
  }

  /** `s.replace(a, b)` for single characters: every `a` becomes `b`, nothing else moves. */
  function ReplaceChar(s: string, a: char, b: char): (r: string)
    ensures |r| == |s|
    ensures forall i :: 0 <= i < |s| ==> r[i] == (if s[i] == a then b else s[i])
    ensures a != b ==> a !in r
  {
    if s == [] then [] else [if s[0] == a then b else s[0]] + ReplaceChar(s[1..], a, b)
  }

  /** Replacing a character a second time changes nothing more. */
  lemma ReplaceCharIdempotent(s: string, a: char, b: char)
    requires a != b
    ensures ReplaceChar(ReplaceChar(s, a, b), a, b) == ReplaceChar(s, a, b)
  {
    var once := ReplaceChar(s, a, b);
    assert forall i :: 0 <= i < |once| ==> ReplaceChar(once, a, b)[i] == once[i];
  }

  /** The text of a run of writes: the written strings, concatenated in order. */
  function Concat(writes: seq<string>): string {
    if writes == [] then "" else Concat(writes[..|writes| - 1]) + writes[|writes| - 1]
  }

  /** The text of two runs of writes is the text of the first followed by that of the second. */
  lemma {:induction false} ConcatAppend(a: seq<string>, b: seq<string>)
    ensures Concat(a + b) == Concat(a) + Concat(b)
    decreases |b|
  {
    if b == [] {
      assert a + b == a;
    } else {
      var n := |b| - 1;
      calc {
        Concat(a + b);
        { assert (a + b)[..|a + b| - 1] == a + b[..n] && (a + b)[|a + b| - 1] == b[n]; }
        Concat(a + b[..n]) + b[n];
        { ConcatAppend(a, b[..n]); }
        Concat(a) + Concat(b[..n]) + b[n];
        { Regroup3(Concat(a), Concat(b[..n]), b[n]); }
        Concat(a) + Concat(b);
      }
    }
  }

  /** Regrouping a concatenation of three pieces. */
  lemma Regroup3<T>(a: seq<T>, b: seq<T>, c: seq<T>)
    ensures a + b + c == a + (b + c)
  {
  }

  /** Regrouping a concatenation of five pieces around its middle three. */
  lemma Regroup5<T>(a: seq<T>, b: seq<T>, c: seq<T>, d: seq<T>, e: seq<T>)
    ensures a + (b + c + d) + e == a + b + c + d + e
  {
    assert b + c + d == b + (c + d);
    assert a + (b + (c + d)) == a + b + c + d;
  }

  /** A sequence is the part before index `k`, the element at `k`, and the part after. */
  lemma SplitAt<T>(s: seq<T>, k: nat)
    requires k < |s|
    ensures s == s[..k] + [s[k]] + s[k + 1..]
  {
  }

  /** Five single appends add the five elements, in order. */
  lemma AppendFiveItems<T>(s: seq<T>, a: T, b: T, c: T, d: T, e: T)
    ensures s + [a] + [b] + [c] + [d] + [e] == s + [a, b, c, d, e]
  {
    assert [a] + [b] + [c] + [d] + [e] == [a, b, c, d, e];
  }

  /** Appending to the empty sequence gives what was appended. */
  lemma AppendToEmpty<T>(s: seq<T>)
    ensures [] + s == s
  {
  }
}
