/**
 * The steampipe connection file: one fixed-template block per surviving pair,
 * then the `all_aws` aggregator block whose `connections` list names every
 * generated connection, quoted and comma-separated, in discovery order.
 */
module Connections {
  import opened Wrappers
  import opened Text
  import opened Identities

  /** `"` + id + `"`. */
  function Quote(id: string): string {
    "\"" + id + "\""
  }

  /**
   * The aggregator list: quoted identifiers joined by single commas. It grows
   * at the end, one identifier per surviving pair, as the script's string does.
   */
  function JoinQuoted(ids: seq<string>): (list: string)
    ensures list == "" <==> ids == []
  {
    if ids == [] then
      ""
    else if |ids| == 1 then
      Quote(ids[0])
    else
      JoinQuoted(ids[..|ids| - 1]) + "," + Quote(ids[|ids| - 1])
  }

  /** Joining a first identifier in front of a non-empty rest. */
  lemma {:induction false} JoinQuotedCons(id: string, rest: seq<string>)
    requires rest != []
    ensures JoinQuoted([id] + rest) == Quote(id) + "," + JoinQuoted(rest)
    decreases |rest|
  {
    var ids := [id] + rest;
    var n := |rest| - 1;
    if n == 0 {
      assert ids[..1] == [id] && ids[1] == rest[0];
    } else {
      var q, j, t := Quote(id), JoinQuoted(rest[..n]), Quote(rest[n]);
      calc {
        JoinQuoted(ids);
        { assert ids[..|ids| - 1] == [id] + rest[..n] && ids[|ids| - 1] == rest[n]; }
        JoinQuoted([id] + rest[..n]) + "," + t;
        { JoinQuotedCons(id, rest[..n]); }
        q + "," + j + "," + t;
        { Regroup5(q, ",", j + ",", t, []); }
        q + "," + (j + "," + t);
        { assert rest[..n] == rest[..|rest| - 1]; }
        q + "," + JoinQuoted(rest);
      }
    }
  }

  /** The position of the first `c` in `s`, if any. */
  function IndexOf(s: string, c: char): (r: Option<nat>)
    ensures r.Some? ==> r.value < |s| && s[r.value] == c && c !in s[..r.value]
    ensures r.None? ==> c !in s
  {
    if s == [] then None
    else if s[0] == c then Some(0)
    else match IndexOf(s[1..], c)
      case None => None
      case Some(k) => assert s[..k + 1] == [s[0]] + s[1..][..k]; Some(k + 1)
  }

  /** The first `c` after a `c`-free prefix is the one that ends the prefix. */
  lemma {:induction false} IndexAfterPrefix(prefix: string, c: char, rest: string)
    requires c !in prefix
    ensures IndexOf(prefix + [c] + rest, c) == Some(|prefix|)
  {
    var s := prefix + [c] + rest;
    if prefix == [] {
      assert s[0] == c;
    } else {
      assert s[0] == prefix[0];
      assert s[1..] == prefix[1..] + [c] + rest;
      IndexAfterPrefix(prefix[1..], c, rest);
    }
  }

  /** Reads a `connections` list back: quoted items, no quote inside an item, single commas between. */
  function ParseQuotedList(s: string): Option<seq<string>> {
    if s == "" then Some([]) else ParseItems(s)
  }

  function ParseItems(s: string): Option<seq<string>>
    decreases |s|
  {
    if s == [] || s[0] != '"' then
      None
    else
      match IndexOf(s[1..], '"')
      case None => None
      case Some(k) =>
        var id, rest := s[1..k + 1], s[k + 2..];
        if rest == [] then
          Some([id])
        else if rest[0] != ',' then
          None
        else
          match ParseItems(rest[1..])
          case None => None
          case Some(ids) => Some([id] + ids)
  }

  /** The aggregator list reads back as exactly the identifiers, in order, when none holds a quote. */
  lemma {:induction false} JoinQuotedRoundTrip(ids: seq<string>)
    requires forall k :: 0 <= k < |ids| ==> '"' !in ids[k]
    ensures ParseQuotedList(JoinQuoted(ids)) == Some(ids)
  {
    if ids != [] {
      ParseOneThenRest(ids);
    }
  }

  /** A lone quoted identifier reads back as itself. */
  lemma ParseLast(id: string)
    requires '"' !in id
    ensures ParseItems(Quote(id)) == Some([id])
  {
    var s := Quote(id);
    assert s[1..] == id + ['"'] + [];
    IndexAfterPrefix(id, '"', []);
    assert s[1..|id| + 1] == id;
    assert s[|id| + 2..] == [];
  }

  /** A quoted identifier followed by a comma reads back as itself, then the parse of what follows. */
  lemma ParseFirst(id: string, tail: string)
    requires '"' !in id
    ensures ParseItems(Quote(id) + "," + tail) ==
      match ParseItems(tail)
      case None => None
      case Some(ids) => Some([id] + ids)
  {
    var s := Quote(id) + "," + tail;
    var after := "," + tail;
    assert s[1..] == id + ['"'] + after;
    IndexAfterPrefix(id, '"', after);
    assert s[1..|id| + 1] == id;
    assert s[|id| + 2..] == after;
    assert after[1..] == tail;
  }

  lemma {:induction false} ParseOneThenRest(ids: seq<string>)
    requires ids != []
    requires forall k :: 0 <= k < |ids| ==> '"' !in ids[k]
    ensures ParseItems(JoinQuoted(ids)) == Some(ids)
    decreases |ids|
  {
    var id, rest := ids[0], ids[1..];
    assert ids == [id] + rest;
    if rest == [] {
      assert ids == [id] && JoinQuoted(ids) == Quote(id);
      ParseLast(id);
    } else {
      assert forall k :: 0 <= k < |rest| ==> rest[k] == ids[k + 1];
      ParseOneThenRest(rest);
      ParseFirst(id, JoinQuoted(rest));
      assert ParseItems(Quote(id) + "," + JoinQuoted(rest)) == Some([id] + rest);
      JoinQuotedCons(id, rest);
    }
  }

  /** The `connection "aws_<account>_<role>" {` line opening a pair's block. */
  function BlockHeader(p: Pair): string {
    "connection \"" + ConnectionId(p) + "\" {\n"
  }

  const PluginLine: string := "\tplugin  = \"aws\"\n"
  const RegionsLine: string := "\tregions = [\"*\"]\n"
  const BlockEnd: string := "}\n\n"

  /** The `profile = "<account>-<role>"` line naming the pair's AWS CLI profile. */
  function ProfileLine(p: Pair): string {
    "\tprofile = \"" + ProfileReference(p) + "\"\n"
  }

  /** The five `file.write` calls of one pair's connection block, in order. */
  function BlockWrites(p: Pair): seq<string> {
    [BlockHeader(p), PluginLine, ProfileLine(p), RegionsLine, BlockEnd]
  }

  /** The writes of the pairs' connection blocks, in discovery order. */
  function Writes(pairs: seq<Pair>): seq<string> {
    if pairs == [] then [] else Writes(pairs[..|pairs| - 1]) + BlockWrites(pairs[|pairs| - 1])
  }

  /** The connection identifiers of the pairs, in discovery order. */
  function ConnectionIds(pairs: seq<Pair>): seq<string> {
    seq(|pairs|, k requires 0 <= k < |pairs| => ConnectionId(pairs[k]))
  }

  const AggregatorHeader: string := "connection \"all_aws\" {\n"
  const AggregatorTypeLine: string := "\ttype = \"aggregator\"\n"

  /** The `connections = [...]` line of the aggregator block. */
  function ListLine(list: string): string {
    "\tconnections = [" + list + "]\n"
  }

  /** The five `file.write` calls of the closing `all_aws` aggregator block. */
  function AggregatorWrites(list: string): seq<string> {
    [AggregatorHeader, PluginLine, AggregatorTypeLine, ListLine(list), BlockEnd]
  }

  /** Every write to the connection file for the surviving pairs: their blocks, then the aggregator. */
  function FileWrites(pairs: seq<Pair>): seq<string> {
    Writes(pairs) + AggregatorWrites(JoinQuoted(ConnectionIds(pairs)))
  }

  /** The text of the connection file: its writes, concatenated. */
  function ConnectionFile(pairs: seq<Pair>): string {
    Concat(FileWrites(pairs))
  }

  /** The block writes of two runs of pairs, one after the other. */
  lemma {:induction false} WritesAppend(a: seq<Pair>, b: seq<Pair>)
    ensures Writes(a + b) == Writes(a) + Writes(b)
    decreases |b|
  {
    if b == [] {
      assert a + b == a;
    } else {
      var n := |b| - 1;
      calc {
        Writes(a + b);
        { assert (a + b)[..|a + b| - 1] == a + b[..n] && (a + b)[|a + b| - 1] == b[n]; }
        Writes(a + b[..n]) + BlockWrites(b[n]);
        { WritesAppend(a, b[..n]); }
        Writes(a) + Writes(b[..n]) + BlockWrites(b[n]);
        { Regroup3(Writes(a), Writes(b[..n]), BlockWrites(b[n])); }
        Writes(a) + Writes(b);
      }
    }
  }

  /**
   * Five writes per pair: writes `5k` to `5k + 4` are the block of pair `k`,
   * so the blocks appear in discovery order, each whole.
   */
  lemma {:induction false} WritesLayout(pairs: seq<Pair>)
    ensures |Writes(pairs)| == 5 * |pairs|
    ensures forall k, t :: 0 <= k < |pairs| && 0 <= t < 5 ==> Writes(pairs)[5 * k + t] == BlockWrites(pairs[k])[t]
  {
    if pairs != [] {
      var n := |pairs| - 1;
      var front := pairs[..n];
      WritesLayout(front);
      assert Writes(pairs) == Writes(front) + BlockWrites(pairs[n]);
      forall k, t | 0 <= k < |pairs| && 0 <= t < 5
        ensures Writes(pairs)[5 * k + t] == BlockWrites(pairs[k])[t]
      {
        if k < n {
          assert pairs[k] == front[k];
        }
      }
    }
  }

  /** The file's writes: the block of each pair, after the blocks of the pairs before it and before those after it. */
  lemma BlockOfEachPair(pairs: seq<Pair>, k: nat)
    requires k < |pairs|
    ensures Writes(pairs) == Writes(pairs[..k]) + BlockWrites(pairs[k]) + Writes(pairs[k + 1..])
  {
    var pre, mid, post := pairs[..k], [pairs[k]], pairs[k + 1..];
    calc {
      Writes(pairs);
      { SplitAt(pairs, k); }
      Writes(pre + mid + post);
      { WritesAppend(pre + mid, post); }
      Writes(pre + mid) + Writes(post);
      { WritesStep(pre, pairs[k]); }
      Writes(pre) + BlockWrites(pairs[k]) + Writes(post);
    }
  }

  /** A non-empty aggregator list starts and ends with a quote: no stray comma at either end. */
  lemma {:induction false} JoinQuotedEnds(ids: seq<string>)
    requires ids != []
    ensures JoinQuoted(ids)[0] == '"'
    ensures JoinQuoted(ids)[|JoinQuoted(ids)| - 1] == '"'
  {
    var n := |ids| - 1;
    if n > 0 {
      var front := JoinQuoted(ids[..n]);
      JoinQuotedEnds(ids[..n]);
      assert JoinQuoted(ids) == front + ("," + Quote(ids[n]));
    }
  }

  /** With no pair surviving, the file is the aggregator block alone, with an empty list. */
  lemma NoSurvivorsFile()
    ensures FileWrites([]) == AggregatorWrites("")
    ensures ConnectionFile([]) == AggregatorBlock("")
  {
    assert ConnectionIds([]) == [];
    AppendToEmpty(AggregatorWrites(""));
  }

  /**
   * When account and role names hold no quote, the aggregator's list reads back
   * as the connection identifiers of the surviving pairs, each once per pair, in
   * discovery order.
   */
  lemma AggregatorListsEveryConnection(pairs: seq<Pair>)
    requires forall k :: 0 <= k < |pairs| ==> '"' !in pairs[k].account.accountName && '"' !in pairs[k].role.roleName
    ensures ParseQuotedList(JoinQuoted(ConnectionIds(pairs))) == Some(ConnectionIds(pairs))
  {
    var ids := ConnectionIds(pairs);
    forall k | 0 <= k < |ids|
      ensures '"' !in ids[k]
    {
      ConnectionIdUnquoted(pairs[k]);
    }
    JoinQuotedRoundTrip(ids);
  }

  /** One more pair appends the five writes of its block. */
  lemma WritesStep(pairs: seq<Pair>, p: Pair)
    ensures Writes(pairs + [p]) == Writes(pairs) + BlockWrites(p)
  {
    assert (pairs + [p])[..|pairs|] == pairs;
  }

  /** One more pair appends its identifier to the aggregator list, after a comma unless the list was empty. */
  lemma AggregatorStep(pairs: seq<Pair>, p: Pair)
    ensures JoinQuoted(ConnectionIds(pairs + [p])) ==
      if pairs == [] then Quote(ConnectionId(p)) else JoinQuoted(ConnectionIds(pairs)) + "," + Quote(ConnectionId(p))
  {
    var ids := ConnectionIds(pairs + [p]);
    assert ids[..|pairs|] == ConnectionIds(pairs);
  }

  /** The text of one pair's connection block. */
  function ConnectionBlock(p: Pair): string {
    Concat(BlockWrites(p))
  }

  /** The text of the closing aggregator block. */
  function AggregatorBlock(list: string): string {
    Concat(AggregatorWrites(list))
  }

  /**
   * The text of the connection file holds each pair's block, after the text of
   * the blocks before it and before that of the blocks after it, and ends with
   * the aggregator block.
   */
  lemma ConnectionFileText(pairs: seq<Pair>, k: nat)
    requires k < |pairs|
    ensures ConnectionFile(pairs) == Concat(Writes(pairs[..k])) + ConnectionBlock(pairs[k])
      + Concat(Writes(pairs[k + 1..])) + AggregatorBlock(JoinQuoted(ConnectionIds(pairs)))
  {
    var pre, block, post := Writes(pairs[..k]), BlockWrites(pairs[k]), Writes(pairs[k + 1..]);
    var agg := AggregatorWrites(JoinQuoted(ConnectionIds(pairs)));
    BlockOfEachPair(pairs, k);
    calc {
      ConnectionFile(pairs);
      Concat(pre + block + post + agg);
      { ConcatAppend(pre + block + post, agg); }
      Concat(pre + block + post) + Concat(agg);
      { ConcatAppend(pre + block, post); }
      Concat(pre + block) + Concat(post) + Concat(agg);
      { ConcatAppend(pre, block); }
      Concat(pre) + Concat(block) + Concat(post) + Concat(agg);
    }
  }
}
