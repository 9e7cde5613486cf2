/**
 * Accounts and roles as the SSO listing calls return them, the keyword filter
 * that drops roles, and the names derived from each surviving (account, role)
 * pair: the AWS CLI profile section and the steampipe connection identifier.
 */
module Identities {
  import opened Text

  /** One entry of `accountList`. */
  datatype Account = Account(accountId: string, accountName: string)

  /** One entry of `roleList`. */
  datatype Role = Role(roleName: string, accountId: string)

  /** An account together with the `roleList` that listing its roles returned. */
  datatype AccountRoles = AccountRoles(account: Account, roles: seq<Role>)

  /** A role that survived the filter, with the account it was listed under. */
  datatype Pair = Pair(account: Account, role: Role)

  /** The exclusion keywords the script ships with. */
  const KeywordsToFilter: seq<string> := ["ReadOnly", "Catalog", "AWSServiceCatalogEndUserAccess"]

  /**
   * `role_matches_keywords`: the keywords are tried in order and the first one
   * that occurs in the role name, both lower-cased, makes the role match.
   */
  function RoleMatchesKeywords(roleName: string, keywords: seq<string>): (b: bool)
    ensures keywords == [] ==> !b
  {
    keywords != []
    && (IsSubstring(Lower(keywords[0]), Lower(roleName)) || RoleMatchesKeywords(roleName, keywords[1..]))
  }

  /** A role matches iff some keyword, lower-cased, occurs in the lower-cased role name. */
  lemma {:induction false} RoleMatchesKeywordsIff(roleName: string, keywords: seq<string>)
    ensures RoleMatchesKeywords(roleName, keywords) <==>
      exists k, i :: k in keywords && OccursAt(Lower(k), Lower(roleName), i)
  {
    if keywords != [] {
      var low := Lower(roleName);
      IsSubstringIff(Lower(keywords[0]), low);
      RoleMatchesKeywordsIff(roleName, keywords[1..]);
      if RoleMatchesKeywords(roleName, keywords) {
        if IsSubstring(Lower(keywords[0]), low) {
          var i :| OccursAt(Lower(keywords[0]), low, i);
          assert keywords[0] in keywords;
        } else {
          var k, i :| k in keywords[1..] && OccursAt(Lower(k), low, i);
          assert k in keywords;
        }
      }
      if k, i :| k in keywords && OccursAt(Lower(k), low, i) {
        if k == keywords[0] {
          assert IsSubstring(Lower(keywords[0]), low);
        } else {
          assert k in keywords[1..] && OccursAt(Lower(k), Lower(roleName), i);
        }
      }
    }
  }

  /** Changing the case of letters in a role name never changes whether it matches. */
  lemma MatchIgnoresCase(r1: string, r2: string, keywords: seq<string>)
    requires SameUpToCase(r1, r2)
    ensures RoleMatchesKeywords(r1, keywords) == RoleMatchesKeywords(r2, keywords)
  {
    SameUpToCaseLower(r1, r2);
  }

  /** An empty keyword occurs in every name, so it filters out every role. */
  lemma EmptyKeywordFiltersAll(roleName: string, keywords: seq<string>)
    requires "" in keywords
    ensures RoleMatchesKeywords(roleName, keywords)
  {
    RoleMatchesKeywordsIff(roleName, keywords);
    assert OccursAt(Lower(""), Lower(roleName), 0);
  }

  /** The role list that survives the filter for one account, paired with that account. */
  function Kept(account: Account, roles: seq<Role>, keywords: seq<string>): (ps: seq<Pair>)
    ensures |ps| <= |roles|
  {
    if roles == [] then
      []
    else
      var last := roles[|roles| - 1];
      Kept(account, roles[..|roles| - 1], keywords)
        + (if RoleMatchesKeywords(last.roleName, keywords) then [] else [Pair(account, last)])
  }

  /** Every surviving pair in discovery order: accounts in list order, roles in list order. */
  function Survivors(listing: seq<AccountRoles>, keywords: seq<string>): seq<Pair>
  {
    if listing == [] then
      []
    else
      var last := listing[|listing| - 1];
      Survivors(listing[..|listing| - 1], keywords) + Kept(last.account, last.roles, keywords)
  }

  /** Filtering two role lists one after the other is filtering their concatenation. */
  lemma {:induction false} KeptAppend(account: Account, r1: seq<Role>, r2: seq<Role>, keywords: seq<string>)
    ensures Kept(account, r1 + r2, keywords) == Kept(account, r1, keywords) + Kept(account, r2, keywords)
    decreases |r2|
  {
    if r2 != [] {
      assert (r1 + r2)[..|r1 + r2| - 1] == r1 + r2[..|r2| - 1];
      KeptAppend(account, r1, r2[..|r2| - 1], keywords);
    } else {
      assert r1 + r2 == r1;
    }
  }

  /** The pairs of the first accounts come before, and apart from, those of the later ones. */
  lemma {:induction false} SurvivorsAppend(l1: seq<AccountRoles>, l2: seq<AccountRoles>, keywords: seq<string>)
    ensures Survivors(l1 + l2, keywords) == Survivors(l1, keywords) + Survivors(l2, keywords)
    decreases |l2|
  {
    if l2 != [] {
      assert (l1 + l2)[..|l1 + l2| - 1] == l1 + l2[..|l2| - 1];
      SurvivorsAppend(l1, l2[..|l2| - 1], keywords);
    } else {
      assert l1 + l2 == l1;
    }
  }

  /** Role `j` of account `i` is listed, does not match a keyword, and forms pair `p`. */
  predicate ListedAndKept(listing: seq<AccountRoles>, keywords: seq<string>, i: int, j: int, p: Pair) {
    && 0 <= i < |listing| && 0 <= j < |listing[i].roles|
    && p == Pair(listing[i].account, listing[i].roles[j])
    && !RoleMatchesKeywords(listing[i].roles[j].roleName, keywords)
  }

  /** A pair survives iff its role is listed under its account and matches no keyword. */
  lemma {:induction false} SurvivorsMembership(listing: seq<AccountRoles>, keywords: seq<string>, p: Pair)
    ensures p in Survivors(listing, keywords) <==> exists i, j :: ListedAndKept(listing, keywords, i, j, p)
  {
    if listing != [] {
      var n := |listing| - 1;
      var front := listing[..n];
      var last := listing[n];
      assert Survivors(listing, keywords) == Survivors(front, keywords) + Kept(last.account, last.roles, keywords);
      SurvivorsMembership(front, keywords, p);
      KeptMembership(last.account, last.roles, keywords, p);
      if p in Survivors(front, keywords) {
        var i, j :| ListedAndKept(front, keywords, i, j, p);
        assert front[i] == listing[i];
        assert ListedAndKept(listing, keywords, i, j, p);
      } else if p in Kept(last.account, last.roles, keywords) {
        var j :| 0 <= j < |last.roles| && p == Pair(last.account, last.roles[j])
          && !RoleMatchesKeywords(last.roles[j].roleName, keywords);
        assert ListedAndKept(listing, keywords, n, j, p);
      }
      if i, j :| ListedAndKept(listing, keywords, i, j, p) {
        if i < n {
          assert front[i] == listing[i];
          assert ListedAndKept(front, keywords, i, j, p);
        }
      }
    }
  }

  lemma {:induction false} KeptMembership(account: Account, roles: seq<Role>, keywords: seq<string>, p: Pair)
    ensures p in Kept(account, roles, keywords) <==>
      exists j :: 0 <= j < |roles| && p == Pair(account, roles[j]) && !RoleMatchesKeywords(roles[j].roleName, keywords)
  {
    if roles != [] {
      var n := |roles| - 1;
      var front := roles[..n];
      KeptMembership(account, front, keywords, p);
      if p in Kept(account, front, keywords) {
        var j :| 0 <= j < n && p == Pair(account, front[j]) && !RoleMatchesKeywords(front[j].roleName, keywords);
        assert front[j] == roles[j];
      }
      if j :| 0 <= j < |roles| && p == Pair(account, roles[j]) && !RoleMatchesKeywords(roles[j].roleName, keywords) {
        if j < n {
          assert front[j] == roles[j];
        }
      }
    }
  }

  /** The listing with `role` put in position `j` of account `i`'s role list. */
  function InsertRole(listing: seq<AccountRoles>, i: nat, j: nat, role: Role): (l: seq<AccountRoles>)
    requires i < |listing| && j <= |listing[i].roles|
    ensures |l| == |listing|
  {
    var entry := listing[i];
    listing[i := entry.(roles := entry.roles[..j] + [role] + entry.roles[j..])]
  }

  /** The surviving pairs split around position `j` of account `i`'s role list. */
  lemma SurvivorsSplit(listing: seq<AccountRoles>, i: nat, roles: seq<Role>, keywords: seq<string>)
    requires i < |listing|
    ensures Survivors(listing[i := listing[i].(roles := roles)], keywords)
      == Survivors(listing[..i], keywords) + Kept(listing[i].account, roles, keywords)
        + Survivors(listing[i + 1..], keywords)
  {
    var l := listing[i := listing[i].(roles := roles)];
    assert l == listing[..i] + [l[i]] + listing[i + 1..];
    SurvivorsAppend(listing[..i] + [l[i]], listing[i + 1..], keywords);
    SurvivorsAppend(listing[..i], [l[i]], keywords);
    assert [l[i]][..0] == [];
  }

  /** The surviving pairs before and after inserting a role, both split around account `i`. */
  lemma SurvivorsAroundInsert(listing: seq<AccountRoles>, i: nat, j: nat, role: Role, keywords: seq<string>)
    requires i < |listing| && j <= |listing[i].roles|
    ensures Survivors(InsertRole(listing, i, j, role), keywords)
      == Survivors(listing[..i], keywords)
        + Kept(listing[i].account, listing[i].roles[..j] + [role] + listing[i].roles[j..], keywords)
        + Survivors(listing[i + 1..], keywords)
    ensures Survivors(listing, keywords)
      == Survivors(listing[..i], keywords) + Kept(listing[i].account, listing[i].roles, keywords)
        + Survivors(listing[i + 1..], keywords)
  {
    var roles := listing[i].roles;
    SurvivorsSplit(listing, i, roles[..j] + [role] + roles[j..], keywords);
    SurvivorsSplit(listing, i, roles, keywords);
    assert listing[i := listing[i].(roles := roles)] == listing;
  }

  /** A role that matches a keyword contributes nothing, wherever it is listed. */
  lemma MatchedRoleContributesNothing(listing: seq<AccountRoles>, i: nat, j: nat, role: Role, keywords: seq<string>)
    requires i < |listing| && j <= |listing[i].roles|
    requires RoleMatchesKeywords(role.roleName, keywords)
    ensures Survivors(InsertRole(listing, i, j, role), keywords) == Survivors(listing, keywords)
  {
    var a, roles := listing[i].account, listing[i].roles;
    SurvivorsAroundInsert(listing, i, j, role, keywords);
    KeptInsert(a, roles, j, role, keywords);
    KeptSingle(a, role, keywords);
    assert Kept(a, roles[..j], keywords) + [] == Kept(a, roles[..j], keywords);
  }

  /** A role that matches no keyword contributes exactly its pair, at its place in discovery order. */
  lemma UnmatchedRoleContributesItsPair(listing: seq<AccountRoles>, i: nat, j: nat, role: Role, keywords: seq<string>)
    requires i < |listing| && j <= |listing[i].roles|
    requires !RoleMatchesKeywords(role.roleName, keywords)
    ensures Survivors(InsertRole(listing, i, j, role), keywords)
      == Survivors(listing[..i], keywords) + Kept(listing[i].account, listing[i].roles[..j], keywords)
        + [Pair(listing[i].account, role)]
        + Kept(listing[i].account, listing[i].roles[j..], keywords) + Survivors(listing[i + 1..], keywords)
  {
    var a, roles := listing[i].account, listing[i].roles;
    SurvivorsAroundInsert(listing, i, j, role, keywords);
    KeptInsert(a, roles, j, role, keywords);
    KeptSingle(a, role, keywords);
    Regroup5(Survivors(listing[..i], keywords), Kept(a, roles[..j], keywords), [Pair(a, role)],
            Kept(a, roles[j..], keywords), Survivors(listing[i + 1..], keywords));
  }

  lemma KeptInsert(a: Account, roles: seq<Role>, j: nat, role: Role, keywords: seq<string>)
    requires j <= |roles|
    ensures Kept(a, roles, keywords) == Kept(a, roles[..j], keywords) + Kept(a, roles[j..], keywords)
    ensures Kept(a, roles[..j] + [role] + roles[j..], keywords)
      == Kept(a, roles[..j], keywords) + Kept(a, [role], keywords) + Kept(a, roles[j..], keywords)
  {
    var front, back := roles[..j], roles[j..];
    KeptAppend(a, front, back, keywords);
    assert front + back == roles;
    KeptAppend(a, front + [role], back, keywords);
    KeptAppend(a, front, [role], keywords);
  }

  lemma KeptSingle(a: Account, role: Role, keywords: seq<string>)
    ensures Kept(a, [role], keywords) == if RoleMatchesKeywords(role.roleName, keywords) then [] else [Pair(a, role)]
  {
    assert [role][..0] == [];
  }

  /** Account names lose their spaces before they are used in any name. */
  function SanitisedAccountName(account: Account): (r: string)
    ensures ' ' !in r
  {
    RemoveChar(account.accountName, ' ')
  }

  /** The AWS CLI profile section name of a pair. */
  function ProfileSectionName(p: Pair): string {
    "profile " + SanitisedAccountName(p.account) + "-" + p.role.roleName
  }

  /** The value of the `profile =` line in a pair's connection block. */
  function ProfileReference(p: Pair): string {
    SanitisedAccountName(p.account) + "-" + p.role.roleName
  }

  /** Every connection block refers to the profile section generated for the same pair. */
  lemma ConnectionRefersToItsProfile(p: Pair)
    ensures ProfileSectionName(p) == "profile " + ProfileReference(p)
  {
  }

  /**
   * The steampipe connection identifier of a pair: spaces dropped from the account
   * name, then hyphens in both names turned into underscores.
   */
  function ConnectionId(p: Pair): (id: string)
    ensures '-' !in id
    ensures |id| >= 4 && id[..4] == "aws_"
  {
    var a := ReplaceChar(SanitisedAccountName(p.account), '-', '_');
    var r := ReplaceChar(p.role.roleName, '-', '_');
    assert '-' !in a && '-' !in r;
    "aws_" + a + "_" + r
  }

  /** Quote-free names give a quote-free identifier. */
  lemma ConnectionIdUnquoted(p: Pair)
    requires '"' !in p.account.accountName && '"' !in p.role.roleName
    ensures '"' !in ConnectionId(p)
  {
    RemoveCharKeeps(p.account.accountName, ' ', '"');
  }

  /**
   * Two roles of one account whose names differ only in `-` against `_` get
   * distinct profile sections but one and the same connection identifier.
   */
  lemma HyphenAndUnderscoreCollide(p: Pair, q: Pair)
    requires p.account == q.account
    requires q.role.roleName == ReplaceChar(p.role.roleName, '-', '_')
    ensures ConnectionId(p) == ConnectionId(q)
    ensures p.role.roleName != q.role.roleName ==> ProfileSectionName(p) != ProfileSectionName(q)
  {
    ReplaceCharIdempotent(p.role.roleName, '-', '_');
    var prefix := "profile " + SanitisedAccountName(p.account) + "-";
    assert ProfileSectionName(p) == prefix + p.role.roleName;
    assert ProfileSectionName(q) == prefix + q.role.roleName;
    assert (prefix + p.role.roleName)[|prefix|..] == p.role.roleName;
    assert (prefix + q.role.roleName)[|prefix|..] == q.role.roleName;
  }

  /** An account name of two space-free words yields the joined words in both names. */
  lemma TwoWordAccountNames(p: Pair, first: string, second: string)
    requires p.account.accountName == first + " " + second
    requires ' ' !in first && ' ' !in second
    ensures ProfileSectionName(p) == "profile " + first + second + "-" + p.role.roleName
    ensures ConnectionId(p)
      == "aws_" + ReplaceChar(first + second, '-', '_') + "_" + ReplaceChar(p.role.roleName, '-', '_')
  {
    RemoveCharBetween(first, second, ' ');
    assert first + [' '] + second == first + " " + second;
  }

  /** Of a matching role followed by a non-matching one, only the second survives, alone. */
  lemma FilterExample(account: Account, dropped: Role, kept: Role, keywords: seq<string>)
    requires RoleMatchesKeywords(dropped.roleName, keywords)
    requires !RoleMatchesKeywords(kept.roleName, keywords)
    ensures Survivors([AccountRoles(account, [dropped, kept])], keywords) == [Pair(account, kept)]
  {
    var roles := [dropped, kept];
    assert roles[..1] == [dropped] && [dropped][..0] == [];
    assert Kept(account, roles, keywords) == [Pair(account, kept)];
    assert [AccountRoles(account, roles)][..0] == [];
  }

  /** One more role of an account: kept unless it matches a keyword. */
  lemma KeptStep(account: Account, roles: seq<Role>, j: nat, keywords: seq<string>)
    requires j < |roles|
    ensures Kept(account, roles[..j + 1], keywords) == Kept(account, roles[..j], keywords)
      + (if RoleMatchesKeywords(roles[j].roleName, keywords) then [] else [Pair(account, roles[j])])
  {
    assert roles[..j + 1][..j] == roles[..j];
  }

  /** One more account: its kept roles follow the pairs of the accounts before it. */
  lemma SurvivorsStep(listing: seq<AccountRoles>, i: nat, keywords: seq<string>)
    requires i < |listing|
    ensures Survivors(listing[..i + 1], keywords)
      == Survivors(listing[..i], keywords) + Kept(listing[i].account, listing[i].roles, keywords)
  {
    assert listing[..i + 1][..i] == listing[..i];
  }

  /** After the pairs of earlier accounts, one more role of the current account. */
  lemma KeptStepAfter(before: seq<Pair>, account: Account, roles: seq<Role>, j: nat, keywords: seq<string>)
    requires j < |roles|
    ensures RoleMatchesKeywords(roles[j].roleName, keywords) ==>
      before + Kept(account, roles[..j + 1], keywords) == before + Kept(account, roles[..j], keywords)
    ensures !RoleMatchesKeywords(roles[j].roleName, keywords) ==>
      before + Kept(account, roles[..j + 1], keywords) == before + Kept(account, roles[..j], keywords) + [Pair(account, roles[j])]
  {
    KeptStep(account, roles, j, keywords);
    if !RoleMatchesKeywords(roles[j].roleName, keywords) {
      Regroup3(before, Kept(account, roles[..j], keywords), [Pair(account, roles[j])]);
    } else {
      assert Kept(account, roles[..j], keywords) + [] == Kept(account, roles[..j], keywords);
    }
  }

  /** A role in whose lower-cased name no lower-cased keyword occurs does not match. */
  lemma {:induction false} NoKeywordOccurs(roleName: string, keywords: seq<string>)
    requires forall j :: 0 <= j < |keywords| ==> !IsSubstring(Lower(keywords[j]), Lower(roleName))
    ensures !RoleMatchesKeywords(roleName, keywords)
  {
    if keywords != [] {
      NoKeywordOccurs(roleName, keywords[1..]);
    }
  }

  /** A role whose name begins with one of the keywords, in any letter case, is dropped. */
  lemma StartsWithKeywordMatches(roleName: string, keywords: seq<string>, k: string)
    requires k in keywords && |k| <= |roleName| && SameUpToCase(roleName[..|k|], k)
    ensures RoleMatchesKeywords(roleName, keywords)
  {
    LowerPrefix(roleName, |k|);
    SameUpToCaseLower(roleName[..|k|], k);
    assert OccursAt(Lower(k), Lower(roleName), 0);
    RoleMatchesKeywordsIff(roleName, keywords);
  }

  /** The keyword check of one shipped keyword against a name with no `r`, `R`, `t` or `T`. */
  lemma LacksKeyword(roleName: string, k: string)
    requires k in KeywordsToFilter
    requires |roleName| < 30 && 'r' !in roleName && 'R' !in roleName && 't' !in roleName && 'T' !in roleName
    ensures !IsSubstring(Lower(k), Lower(roleName))
  {
    if k == "ReadOnly" {
      LowerOmits(roleName, 'r');
      CharAbsent(Lower(k), Lower(roleName), 0);
    } else if k == "Catalog" {
      LowerOmits(roleName, 't');
      CharAbsent(Lower(k), Lower(roleName), 2);
    }
  }

  /**
   * With the shipped keywords, a role is kept when its name is shorter than
   * the longest keyword and holds neither an `r`, which "readonly" starts
   * with, nor a `t`, which "catalog" holds, in either case.
   */
  lemma ShippedKeywordsKeep(roleName: string)
    requires |roleName| < 30 && 'r' !in roleName && 'R' !in roleName && 't' !in roleName && 'T' !in roleName
    ensures !RoleMatchesKeywords(roleName, KeywordsToFilter)
  {
    var kw := KeywordsToFilter;
    forall j | 0 <= j < |kw| ensures !IsSubstring(Lower(kw[j]), Lower(roleName)) {
      LacksKeyword(roleName, kw[j]);
    }
    NoKeywordOccurs(roleName, kw);
  }

  /** The shipped keywords drop read-only and catalog roles and keep an administrator role. */
  lemma ShippedKeywordExamples()
    ensures RoleMatchesKeywords("ReadOnlyAccess", KeywordsToFilter)
    ensures RoleMatchesKeywords("catalogviewer", KeywordsToFilter)
    ensures !RoleMatchesKeywords("AdminAccess", KeywordsToFilter)
  {
    StartsWithKeywordMatches("ReadOnlyAccess", KeywordsToFilter, "ReadOnly");
    StartsWithKeywordMatches("catalogviewer", KeywordsToFilter, "Catalog");
    ShippedKeywordsKeep("AdminAccess");
  }
}
