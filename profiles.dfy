/**
 * The AWS CLI profile structure the script fills through `configparser`:
 * sections in insertion order, each an ordered list of six settings.
 * Assigning a section that already exists clears it and refills it where it
 * stands, so a later pair with the same section name wins on content while
 * the section keeps its first position.
 */
module Profiles {
  import opened Wrappers
  import opened Identities
  import opened Configuration

  datatype Setting = Setting(key: string, value: string)

  type Section = seq<Setting>

  /** The keys of every generated profile section, in the order they are written. */
  const ProfileKeys: seq<string> := ["sso_start_url", "sso_region", "sso_account_id", "sso_role_name", "region", "output"]

  /** The body assigned to a pair's section. */
  function SectionBody(c: Config, p: Pair): Section {
    [ Setting("sso_start_url", c.ssoStartUrl),
      Setting("sso_region", c.ssoRegion),
      Setting("sso_account_id", p.role.accountId),
      Setting("sso_role_name", p.role.roleName),
      Setting("region", c.awsRegion),
      Setting("output", c.outputFormat) ]
  }

  /** The value stored under `key`, if the section has it. */
  function Lookup(s: Section, key: string): (v: Option<string>)
    ensures v.Some? <==> exists i :: 0 <= i < |s| && s[i].key == key
  {
    if s == [] then None
    else if s[0].key == key then Some(s[0].value)
    else Lookup(s[1..], key)
  }

  /** The value found for `key` is that of its first setting. */
  lemma {:induction false} LookupFirst(s: Section, i: nat, key: string)
    requires i < |s| && s[i].key == key
    requires forall j :: 0 <= j < i ==> s[j].key != key
    ensures Lookup(s, key) == Some(s[i].value)
  {
    if i > 0 {
      LookupFirst(s[1..], i - 1, key);
    }
  }

  /** The six profile keys are pairwise distinct. */
  lemma ProfileKeysDistinct()
    ensures forall i, j :: 0 <= i < j < |ProfileKeys| ==> ProfileKeys[i] != ProfileKeys[j]
  {
  }

  /**
   * A section body has exactly the six profile keys, in order, and reading any
   * of them back gives the account id and role name of the role listing and
   * the other four configured values.
   */
  lemma SectionBodyContents(c: Config, p: Pair)
    ensures |SectionBody(c, p)| == |ProfileKeys|
    ensures forall i :: 0 <= i < |ProfileKeys| ==> SectionBody(c, p)[i].key == ProfileKeys[i]
    ensures Lookup(SectionBody(c, p), "sso_start_url") == Some(c.ssoStartUrl)
    ensures Lookup(SectionBody(c, p), "sso_region") == Some(c.ssoRegion)
    ensures Lookup(SectionBody(c, p), "sso_account_id") == Some(p.role.accountId)
    ensures Lookup(SectionBody(c, p), "sso_role_name") == Some(p.role.roleName)
    ensures Lookup(SectionBody(c, p), "region") == Some(c.awsRegion)
    ensures Lookup(SectionBody(c, p), "output") == Some(c.outputFormat)
  {
    var body := SectionBody(c, p);
    ProfileKeysDistinct();
    assert forall i :: 0 <= i < |ProfileKeys| ==> body[i].key == ProfileKeys[i];
    LookupFirst(body, 0, ProfileKeys[0]);
    LookupFirst(body, 1, ProfileKeys[1]);
    LookupFirst(body, 2, ProfileKeys[2]);
    LookupFirst(body, 3, ProfileKeys[3]);
    LookupFirst(body, 4, ProfileKeys[4]);
    LookupFirst(body, 5, ProfileKeys[5]);
  }

  /** Two sections built under one configuration differ at most in the account id and the role name. */
  lemma OnlyAccountAndRoleVary(c: Config, p: Pair, q: Pair, i: nat)
    requires i < |ProfileKeys| && ProfileKeys[i] != "sso_account_id" && ProfileKeys[i] != "sso_role_name"
    ensures SectionBody(c, p)[i] == SectionBody(c, q)[i]
  {
  }

  /** A profile structure: section names in insertion order and the body of each. */
  datatype ProfileConfig = ProfileConfig(order: seq<string>, sections: map<string, Section>)

  /** Each section is listed once, and exactly the listed sections have a body. */
  ghost predicate Valid(pc: ProfileConfig) {
    && NoDuplicates(pc.order)
    && (forall n :: n in pc.sections <==> n in pc.order)
  }

  ghost predicate NoDuplicates(names: seq<string>) {
    forall i, j :: 0 <= i < j < |names| ==> names[i] != names[j]
  }

  const Empty: ProfileConfig := ProfileConfig([], map[])

  /** `config[name] = body`. */
  function SetSection(pc: ProfileConfig, name: string, body: Section): (r: ProfileConfig)
    requires Valid(pc)
    ensures Valid(r)
    ensures r.sections == pc.sections[name := body]
    ensures name in pc.sections ==> r.order == pc.order
    ensures name !in pc.sections ==> r.order == pc.order + [name]
  {
    if name in pc.sections then
      pc.(sections := pc.sections[name := body])
    else
      ProfileConfig(pc.order + [name], pc.sections[name := body])
  }

  /** One `config[name] = body` assignment. */
  datatype Assignment = Assignment(name: string, body: Section)

  /** The structure after performing the assignments in order, starting from an empty one. */
  function AssignAll(assignments: seq<Assignment>): (pc: ProfileConfig)
    ensures Valid(pc)
  {
    if assignments == [] then
      Empty
    else
      var last := assignments[|assignments| - 1];
      SetSection(AssignAll(assignments[..|assignments| - 1]), last.name, last.body)
  }

  /** Assignment `k` is to the section `name`. */
  predicate AssignsTo(assignments: seq<Assignment>, k: int, name: string) {
    0 <= k < |assignments| && assignments[k].name == name
  }

  /** Sections exist for exactly the names assigned to. */
  lemma {:induction false} AssignedSectionsExactly(assignments: seq<Assignment>, name: string)
    ensures name in AssignAll(assignments).sections <==> exists k :: AssignsTo(assignments, k, name)
  {
    if assignments != [] {
      var n := |assignments| - 1;
      var front := assignments[..n];
      AssignedSectionsExactly(front, name);
      var prev := AssignAll(front);
      assert AssignAll(assignments).sections == prev.sections[assignments[n].name := assignments[n].body];
      if name == assignments[n].name {
        assert AssignsTo(assignments, n, name);
      } else if name in AssignAll(assignments).sections {
        var k :| AssignsTo(front, k, name);
        assert AssignsTo(assignments, k, name);
      }
      if k :| AssignsTo(assignments, k, name) {
        if k < n {
          assert AssignsTo(front, k, name);
        }
      }
    }
  }

  /** The body of a section is the one its last assignment gave it. */
  lemma {:induction false} AssignedLastWins(assignments: seq<Assignment>, k: nat)
    requires k < |assignments|
    requires forall l :: k < l < |assignments| ==> assignments[l].name != assignments[k].name
    ensures assignments[k].name in AssignAll(assignments).sections
    ensures AssignAll(assignments).sections[assignments[k].name] == assignments[k].body
  {
    var n := |assignments| - 1;
    if k < n {
      var front := assignments[..n];
      assert front[k] == assignments[k];
      assert forall l :: k < l < n ==> front[l] == assignments[l];
      AssignedLastWins(front, k);
    }
  }

  /** The names in order of first appearance, each once. */
  function FirstOccurrences(names: seq<string>): seq<string> {
    if names == [] then
      []
    else
      var n := |names| - 1;
      FirstOccurrences(names[..n]) + (if names[n] in names[..n] then [] else [names[n]])
  }

  /** The names assigned to, in order. */
  function Names(assignments: seq<Assignment>): seq<string> {
    seq(|assignments|, k requires 0 <= k < |assignments| => assignments[k].name)
  }

  /** Sections are listed in the order of the first assignment to each; reassigning never moves one. */
  lemma {:induction false} AssignedOrder(assignments: seq<Assignment>)
    ensures AssignAll(assignments).order == FirstOccurrences(Names(assignments))
  {
    if assignments != [] {
      var n := |assignments| - 1;
      var front := assignments[..n];
      var last := assignments[n].name;
      AssignedOrder(front);
      assert Names(assignments)[..n] == Names(front);
      AssignedSectionsExactly(front, last);
      if last in Names(front) {
        var k :| 0 <= k < n && Names(front)[k] == last;
        assert AssignsTo(front, k, last);
      }
      if k :| AssignsTo(front, k, last) {
        assert Names(front)[k] == last;
      }
    }
  }

  /** The profile structure after assigning every pair's section, in discovery order. */
  function BuildProfiles(c: Config, pairs: seq<Pair>): (pc: ProfileConfig)
    ensures Valid(pc)
  {
    AssignAll(Assignments(c, pairs))
  }

  /** The assignment each pair performs: its section name and its body. */
  function Assignments(c: Config, pairs: seq<Pair>): seq<Assignment> {
    seq(|pairs|, k requires 0 <= k < |pairs| => Assignment(ProfileSectionName(pairs[k]), SectionBody(c, pairs[k])))
  }

  /** Sections exist for exactly the section names of the pairs. */
  lemma ProfileSectionsExactly(c: Config, pairs: seq<Pair>, name: string)
    ensures name in BuildProfiles(c, pairs).sections <==>
      exists k :: 0 <= k < |pairs| && ProfileSectionName(pairs[k]) == name
  {
    var a := Assignments(c, pairs);
    AssignedSectionsExactly(a, name);
    if k :| 0 <= k < |pairs| && ProfileSectionName(pairs[k]) == name {
      assert AssignsTo(a, k, name);
    }
  }

  /** A later pair with the same section name overwrites the body an earlier one wrote. */
  lemma LastWriteWins(c: Config, pairs: seq<Pair>, k: nat)
    requires k < |pairs|
    requires forall l :: k < l < |pairs| ==> ProfileSectionName(pairs[l]) != ProfileSectionName(pairs[k])
    ensures ProfileSectionName(pairs[k]) in BuildProfiles(c, pairs).sections
    ensures BuildProfiles(c, pairs).sections[ProfileSectionName(pairs[k])] == SectionBody(c, pairs[k])
  {
    AssignedLastWins(Assignments(c, pairs), k);
  }

  /** One more pair performs one more section assignment. */
  lemma BuildProfilesStep(c: Config, pairs: seq<Pair>, p: Pair)
    ensures BuildProfiles(c, pairs + [p]) == SetSection(BuildProfiles(c, pairs), ProfileSectionName(p), SectionBody(c, p))
  {
    var a := Assignments(c, pairs + [p]);
    assert a[..|pairs|] == Assignments(c, pairs);
  }
}
