/**
 * The main flow of the scraper once the account and role listings are in hand:
 * refuse to run on placeholder configuration or without a `primary` profile,
 * then walk every account and every role, skip the roles a keyword matches,
 * and emit a profile section, a connection block and an aggregator entry for
 * each of the others, closing the connection file with the aggregator block.
 */
module Scraper {
  import opened Text
  import opened Identities
  import opened Configuration
  import opened Profiles
  import opened Connections

  /**
   * The state after emitting `done`: the profile sections assigned, the
   * connection blocks written and the aggregator list, all for exactly those pairs.
   */
  ghost predicate Emitted(cfg: Config, done: seq<Pair>, profiles: ProfileConfig, file: seq<string>, awsAll: string) {
    && profiles == BuildProfiles(cfg, done)
    && file == Writes(done)
    && awsAll == JoinQuoted(ConnectionIds(done))
  }

  /**
   * The body of the inner loop for a role that survives the filter: one section
   * assignment, the five writes of its connection block, and one aggregator
   * entry, preceded by a comma only when the list is not empty.
   */
  method EmitPair(cfg: Config, p: Pair, ghost done: seq<Pair>,
                  profiles0: ProfileConfig, file0: seq<string>, awsAll0: string)
    returns (profiles: ProfileConfig, file: seq<string>, awsAll: string)
    requires Emitted(cfg, done, profiles0, file0, awsAll0)
    ensures Emitted(cfg, done + [p], profiles, file, awsAll)
  {
    BuildProfilesStep(cfg, done, p);
    profiles := SetSection(profiles0, ProfileSectionName(p), SectionBody(cfg, p));

    WritesStep(done, p);
    AppendFiveItems(file0, BlockHeader(p), PluginLine, ProfileLine(p), RegionsLine, BlockEnd);
    file := file0 + [BlockHeader(p)];
    file := file + [PluginLine];
    file := file + [ProfileLine(p)];
    file := file + [RegionsLine];
    file := file + [BlockEnd];

    AggregatorStep(done, p);
    awsAll := awsAll0;
    if awsAll == "" {
      AppendToEmpty(Quote(ConnectionId(p)));
      awsAll := awsAll + Quote(ConnectionId(p));
    } else {
      awsAll := awsAll + "," + Quote(ConnectionId(p));
    }
  }

  /**
   * The inner loop for one account: each of its roles either matches a keyword
   * and is skipped, or has its profile section, connection block and aggregator
   * entry emitted.
   */
  method EmitAccount(cfg: Config, keywords: seq<string>, account: Account, roles: seq<Role>,
                     ghost before: seq<Pair>, profiles0: ProfileConfig, file0: seq<string>, awsAll0: string)
    returns (profiles: ProfileConfig, file: seq<string>, awsAll: string)
    requires Emitted(cfg, before, profiles0, file0, awsAll0)
    ensures Emitted(cfg, before + Kept(account, roles, keywords), profiles, file, awsAll)
  {
    profiles, file, awsAll := profiles0, file0, awsAll0;
    assert roles[..0] == [] && before + [] == before;
    var j := 0;
    while j < |roles|
      invariant 0 <= j <= |roles|
      invariant Emitted(cfg, before + Kept(account, roles[..j], keywords), profiles, file, awsAll)
    {
      var role := roles[j];
      KeptStepAfter(before, account, roles, j, keywords);
      if !RoleMatchesKeywords(role.roleName, keywords) {
        profiles, file, awsAll :=
          EmitPair(cfg, Pair(account, role), before + Kept(account, roles[..j], keywords), profiles, file, awsAll);
      }
      j := j + 1;
    }
    assert roles[..j] == roles;
  }

  /**
   * The emission over the whole listing: `profiles` is the AWS CLI configuration
   * being filled, `file` the writes made to the connection file, and
   * `awsAll` the aggregator list that tracks the identifiers written so far.
   */
  method EmitConfigs(cfg: Config, keywords: seq<string>, listing: seq<AccountRoles>)
    returns (profiles: ProfileConfig, file: seq<string>)
    ensures profiles == BuildProfiles(cfg, Survivors(listing, keywords))
    ensures file == FileWrites(Survivors(listing, keywords))
  {
    profiles := Empty;
    file := [];
    var awsAll := "";
    ghost var done: seq<Pair> := [];
    var i := 0;
    while i < |listing|
      invariant 0 <= i <= |listing|
      invariant done == Survivors(listing[..i], keywords)
      invariant Emitted(cfg, done, profiles, file, awsAll)
    {
      SurvivorsStep(listing, i, keywords);
      profiles, file, awsAll :=
        EmitAccount(cfg, keywords, listing[i].account, listing[i].roles, done, profiles, file, awsAll);
      done := done + Kept(listing[i].account, listing[i].roles, keywords);
      i := i + 1;
    }
    assert listing[..i] == listing;
    AppendFiveItems(file, AggregatorHeader, PluginLine, AggregatorTypeLine, ListLine(awsAll), BlockEnd);

    file := file + [AggregatorHeader];
    file := file + [PluginLine];
    file := file + [AggregatorTypeLine];
    file := file + [ListLine(awsAll)];
    file := file + [BlockEnd];
  }

  /** How a run ends. */
  datatype Outcome =
    | DefaultValuesNotUpdated
    | PrimaryProfileMissing
    | Generated(profiles: ProfileConfig, file: seq<string>)

  /**
   * A whole run on the given configuration, the answer to whether a `primary`
   * profile exists, the keyword filter and the accounts with their roles.
   */
  method Scrape(cfg: Config, primaryProfileExists: bool, keywords: seq<string>, listing: seq<AccountRoles>)
    returns (outcome: Outcome)
    ensures UsesPlaceholder(cfg) ==> outcome == DefaultValuesNotUpdated
    ensures !UsesPlaceholder(cfg) && !primaryProfileExists ==> outcome == PrimaryProfileMissing
    ensures !UsesPlaceholder(cfg) && primaryProfileExists ==>
      outcome == Generated(BuildProfiles(cfg, Survivors(listing, keywords)), FileWrites(Survivors(listing, keywords)))
  {
    var stillDefault := CheckDefaultValues(cfg);
    if stillDefault {
      return DefaultValuesNotUpdated;
    }
    if !primaryProfileExists {
      return PrimaryProfileMissing;
    }
    var profiles, file := EmitConfigs(cfg, keywords, listing);
    return Generated(profiles, file);
  }
}
