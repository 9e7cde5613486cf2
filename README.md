# AWS SSO identity scraper: a Dafny model

`scrape_identities.py` signs in to AWS IAM Identity Center through a `primary`
profile and lists every account with its roles. It drops each role whose name
contains one of a list of exclusion keywords, ignoring case. For every role that
survives it generates two things:

- an AWS CLI profile section `profile <account>-<role>`, with six settings;
- a steampipe `connection "aws_<account>_<role>"` block.

The connection file ends with an `all_aws` aggregator block. Its `connections`
list names every generated connection.

This project models the parts of the script that decide what is generated:

- the keyword filter (`role_matches_keywords`);
- the placeholder check on the four configuration values (`check_default_values`);
- the name derivations: spaces removed from the account name, hyphens turned into underscores in connection identifiers;
- the emission loop over accounts and roles, including the five writes of each connection block;
- the aggregator string, which grows one quoted identifier at a time;
- the closing aggregator block;
- the top-level decision between refusing to run and generating.

Modules, one file each:

- `Text` (`text.dfy`): ASCII `lower()`, the substring test behind Python's `in`, and the single-character `replace` calls the script makes.
- `Identities` (`identities.dfy`): accounts, roles, the filter, the surviving pairs in discovery order, and the names derived from a pair.
- `Configuration` (`configuration.dfy`): the four configured values and `check_default_values`, as a method with the source's loop.
- `Profiles` (`profiles.dfy`): the `configparser` structure. Sections are kept in insertion order, each with its settings. Assigning an existing section refills it in place, so the last assignment wins on content and the section keeps its first position.
- `Connections` (`connections.dfy`): the connection blocks, the aggregator list and the whole connection file. The file is the sequence of strings passed to `file.write`, and its text is their concatenation. It also has a reader for the aggregator list, used to state the round trip.
- `Scraper` (`scraper.dfy`): the emission loops, as methods proved against `BuildProfiles` and `FileWrites`, and the run as a whole.

The output of the listing calls (`list-accounts`, then `list-account-roles` for
each account) is an input to the model: a sequence of accounts, each with its
role list. The answer to whether a `primary` profile exists is a boolean input.

## Model

| member | source | states |
|---|---|---|
| Text.LowerChar | scrape_identities.py:75 | `lower()` on one character leaves no upper-case ASCII letter, moves each upper-case letter to its lower-case partner and leaves every other character alone |
| Text.IsSubstringIff | scrape_identities.py:75 | the left-to-right search behind `keyword in name` answers true exactly when the keyword occurs at some index of the name |
| Text.RemoveChar | scrape_identities.py:202 | `replace(" ", "")` leaves no space and never lengthens the name |
| Text.RemoveCharKeeps | scrape_identities.py:202 | removing spaces keeps every other character that occurs in the name, and adds none |
| Text.RemoveCharBetween | scrape_identities.py:202 | two space-free words joined by one space lose exactly that space |
| Text.ReplaceChar | scrape_identities.py:212-214 | `replace("-", "_")` keeps the length, turns each `-` into `_`, leaves every other character in place, and leaves no `-` |
| Text.ReplaceCharIdempotent | scrape_identities.py:212-214 | replacing `-` by `_` a second time changes nothing |
| Identities.RoleMatchesKeywords | scrape_identities.py:74-75 | an empty keyword list matches no role |
| Identities.RoleMatchesKeywordsIff | scrape_identities.py:74-75 | a role matches iff some keyword, lower-cased, occurs in the lower-cased role name (both directions) |
| Identities.MatchIgnoresCase | scrape_identities.py:74-75 | two role names that differ only in letter case either both match or both do not |
| Identities.EmptyKeywordFiltersAll | scrape_identities.py:74-75 | an empty string among the keywords makes every role match, so every role is skipped |
| Identities.StartsWithKeywordMatches | scrape_identities.py:74-75 | a role whose name begins with one of the keywords, in any letter case, matches |
| Identities.ShippedKeywordsKeep | scrape_identities.py:20-24 | under the shipped keywords, a role name shorter than the longest keyword and holding no `r` or `t` in either case is kept |
| Identities.ShippedKeywordExamples | scrape_identities.py:20-24 | the shipped keywords drop `ReadOnlyAccess` and `catalogviewer` and keep `AdminAccess` |
| Identities.Kept | scrape_identities.py:203-206 | one account yields at most one pair per listed role |
| Identities.KeptAppend | scrape_identities.py:203-206 | filtering two role lists one after the other gives the pairs of the first list, then those of the second |
| Identities.SurvivorsAppend | scrape_identities.py:196-206 | the pairs of earlier accounts all come before the pairs of later ones |
| Identities.SurvivorsMembership | scrape_identities.py:196-206 | a pair is generated iff it is some listed role of some listed account and no keyword matches it (both directions) |
| Identities.KeptMembership | scrape_identities.py:203-206 | within one account, a pair is kept iff it is a listed role of that account that no keyword matches |
| Identities.MatchedRoleContributesNothing | scrape_identities.py:205-206 | inserting a matching role anywhere in the listing leaves the generated pairs unchanged |
| Identities.UnmatchedRoleContributesItsPair | scrape_identities.py:203-231 | inserting a non-matching role adds exactly its pair, between the pairs of the roles listed before it and those listed after it |
| Identities.SanitisedAccountName | scrape_identities.py:202 | the account name used in every derived name holds no space |
| Identities.ConnectionRefersToItsProfile | scrape_identities.py:228 | a connection block's `profile =` value, prefixed with `profile `, is the section name generated for the same pair |
| Identities.ConnectionId | scrape_identities.py:210-216 | a connection identifier starts with `aws_` and contains no `-` at all |
| Identities.ConnectionIdUnquoted | scrape_identities.py:210-216 | account and role names without `"` give an identifier without `"` |
| Identities.HyphenAndUnderscoreCollide | scrape_identities.py:209-216 | two roles of one account whose names differ only in `-` against `_` get distinct profile sections but the same connection identifier |
| Identities.TwoWordAccountNames | scrape_identities.py:202-216 | for an account name of two words, the section name and the identifier use the words joined together |
| Identities.FilterExample | scrape_identities.py:203-206 | a matching role followed by a non-matching one leaves only the second |
| Configuration.CheckDefaultValues | scrape_identities.py:78-91 | the check, scanning the values in order and returning at the first placeholder, answers true iff some configured value is one of the four placeholders |
| Configuration.ShippedPasses | scrape_identities.py:13-16 | the values the script ships with pass the check |
| Profiles.Lookup | scrape_identities.py:217-224 | a setting is found iff the section has that key |
| Profiles.LookupFirst | scrape_identities.py:217-224 | the value found for a key is that of its first setting |
| Profiles.SectionBodyContents | scrape_identities.py:217-224 | every section has exactly the six keys in written order, holding the start URL, the SSO region, the role's account id, the role name, the region and the output format |
| Profiles.OnlyAccountAndRoleVary | scrape_identities.py:217-224 | two sections built under one configuration agree on every setting except `sso_account_id` and `sso_role_name` |
| Profiles.SetSection | scrape_identities.py:217 | assigning a section keeps the structure well formed: every section is listed once and exactly the listed sections have a body. The body is replaced, an existing section keeps its place, and a new one goes at the end |
| Profiles.AssignedSectionsExactly | scrape_identities.py:217-224 | after a run of assignments, a section exists iff some assignment was to its name |
| Profiles.AssignedLastWins | scrape_identities.py:217-224 | a section's body is the one its last assignment gave it |
| Profiles.AssignedOrder | scrape_identities.py:217-224 | sections are listed in the order of the first assignment to each name; reassigning never moves one |
| Profiles.ProfileSectionsExactly | scrape_identities.py:209-217 | the generated configuration has a section for exactly the section names of the surviving pairs |
| Profiles.LastWriteWins | scrape_identities.py:217-224 | when two pairs share a section name, the section holds the body of the later pair |
| Connections.JoinQuoted | scrape_identities.py:233-250 | the aggregator list is empty iff no identifier was added |
| Connections.JoinQuotedCons | scrape_identities.py:233-250 | the list built at the end equals the first identifier, quoted, then a comma, then the list of the rest |
| Connections.JoinQuotedEnds | scrape_identities.py:233-250 | a non-empty aggregator list starts and ends with a quote, so it has no leading or trailing comma |
| Connections.JoinQuotedRoundTrip | scrape_identities.py:233-250 | when no identifier contains `"`, reading the comma-joined quoted list back gives exactly the identifiers, in order |
| Connections.AggregatorListsEveryConnection | scrape_identities.py:210-250 | for quote-free names, the aggregator list reads back as the identifiers of the generated connections, one per pair, in discovery order |
| Connections.WritesAppend | scrape_identities.py:226-231 | the block writes of two runs of pairs are those of the first run followed by those of the second |
| Connections.WritesLayout | scrape_identities.py:226-231 | there are exactly five block writes per pair, and writes `5k` to `5k+4` are the header, plugin, profile, regions and closing lines of pair `k`'s block |
| Connections.BlockOfEachPair | scrape_identities.py:226-231 | the writes hold every pair's five-write block whole, after the blocks of earlier pairs and before those of later ones |
| Connections.ConnectionFileText | scrape_identities.py:226-257 | the file text holds each pair's block text between the blocks before and after it, and ends with the aggregator block over the identifier list |
| Connections.NoSurvivorsFile | scrape_identities.py:252-257 | with no surviving pair, the file is the aggregator block alone, with an empty `connections` list |
| Text.ConcatAppend | scrape_identities.py:226-257 | the text of two runs of writes is the text of the first followed by that of the second |
| Scraper.EmitPair | scrape_identities.py:217-250 | handling one surviving pair takes the emitted state for the earlier pairs to the state for those pairs plus this one: one section assignment, the five block writes, and one aggregator entry with a comma only when the list was non-empty |
| Scraper.EmitAccount | scrape_identities.py:202-250 | the inner loop over an account's roles extends the emitted state by exactly that account's kept pairs |
| Scraper.EmitConfigs | scrape_identities.py:196-257 | the whole loop yields the configuration built from the surviving pairs in discovery order. The connection file's writes are their blocks followed by the aggregator block over their identifiers |
| Scraper.Scrape | scrape_identities.py:107-125 | a run stops on placeholder configuration, or else without a `primary` profile, and otherwise generates exactly the output of the emission loop |

`Connections.IndexOf`, `Connections.ParseItems` and `Connections.ParseQuotedList`
are a reader for the aggregator list. The script has no such reader; it exists
only to state the round trip of the list.

## Left out

- The AWS CLI calls (`aws sso logout`, `login`, `list-accounts`, `list-account-roles`) and their JSON parsing. The model takes their result as an input listing of accounts with role lists.
- The SSO token cache (`list_files`, `get_sso_access_token`), with its file listing, modification times and JSON read.
- `check_profile_exists` reads `~/.aws/config`. The model takes its answer as a boolean input of `Scrape`.
- The screen clear, the banner and the error messages. The process exits are modelled as `Outcome` values, which do not record the exit status. The placeholder exit (`sys.exit(1)`, line 120) ends with status 1. The missing-profile exit (`exit()`, line 125) ends with status 0, so that run counts as a success.
- Filesystem operations: creating `generated/`, deleting old files, opening and closing files. This includes the removal step that tests whether `generated/steampipe_sp_conf.json` exists but then deletes `generated/aws.spc`. If the first file exists without the second, that step raises an error the model does not capture.
- The text serialisation of the configuration (`config.write`). The model stops at its sections, in order, with their settings.
- `configparser`'s `%` interpolation check on assignment. A value holding a malformed `%` makes the real assignment raise; the model accepts any value.
- Unicode `lower()`. Only ASCII letters are lower-cased; every other character is left as it is.
- Connections.JoinQuotedRoundTrip, Connections.AggregatorListsEveryConnection: the round trip is stated only for names without `"`. The script does not escape quotes, so a name containing one yields a list that cannot be read back.
