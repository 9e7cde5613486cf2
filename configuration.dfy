/**
 * The four values the script must be edited to set before it is run, and the
 * check that refuses to run while any of them is still a placeholder.
 */
module Configuration {

  /** `SSO_START_URL`, `SSO_REGION`, `AWS_REGION` and `OUTPUT_FORMAT`. */
  datatype Config = Config(ssoStartUrl: string, ssoRegion: string, awsRegion: string, outputFormat: string)

  /** The placeholder strings that mark a value as not yet customised. */
  const DefaultValues: seq<string> := ["your_sso_start_url", "your_sso_region", "your_region", "your_output_format"]

  /** The values the script is distributed with. */
  const Shipped: Config := Config("https://dunlop.awsapps.com/start", "ap-southeast-2", "ap-southeast-2", "json")

  /** The configured values, in the order the check visits them. */
  function Values(c: Config): seq<string> {
    [c.ssoStartUrl, c.ssoRegion, c.awsRegion, c.outputFormat]
  }

  /** Some configured value is one of the placeholders (not necessarily its own). */
  predicate UsesPlaceholder(c: Config) {
    exists k :: 0 <= k < |Values(c)| && Values(c)[k] in DefaultValues
  }

  /** `check_default_values`: visits the values in order and stops at the first placeholder. */
  method CheckDefaultValues(c: Config) returns (stillDefault: bool)
    ensures stillDefault <==> UsesPlaceholder(c)
  {
    var values := Values(c);
    var i := 0;
    while i < |values|
      invariant 0 <= i <= |values|
      invariant forall k :: 0 <= k < i ==> values[k] !in DefaultValues
    {
      if values[i] in DefaultValues {
        return true;
      }
      i := i + 1;
    }
    return false;
  }

  /** Leaving any one field at any placeholder is caught. */
  lemma AnyFieldAnyPlaceholder(c: Config, k: nat, placeholder: string)
    requires k < 4 && placeholder in DefaultValues && Values(c)[k] == placeholder
    ensures UsesPlaceholder(c)
  {
  }

  /** Values that are none of the placeholders pass the check. */
  lemma CustomisedPasses(c: Config)
    requires forall v :: v in Values(c) ==> v !in DefaultValues
    ensures !UsesPlaceholder(c)
  {
  }

  /** The distributed script passes its own check. */
  lemma ShippedPasses()
    ensures !UsesPlaceholder(Shipped)
  {
    CustomisedPasses(Shipped);
  }
}
