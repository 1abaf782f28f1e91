/** The timeout translation rule (app2run/commands/translation_rules/timeout.py):
    the request timeout Cloud Run gets follows the App Engine environment and
    scaling group, since App Engine's own request deadline depends on them. */
module Timeout {
  import opened Dicts
  import opened Values
  import opened Util
  import opened Scaling

  /** `_SCALING_METHOD_W_10_MIN_TIMEOUT` */
  predicate TenMinuteTimeout(s: ScalingType)
  {
    s == Automatic
  }

  /** `_SCALING_METHOD_W_60_MIN_TIMEOUT` */
  predicate SixtyMinuteTimeout(s: ScalingType)
  {
    s == Manual || s == Basic
  }

  /** `translate_timeout_features` */
  function TranslateTimeout(input: Config): (r: seq<string>)
    ensures |r| <= 1
    ensures IsFlexEnv(input) ==> r == ["--timeout=60m"]
    ensures !IsFlexEnv(input) && ScalingFeaturesUsed(input) == [Automatic] ==> r == ["--timeout=10m"]
    ensures !IsFlexEnv(input) && (ScalingFeaturesUsed(input) == [Manual] || ScalingFeaturesUsed(input) == [Basic]) ==>
      r == ["--timeout=60m"]
    ensures !IsFlexEnv(input) && |ScalingFeaturesUsed(input)| != 1 ==> r == []
  {
    if IsFlexEnv(input) then ["--timeout=60m"]
    else
      var scalingFeaturesUsed := ScalingFeaturesUsed(input);
      if |scalingFeaturesUsed| == 1 then
        var scalingFeature := scalingFeaturesUsed[0];
        if TenMinuteTimeout(scalingFeature) then ["--timeout=10m"]
        else if SixtyMinuteTimeout(scalingFeature) then ["--timeout=60m"]
        else []
      else []
  }

  /** The two timeout sets split the scaling groups between them, so a standard
      document with one scaling group always gets a timeout. */
  lemma OneGroupHasTimeout(input: Config)
    requires !IsFlexEnv(input) && |ScalingFeaturesUsed(input)| == 1
    ensures |TranslateTimeout(input)| == 1
  {
    var s := ScalingFeaturesUsed(input)[0];
    assert TenMinuteTimeout(s) != SixtyMinuteTimeout(s);
  }

  /** A standard document with no scaling group gets no timeout (the `runtime: python`
      example); one with only `automatic_scaling` gets ten minutes. */
  lemma TimeoutExamples()
    ensures TranslateTimeout([("runtime", Str("python"))]) == []
    ensures TranslateTimeout([("automatic_scaling", Map([("min_instances", Int(1))]))]) == ["--timeout=10m"]
  {
    var plain: Config := [("runtime", Str("python"))];
    var auto: Config := [("automatic_scaling", Map([("min_instances", Int(1))]))];
    assert Keys(plain) == ["runtime"] && Keys(auto) == ["automatic_scaling"];
    assert ScalingFeaturesUsed(plain) == [];
    assert ScalingFeaturesUsed(auto) == [Automatic];
  }
}
