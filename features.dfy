/** The incompatible-features rule table (app2run/config/feature_config_loader.py,
    duplicated at the top of app2run/commands/list_incompatible_features.py).

    A rule is either unsupported outright or range-limited; a range-limited rule
    extends an unsupported one with an inclusive `[min, max]` range and the Cloud Run
    flags the translators emit for it. */
module Features {
  import opened Dicts

  /** Where the configuration came from: an app.yaml file or the App Engine Admin API.
      Both copies of the `InputType` enum declare only `APP_YAML`; the second variant
      follows the two-variant `path` of every rule (`app_yaml` and `admin_api`). */
  datatype InputType = AppYaml | AdminApi
  {
    /** `input_type.value` */
    function Name(): string
    {
      match this
      case AppYaml => "app_yaml"
      case AdminApi => "admin_api"
    }
  }

  /** The dotted path of a feature in each of the two input formats. */
  datatype Path = Path(adminApi: string, appYaml: string)
  {
    /** `path[input_type.value]` */
    function For(t: InputType): (p: string)
      ensures t == AppYaml ==> p == appYaml
      ensures t == AdminApi ==> p == adminApi
    {
      match t
      case AppYaml => appYaml
      case AdminApi => adminApi
    }
  }

  datatype Range = Range(min: int, max: int)

  /** `UnsupportedFeature` and its subclass `RangeLimitFeature`: both carry `path`,
      `severity` and `reason`; only the range-limited kind has `range`. The
      translators also read `flags` from a range-limited rule, a field the dataclass
      does not declare; a rule converted from keyword arguments has none. */
  datatype Feature =
    | Unsupported(path: Path, severity: string, reason: string)
    | RangeLimited(path: Path, severity: string, reason: string, range: Range, flags: seq<string>)
  {
    /** `is_within_range`: `min <= val <= max`, both ends included. */
    predicate IsWithinRange(v: int)
      requires RangeLimited?
      ensures IsWithinRange(v) ==> range.min <= range.max
    {
      range.min <= v <= range.max
    }

    /** The value the translators emit for an input `v` that is not below the
        minimum: `v` itself when within range, otherwise the maximum. */
    function Clamp(v: int): (t: int)
      requires RangeLimited?
      ensures range.min <= range.max ==> IsWithinRange(t)
      ensures t == v || t == range.max
      ensures t == v <==> IsWithinRange(v) || v == range.max
    {
      if IsWithinRange(v) then v else range.max
    }
  }

  /** A range whose bounds are crossed admits no value. */
  lemma EmptyRange(f: Feature, v: int)
    requires f.RangeLimited? && f.range.min > f.range.max
    ensures !f.IsWithinRange(v)
  {
  }

  /** Both bounds are inside the range (e.g. cpu 8 of [1, 8] gives no finding). */
  lemma RangeEndsIncluded(f: Feature)
    requires f.RangeLimited? && f.range.min <= f.range.max
    ensures f.IsWithinRange(f.range.min) && f.IsWithinRange(f.range.max)
  {
  }

  /** Clamping twice is clamping once. */
  lemma ClampIdempotent(f: Feature, v: int)
    requires f.RangeLimited? && f.range.min <= f.range.max
    ensures f.Clamp(f.Clamp(v)) == f.Clamp(v)
  {
  }

  // ---------------------------------------------------------------------------
  // FeatureConfig.__post_init__: keyword arguments to dataclasses

  /** The keyword arguments `**f` of one rule, by keyword: which of the dataclass
      fields it names, and any other keywords it carries. */
  datatype Kwargs = Kwargs(path: Option<Path>, severity: Option<string>, reason: Option<string>,
                           range: Option<Range>, flags: Option<seq<string>>, others: seq<string>)

  /** `UnsupportedFeature(**f)` succeeds only when `f` names exactly the fields of
      the dataclass (a missing or an unexpected keyword raises `TypeError`). */
  predicate UnsupportedKwargs(kw: Kwargs)
  {
    && kw.path.Some? && kw.severity.Some? && kw.reason.Some?
    && kw.range.None? && kw.flags.None? && kw.others == []
  }

  /** `RangeLimitFeature(**f)` succeeds only when `f` names the inherited fields and
      `range`; the dataclass declares no `flags`, so a `flags` keyword raises
      `TypeError` like any other unexpected one. */
  predicate RangeLimitedKwargs(kw: Kwargs)
  {
    && kw.path.Some? && kw.severity.Some? && kw.reason.Some?
    && kw.range.Some? && kw.flags.None? && kw.others == []
  }

  /** An entry with `path`, `severity`, `reason` and `range` converts to a rule with
      no flags; the same entry with a `flags` keyword is refused. */
  lemma RangeLimitedKwargsExamples(p: Path, severity: string, reason: string, r: Range, flags: seq<string>)
    ensures RangeLimitedKwargs(Kwargs(Some(p), Some(severity), Some(reason), Some(r), None, []))
    ensures MakeRangeLimited(Kwargs(Some(p), Some(severity), Some(reason), Some(r), None, []))
         == RangeLimited(p, severity, reason, r, [])
    ensures !RangeLimitedKwargs(Kwargs(Some(p), Some(severity), Some(reason), Some(r), Some(flags), []))
  {
  }

  /** `UnsupportedFeature(**f)` */
  function MakeUnsupported(kw: Kwargs): (f: Feature)
    requires UnsupportedKwargs(kw)
    ensures f.Unsupported?
  {
    Unsupported(kw.path.value, kw.severity.value, kw.reason.value)
  }

  /** `RangeLimitFeature(**f)`: a rule without flags. */
  function MakeRangeLimited(kw: Kwargs): (f: Feature)
    requires RangeLimitedKwargs(kw)
    ensures f.RangeLimited?
  {
    RangeLimited(kw.path.value, kw.severity.value, kw.reason.value, kw.range.value, [])
  }

  /** The converted `unsupported` list: one unsupported rule per entry, in order. */
  function UnsupportedList(raw: seq<Kwargs>): (fs: seq<Feature>)
    requires forall i :: 0 <= i < |raw| ==> UnsupportedKwargs(raw[i])
    ensures |fs| == |raw|
    ensures forall i :: 0 <= i < |raw| ==> fs[i] == MakeUnsupported(raw[i]) && fs[i].Unsupported?
  {
    if raw == [] then [] else UnsupportedList(raw[..|raw| - 1]) + [MakeUnsupported(raw[|raw| - 1])]
  }

  /** The converted `range_limited` list: one range-limited rule per entry, in order. */
  function RangeLimitedList(raw: seq<Kwargs>): (fs: seq<Feature>)
    requires forall i :: 0 <= i < |raw| ==> RangeLimitedKwargs(raw[i])
    ensures |fs| == |raw|
    ensures forall i :: 0 <= i < |raw| ==> fs[i] == MakeRangeLimited(raw[i]) && fs[i].RangeLimited?
  {
    if raw == [] then [] else RangeLimitedList(raw[..|raw| - 1]) + [MakeRangeLimited(raw[|raw| - 1])]
  }

  /** Every entry of a range-limited list carries a path, severity and reason, as
      `RangeLimitFeature` extends `UnsupportedFeature`. */
  lemma RangeLimitedExtendsUnsupported(raw: seq<Kwargs>, i: int)
    requires forall j :: 0 <= j < |raw| ==> RangeLimitedKwargs(raw[j])
    requires 0 <= i < |raw|
    ensures var f := RangeLimitedList(raw)[i];
      && f.path == raw[i].path.value
      && f.severity == raw[i].severity.value
      && f.reason == raw[i].reason.value
      && f.range == raw[i].range.value
      && f.flags == []
  {
  }

  /** `FeatureConfig`: the two rule lists of the rule file. */
  class FeatureConfig {
    var unsupported: seq<Feature>
    var rangeLimited: seq<Feature>

    /** `FeatureConfig(**parsed_yaml)` followed by `__post_init__`, which replaces each
        list of keyword-argument dictionaries by the list of dataclasses. */
    constructor (unsupportedRaw: seq<Kwargs>, rangeLimitedRaw: seq<Kwargs>)
      requires forall i :: 0 <= i < |unsupportedRaw| ==> UnsupportedKwargs(unsupportedRaw[i])
      requires forall i :: 0 <= i < |rangeLimitedRaw| ==> RangeLimitedKwargs(rangeLimitedRaw[i])
      ensures unsupported == UnsupportedList(unsupportedRaw)
      ensures rangeLimited == RangeLimitedList(rangeLimitedRaw)
    {
      var unsupportedData: seq<Feature> := [];
      for i := 0 to |unsupportedRaw|
        invariant unsupportedData == UnsupportedList(unsupportedRaw[..i])
      {
        assert unsupportedRaw[..i + 1][..i] == unsupportedRaw[..i];
        unsupportedData := unsupportedData + [MakeUnsupported(unsupportedRaw[i])];
      }
      assert unsupportedRaw[..|unsupportedRaw|] == unsupportedRaw;
      var rangeLimitedData: seq<Feature> := [];
      for i := 0 to |rangeLimitedRaw|
        invariant rangeLimitedData == RangeLimitedList(rangeLimitedRaw[..i])
      {
        assert rangeLimitedRaw[..i + 1][..i] == rangeLimitedRaw[..i];
        rangeLimitedData := rangeLimitedData + [MakeRangeLimited(rangeLimitedRaw[i])];
      }
      assert rangeLimitedRaw[..|rangeLimitedRaw|] == rangeLimitedRaw;
      unsupported := unsupportedData;
      rangeLimited := rangeLimitedData;
    }
  }
}
