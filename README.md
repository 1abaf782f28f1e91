# app2run rule engine, modelled in Dafny

app2run migrates an App Engine application to Cloud Run. It reads an `app.yaml`
document and does two things with it:

- `app2run list-incompatible-features` flattens the document into dotted paths. It
  compares each path with a table of *unsupported* and *range-limited* features and
  reports the ones that match.
- `app2run translate` runs a set of translation rules and prints one
  `gcloud beta run deploy` command. The rules cover concurrency, scaling, timeout,
  CPU and memory, pass-through features, environment variables, the default service
  account, required labels, the entrypoint/Procfile and Cloud SQL.

This project models that rule engine. Each source module has a Dafny module of the
same name:

| Dafny module | source |
|---|---|
| `Dicts`, `Values`, `Text`, `StringRepr` | Python dictionaries (insertion-ordered association lists with assignment and `update`), YAML values (`int`, `str`, nested mapping) and the string built-ins the rules use (`split`, `join`, `strip`, `startswith`, `in`, `replace`, `str(int)`), and `repr(str)`, which writes the keys and strings of a mapping rendered by `str` |
| `Util` | `app2run/common/util.py` |
| `Features` | `app2run/config/feature_config_loader.py` and the dataclasses repeated in `list_incompatible_features.py` |
| `Incompatible` | `app2run/commands/list_incompatible_features.py` |
| `FieldGroups`, `Scaling` | `translation_rules/scaling.py`, plus the filter, clamp and emit loop that `cpu_memory.py` shares with it |
| `Concurrency`, `Timeout`, `CpuMemory`, `Supported`, `CloudSql`, `Entrypoint`, `RequiredFlags` | the translation rule of the same name |
| `Translate` | `app2run/commands/translate.py` |

Each loop that builds a result step by step (a list of flags, a filtered
dictionary, the output text) becomes a `method` with a `while`/`for` loop. Its
`ensures` ties the result to a specification function. Lemmas about that function
state what the source promises. The one exception is the early-return search
`for key in ENTRYPOINT_FEATURE_KEYS` of `_get_entrypoint_from_input`
(`entrypoint.py:105-107`). It is the function `Entrypoint.EntrypointFromInput`,
built on `Util.FeatureKeyFromInput`.

Inputs that live outside the source become parameters:

- the rule table (`incompatible_features.yaml`);
- the `gcloud config list` output;
- the package version;
- the `--project`, `--service-name` and `--command` options;
- whether a `Procfile` exists and what it holds, modelled by the `Entrypoint.WorkDir`
  class.

Where Python would raise (`KeyError`, `TypeError`, `IndexError`, `AttributeError`),
the model states the condition as a `...Ready` predicate required by the member.

## Model

| member | source | states |
|---|---|---|
| `Util.IsFlexEnvExamples` | app2run/common/util.py:5-7 | `{env: flex}` is a flex document; `{}` and `{env: standard}` are not |
| `Util.IsFlexEnv` | app2run/common/util.py:5-7 | a flex document holds the entry `env: flex` |
| `Util.FlexEnvEntry` | app2run/common/util.py:5-7 | on a dictionary with distinct keys, a document is a flex document iff it holds the entry `env: flex` |
| `Util.IsFlexEnvFlatten` | app2run/common/util.py:5-7 | on a document with plain keys, flattening does not change whether it is a flex document |
| `Util.OutputFlags` | app2run/common/util.py:9-14 | one `flag=value` string per flag, in flag order |
| `Util.GenerateOutputFlags` | app2run/common/util.py:9-14 | the loop builds exactly `OutputFlags(flags, value)` |
| `Util.OutputFlagsAppend` | app2run/common/util.py:9-14 | rendering two flag lists is rendering each in turn |
| `Util.FeaturesByPrefix` | app2run/common/util.py:16-22 | the result holds exactly the entries whose key starts with the prefix (every such entry is kept, nothing else) |
| `Util.FeaturesByPrefixSnoc` | app2run/common/util.py:19-21 | one more entry is kept exactly when its key has the prefix |
| `Util.FeaturesByPrefixDistinct` | app2run/common/util.py:16-22 | filtering a dictionary keeps its keys distinct |
| `Util.GetFeaturesByPrefix` | app2run/common/util.py:16-22 | the loop that assigns `matched_features[feature_key]` builds `FeaturesByPrefix` |
| `Util.JoinPath` | app2run/common/util.py:39 | the child path is the key at top level and `parent.key` below it |
| `Util.FieldOf` | app2run/commands/translation_rules/scaling.py:56-57 | `key.split('.')[1]` of `group.field` is `field` |
| `Util.Flatten` | app2run/common/util.py:24-44 | the flattened dictionary has distinct keys, holds no nested mapping and, below a parent, only paths under that parent |
| `Util.FlattenKeys` | app2run/common/util.py:24-44 | the recursive loop with `paths.update` computes `Flatten` |
| `Util.EmptyMappingContributesNothing` | app2run/common/util.py:42-43 | a nested empty mapping adds no path |
| `Util.FlattenFlat` | app2run/common/util.py:37-44 | a document without nested mappings flattens to its keys prefixed by the parent path |
| `Util.FlattenFlatTop` | app2run/common/util.py:37-44 | at top level, a document without nested mappings flattens to itself |
| `Util.FlattenIdempotent` | app2run/common/util.py:24-44 | flattening a flattened dictionary again changes nothing |
| `Util.FlattenExample` | app2run/common/util.py:25-36 | the example in the docstring: `{resources: {cpu: 5, memory_gb: 10}}` flattens to `resources.cpu: 5, resources.memory_gb: 10` |
| `Util.FlattenFromLeaf` | app2run/common/util.py:40-41 | every leaf of a document with plain keys appears under its path with its own value, even after later entries are visited |
| `Util.FlattenFromNested` | app2run/common/util.py:42-43 | every path of a nested mapping's flattening survives, with its value, in the whole flattening |
| `Util.FlattenTopLevel` | app2run/common/util.py:37-44 | a plain top-level key is in the flattening iff it holds a non-mapping value, and then the value is unchanged |
| `Util.FeatureKeyFromInput` | app2run/commands/translation_rules/cloud_sql_instances.py:26-28 | `get_feature_key_from_input`: `None` iff no listed key is present, otherwise the first listed key that is present |
| `Features.Path.For` | app2run/config/feature_config_loader.py:28-32 | `path[input_type.value]` selects the `app_yaml` or the `admin_api` variant |
| `Features.Feature.Clamp` | app2run/commands/translation_rules/scaling.py:73-75 | the target value is the input when it is within range, otherwise the maximum; with `min <= max` it is always within range |
| `Features.Feature.IsWithinRange` | app2run/config/feature_config_loader.py:47-49 | a value is within range only when the range is not empty (`min <= max`) |
| `Features.RangeEndsIncluded` | app2run/config/feature_config_loader.py:47-49 | `is_within_range` includes both bounds |
| `Features.EmptyRange` | app2run/config/feature_config_loader.py:47-49 | with `min > max` no value is within range |
| `Features.ClampIdempotent` | app2run/commands/translation_rules/scaling.py:73-75 | clamping a clamped value changes nothing |
| `Features.UnsupportedList` | app2run/config/feature_config_loader.py:57-59 | one `UnsupportedFeature(**f)` per raw entry, in order |
| `Features.RangeLimitedList` | app2run/config/feature_config_loader.py:60-61 | one `RangeLimitFeature(**f)` per raw entry, in order, for entries with a path, severity, reason and range and no `flags` key |
| `Features.RangeLimitedExtendsUnsupported` | app2run/config/feature_config_loader.py:41-45 | a range-limited feature carries the path, severity and reason of its entry, plus its range, and no flags |
| `Features.RangeLimitedKwargsExamples` | app2run/config/feature_config_loader.py:41-61 | an entry without `flags` is accepted and converted with an empty flag list; the same entry with a `flags` keyword is refused, as the dataclass declares no such field |
| `Features.FeatureConfig.constructor` | app2run/commands/list_incompatible_features.py:59-67 | `__post_init__` replaces both raw lists by the converted feature lists; accepts range-limited entries without `flags` |
| `Incompatible.ByPath` | app2run/commands/list_incompatible_features.py:111-145 | the path-indexed table has distinct keys, holds every feature under its path and only features from the list, and the last feature with a path is the one kept |
| `Incompatible.GetFeatureListByInputType` | app2run/commands/list_incompatible_features.py:141-145 | the loop that assigns `feature_dict[path] = i` builds `ByPath` |
| `Incompatible.LaterRuleWins` | app2run/commands/list_incompatible_features.py:141-145 | when two features share a path, the later one is in the table |
| `Incompatible.NoRuleNoKey` | app2run/commands/list_incompatible_features.py:141-145 | a path no feature has is not in the table |
| `Incompatible.Findings` | app2run/commands/list_incompatible_features.py:99-107 | at most one finding per flattened path |
| `Incompatible.FindingsComplete` | app2run/commands/list_incompatible_features.py:99-107 | every unsupported path in the document, and every range-limited path whose value is out of range, is reported |
| `Incompatible.FindingsSound` | app2run/commands/list_incompatible_features.py:99-107 | every reported feature has its path in the document, and is unsupported or out of range there |
| `Incompatible.FindingForKey` | app2run/commands/list_incompatible_features.py:101-107 | an unsupported key is reported; a range-limited key that is not unsupported is reported iff its value is out of range |
| `Incompatible.FindingsAppend` | app2run/commands/list_incompatible_features.py:99-107 | the findings of two parts of the document are the findings of each, in order |
| `Incompatible.NoRuleNoFinding` | app2run/commands/list_incompatible_features.py:99-107 | a document whose paths match no rule has no findings |
| `Incompatible.CheckForIncompatibility` | app2run/commands/list_incompatible_features.py:84-109 | the check indexes both rule lists by path, flattens the document and returns `Findings` |
| `Incompatible.CheckIsExact` | app2run/commands/list_incompatible_features.py:84-109 | the check's result is both complete and sound for the flattened document |
| `Incompatible.DisplayFeatures` | app2run/commands/list_incompatible_features.py:196-207 | one `{path, severity, reason}` record per finding, in order, with the input type's path |
| `Incompatible.GetDisplayFeatures` | app2run/commands/list_incompatible_features.py:198-207 | the loop builds `DisplayFeatures` |
| `Incompatible.GenerateOutput` | app2run/commands/list_incompatible_features.py:184-194 | no findings gives exactly "No incompatibilities found." and nothing dumped; otherwise exactly `summary:`, `  major: <count>`, `incompatible_features:`, and `DisplayFeatures` of the findings dumped |
| `Incompatible.ReportCountsRecords` | app2run/commands/list_incompatible_features.py:184-194 | the `major:` count equals the number of dumped records, and the record at position `i` shows the `i`-th finding |
| `Incompatible.ListIncompatibleFeatures` | app2run/commands/list_incompatible_features.py:72-82 | an empty document gives "`<name>` is empty." |
| `Incompatible.FlexOnlyIsCompatible` | app2run/commands/list_incompatible_features.py:72-109 | `env: flex` with no rule on `env` reports "No incompatibilities found." |
| `FieldGroups.AllowedFeatureKeys` | app2run/commands/translation_rules/scaling.py:56-57 | the kept keys are exactly the group's keys whose second segment is allowed |
| `FieldGroups.AccumulateFieldFlags` | app2run/commands/translation_rules/scaling.py:58-64 | the loop over the allowed keys concatenates each key's rendered flags |
| `FieldGroups.GroupFlagsSnoc` | app2run/commands/translation_rules/scaling.py:45-64 | one more flattened entry adds its field's flags iff it lies in the group and its field is allowed, otherwise nothing |
| `FieldGroups.AllowedFieldAppends` | app2run/commands/translation_rules/scaling.py:55-63 | an allowed field of the group appends exactly its rendered flags |
| `FieldGroups.OtherKeyIgnored` | app2run/commands/translation_rules/scaling.py:52-57 | an entry outside the group, or one whose field is not allowed (such as `max_concurrent_requests`), adds no flag |
| `Scaling.ScalingFeaturesUsed` | app2run/commands/translation_rules/scaling.py:78-86 | a scaling type is listed iff its key is in the document, in the order automatic, manual, basic |
| `Scaling.OutputFlagsByScalingType` | app2run/commands/translation_rules/scaling.py:66-76 | below the minimum gives no flag, within range gives the value, above the maximum gives the maximum |
| `Scaling.InstancesExample` | app2run/commands/translation_rules/scaling.py:66-76 | with range [0, 1000]: 10 gives `=10`, 1001 gives `=1000`, -1 gives nothing |
| `Scaling.GetOutputFlags` | app2run/commands/translation_rules/scaling.py:45-64 | the loop computes the group's flags over the flattened document |
| `Scaling.ScalingFlagsSnoc` | app2run/commands/translation_rules/scaling.py:45-64 | one more flattened entry adds `OutputFlagsByScalingType` of its rule iff it is an allowed key of the scaling type, otherwise nothing |
| `Scaling.TranslateScalingFeatures` | app2run/commands/translation_rules/scaling.py:24-43 | no flags unless exactly one scaling type is used, otherwise that type's flags |
| `Scaling.TwoGroupsNoFlags` | app2run/commands/translation_rules/scaling.py:37-40 | two scaling types in one document give no flags |
| `Concurrency.TranslateConcurrentRequests` | app2run/commands/translation_rules/concurrent_requests.py:27-53 | without either key: the rule's maximum on flex, 10 otherwise; with a key (max first): that key's rule applied like a scaling field |
| `Concurrency.SetValueBounded` | app2run/commands/translation_rules/concurrent_requests.py:45-53 | a set value below the minimum gives nothing; otherwise one value between the bounds, one flag per rule flag |
| `Concurrency.DefaultExamples` | app2run/commands/translation_rules/concurrent_requests.py:39-43 | with range [1, 1000]: `env: flex` gives `--concurrency=1000`, a standard document `--concurrency=10` |
| `Concurrency.MaxKeyWins` | app2run/commands/translation_rules/concurrent_requests.py:22-33 | with both keys set, `max_concurrent_requests` is the one translated |
| `Concurrency.OnlyTargetSet` | app2run/commands/translation_rules/concurrent_requests.py:31-53 | with only `target_concurrent_requests` set, that key's rule is applied to its value like a scaling field |
| `Concurrency.FlattenTargetDoc` | app2run/common/util.py:24-44 | the flex document with nested `target_concurrent_requests` flattens to `env` and the dotted key |
| `Concurrency.NestedTargetIgnored` | app2run/commands/translation_rules/concurrent_requests.py:32-43 | given the nested document, the rule never sees the nested value and emits the default maximum |
| `Concurrency.NestedTarget` | app2run/commands/translation_rules/concurrent_requests.py:45-53 | given the flattened document, the nested value is translated by its rule |
| `Timeout.TranslateTimeout` | app2run/commands/translation_rules/timeout.py:15-30 | flex gives 60m; otherwise one scaling type gives 10m for automatic and 60m for manual/basic; anything else gives nothing; never more than one flag |
| `Timeout.OneGroupHasTimeout` | app2run/commands/translation_rules/timeout.py:24-29 | a standard document with exactly one scaling type always gets a timeout |
| `Timeout.TimeoutExamples` | app2run/commands/translation_rules/timeout.py:15-30 | no scaling gives nothing; `automatic_scaling` gives `--timeout=10m` |
| `CpuMemory.FormatCloudRunMemoryUnit` | app2run/commands/translation_rules/cpu_memory.py:115-119 | the value followed by `Gi` |
| `CpuMemory.ResourceField` | app2run/commands/translation_rules/cpu_memory.py:74-84 | the value, or the maximum when out of range on either side, per rule flag, with `Gi` for memory fields |
| `CpuMemory.BelowMinimumDiffers` | app2run/commands/translation_rules/cpu_memory.py:77-78 | unlike scaling, a resource below the minimum is raised to the maximum, not dropped |
| `CpuMemory.FlexExamples` | app2run/commands/translation_rules/cpu_memory.py:64-86 | cpu 9 gives `--cpu=8`, 7 gives `--cpu=7`; memory 33 gives `--memory=32Gi`, 31 gives `--memory=31Gi` |
| `CpuMemory.TranslateFlexCpuMemory` | app2run/commands/translation_rules/cpu_memory.py:64-86 | the loop computes the flex resource flags of the flattened document |
| `CpuMemory.FlexResourceFlagsSnoc` | app2run/commands/translation_rules/cpu_memory.py:70-84 | one more flattened entry adds `ResourceField` iff it is an allowed `resources.*` key, otherwise nothing |
| `CpuMemory.InstanceClassFlags` | app2run/commands/translation_rules/cpu_memory.py:106-113 | a known instance class gives `--cpu=<cpu>` and `--memory=<memory>Gi` with its table row's figures |
| `CpuMemory.InstanceClassExamples` | app2run/commands/translation_rules/cpu_memory.py:19-56 | F1, B2, F4_1G and B8 give their table's cpu and memory as exact flags |
| `CpuMemory.InstanceClassTable` | app2run/commands/translation_rules/cpu_memory.py:19-56 | the cpu and memory of each of the nine instance classes F1, F2, F4, F4_1G, B1, B2, B4, B4_1G, B8 |
| `CpuMemory.InstanceClassFlagsOfRow` | app2run/commands/translation_rules/cpu_memory.py:106-113 | a class whose row is `(cpu, memory)` gives exactly `--cpu=<cpu>` and `--memory=<memory>Gi` |
| `CpuMemory.InstanceClassRows` | app2run/commands/translation_rules/cpu_memory.py:19-56 | only those nine classes have a row |
| `CpuMemory.DefaultsInTable` | app2run/commands/translation_rules/cpu_memory.py:13-17 | every scaling type's default instance class is in the table |
| `CpuMemory.CpuMemoryDefault` | app2run/commands/translation_rules/cpu_memory.py:94-104 | no flags unless exactly one scaling type; automatic gives F1's, manual and basic give B2's |
| `CpuMemory.TranslateStandardInstanceClass` | app2run/commands/translation_rules/cpu_memory.py:88-92 | an explicit `instance_class` wins over the scaling default; the result has no flag or two |
| `CpuMemory.StandardReadsInstanceClassOnly` | app2run/commands/translation_rules/cpu_memory.py:88-104 | two standard documents that agree on `instance_class` and on the scaling types get the same flags |
| `CpuMemory.TranslateAppResources` | app2run/commands/translation_rules/cpu_memory.py:57-62 | flex documents go to the flex rule, others to the instance-class rule |
| `Supported.PassthroughSound` | app2run/commands/translation_rules/supported_features.py:17-25 | every pass-through flag comes from a table key that is in the document and not excluded, with the quoted value |
| `Supported.PassthroughComplete` | app2run/commands/translation_rules/supported_features.py:17-25 | every table key in the document that is not excluded contributes its flags |
| `Supported.Passthrough` | app2run/commands/translation_rules/supported_features.py:17-25 | no pass-through flag when no table key is both in the document and not excluded |
| `Values.ShowSingleEntry` | app2run/commands/translation_rules/supported_features.py:24 | a mapping value in `f'"{…}"'` renders as `{repr(key): repr(value)}`, so its key and nested strings are `repr` literals |
| `StringRepr.StrRepr` | app2run/commands/translation_rules/supported_features.py:24 | a `repr` literal is quoted at both ends by the same character, which is `"` exactly when the string holds a `'` and no `"` |
| `StringRepr.StrReprRoundTrip` | app2run/commands/translation_rules/supported_features.py:24 | reading the literal back (quote char escaped, `\\`, `\t`, `\n`, `\r`, `\xhh`, `\uhhhh`, anything else refused) gives exactly the original string, so every quote and backslash inside is escaped |
| `StringRepr.UnescapeEscaped` | app2run/commands/translation_rules/supported_features.py:24 | for either quote, decoding the escaped body of a literal gives back the string |
| `StringRepr.EscapedAppend` | app2run/commands/translation_rules/supported_features.py:24 | escaping works character by character: escaping `a + b` is escaping `a` then `b` |
| `StringRepr.PlainRepr` | app2run/commands/translation_rules/supported_features.py:24 | printable ASCII without `'` or backslash is written as `'s'`, unchanged inside |
| `StringRepr.DoubleQuotedRepr` | app2run/commands/translation_rules/supported_features.py:24 | printable ASCII with a `'` and no `"` or backslash is written as `"s"`, unchanged inside |
| `StringRepr.ApostropheExample` | app2run/commands/translation_rules/supported_features.py:24 | `it's` is written `"it's"` |
| `StringRepr.BackslashExample` | app2run/commands/translation_rules/supported_features.py:24 | `a\b` is written `'a\\b'`, the backslash doubled |
| `StringRepr.NoBreakSpaceExample` | app2run/commands/translation_rules/supported_features.py:24 | a no-break space (U+00A0) is written `'\xa0'` |
| `Supported.EnvsOutput` | app2run/commands/translation_rules/supported_features.py:78-85 | the string is empty iff there are no variables |
| `Supported.EnvsOutputSplits` | app2run/commands/translation_rules/supported_features.py:78-85 | splitting the output on `;` gives back one `key=value` per variable, when no entry holds `;` |
| `Supported.GenerateEnvsOutput` | app2run/commands/translation_rules/supported_features.py:78-85 | the loop with the trailing `;` removed computes `EnvsOutput` |
| `Supported.EnvExample` | app2run/commands/translation_rules/supported_features.py:33-44 | `{foo: bar}` gives `--set-env-vars="foo=bar"` |
| `Supported.EnvVariablesFlags` | app2run/commands/translation_rules/supported_features.py:33-44 | no `env_variables` gives nothing; otherwise flag `i` is the rule's flag `i` with `=` and the quoted `EnvsOutput` of the variables |
| `Supported.GetOutputFlagsForEnvVariables` | app2run/commands/translation_rules/supported_features.py:33-44 | no `env_variables` gives nothing; otherwise each flag carries the quoted `;`-joined `key=value` list |
| `Supported.DefaultServiceAccountFlags` | app2run/commands/translation_rules/supported_features.py:46-69 | a document with `service_account`, or no project id, gives nothing; otherwise one flag per rule flag |
| `Supported.ProjectFlagWins` | app2run/commands/translation_rules/supported_features.py:58-59 | with `--project` given, the gcloud configuration does not matter |
| `Supported.DefaultServiceAccountExample` | app2run/commands/translation_rules/supported_features.py:66-68 | the default account is `"<project>@appspot.gserviceaccount.com"` |
| `Supported.SupportedFlags` | app2run/commands/translation_rules/supported_features.py:14-31 | the pass-through flags, then the env-var flags, then the default service account flags, each block whole |
| `Supported.TranslateSupportedFeatures` | app2run/commands/translation_rules/supported_features.py:14-31 | the loop gives pass-through flags, then env-var flags, then the default service account |
| `CloudSql.ValidConnections` | app2run/commands/translation_rules/cloud_sql_instances.py:33-35 | a connection is kept iff it is in the list and validates |
| `CloudSql.ValidConnectionsAppend` | app2run/commands/translation_rules/cloud_sql_instances.py:33-35 | filtering keeps the input order: the valid connections of `a + b` are those of `a` followed by those of `b` |
| `CloudSql.AllValidKept` | app2run/commands/translation_rules/cloud_sql_instances.py:33-35 | when every connection validates, the list is kept whole |
| `CloudSql.CloudSqlFlags` | app2run/commands/translation_rules/cloud_sql_instances.py:21-38 | no key gives nothing; otherwise nothing or one flag per rule flag, and flags are emitted iff the rule has flags and some connection validates |
| `CloudSql.TranslateCloudSqlInstances` | app2run/commands/translation_rules/cloud_sql_instances.py:21-38 | the loop computes `CloudSqlFlags` |
| `CloudSql.OutputValidated` | app2run/commands/translation_rules/cloud_sql_instances.py:31-37 | the flag value, split on `,`, is exactly the valid connections in document order, so each is one of the document's and validates |
| `CloudSql.NoneValid` | app2run/commands/translation_rules/cloud_sql_instances.py:36-37 | no valid connection gives no flag |
| `CloudSql.AllValid` | app2run/commands/translation_rules/cloud_sql_instances.py:31-37 | all valid: the flag value is the document's value unchanged |
| `Entrypoint.EntrypointFromInput` | app2run/commands/translation_rules/entrypoint.py:104-108 | the value of the first listed key present, `''` when none is |
| `Entrypoint.DefaultEntrypointByRuntime` | app2run/commands/translation_rules/entrypoint.py:110-119 | non-empty iff the runtime starts with `python` or `ruby`; python gives gunicorn, ruby gives bundle |
| `Entrypoint.ProcfileEntrypoint` | app2run/commands/translation_rules/entrypoint.py:57-62 | the input entrypoint when truthy, otherwise the runtime's default |
| `Entrypoint.NumericEntrypointChecked` | app2run/commands/translation_rules/entrypoint.py:80-101 | `entrypoint: 5` for a Procfile runtime is refused when a Procfile exists (the `in` test would raise) and accepted when none does (`web: 5` is written) |
| `Entrypoint.ShouldGenerateProcfile` | app2run/commands/translation_rules/entrypoint.py:72-78 | a Procfile is wanted only when the flattened document has a string `runtime` that is one of the Procfile runtimes |
| `Entrypoint.ProcfileAfter` | app2run/commands/translation_rules/entrypoint.py:80-90 | an existing Procfile is kept; a missing one is created as exactly `web: <entrypoint>`, which holds the entrypoint |
| `Entrypoint.AdminApiFlags` | app2run/commands/translation_rules/entrypoint.py:39-54 | no command or a Procfile runtime gives nothing; otherwise `--command="<command>"` |
| `Entrypoint.AppYamlFlags` | app2run/commands/translation_rules/entrypoint.py:56-70 | a Procfile runtime or no `entrypoint` gives nothing; otherwise each flag carries the quoted entrypoint |
| `Entrypoint.ProcfileStep` | app2run/commands/translation_rules/entrypoint.py:31-63 | a Procfile is written only for a Procfile runtime |
| `Entrypoint.FlagsOrProcfile` | app2run/commands/translation_rules/entrypoint.py:31-70 | a Procfile runtime, or a Procfile being written, gives no flags |
| `Entrypoint.RoutesAgree` | app2run/commands/translation_rules/entrypoint.py:39-70 | the same entrypoint given in `app.yaml` or by `--command` gives the same flag |
| `Entrypoint.EntrypointExample` | app2run/commands/translation_rules/entrypoint.py:65-69 | `entrypoint: foo` gives `--command="foo"` |
| `Entrypoint.WorkDir.GenerateProcfile` | app2run/commands/translation_rules/entrypoint.py:80-90 | writes `web: <entrypoint>` only when no Procfile exists; warns iff an existing Procfile lacks the entrypoint; afterwards the Procfile holds the entrypoint or a warning was given |
| `Entrypoint.WorkDir.ProcfileContainsEntrypoint` | app2run/commands/translation_rules/entrypoint.py:92-102 | the entrypoint is found only when a Procfile exists (`ProcfileExists`); a Procfile `web: <entrypoint>` contains it |
| `Entrypoint.WorkDir.GenerateEntrypointAdminApi` | app2run/commands/translation_rules/entrypoint.py:39-54 | the flags are `AdminApiFlags`; the Procfile changes only when a command is given for a Procfile runtime |
| `Entrypoint.WorkDir.GenerateEntrypointAppYaml` | app2run/commands/translation_rules/entrypoint.py:56-70 | the flags are `AppYamlFlags`; the Procfile changes only for a Procfile runtime; a truthy non-string entrypoint with an existing Procfile, where `in` would raise `TypeError`, is excluded |
| `Entrypoint.WorkDir.TranslateEntrypointFeatures` | app2run/commands/translation_rules/entrypoint.py:31-37 | flattens the document and routes it by input type; flags and Procfile follow `EntrypointFlags` and `ProcfileStep` |
| `Entrypoint.ExistingProcfileKept` | app2run/commands/translation_rules/entrypoint.py:80-90 | an existing Procfile is never overwritten |
| `RequiredFlags.Labels` | app2run/commands/translation_rules/required_flags.py:15-20 | `migrated-from=app-engine,app2run-version=` followed by the version with every `.` replaced by `_` |
| `RequiredFlags.TranslateAddRequiredFlags` | app2run/commands/translation_rules/required_flags.py:6-13 | `--no-cpu-throttling`, `--allow-unauthenticated`, then `--labels=` followed by `Labels(version)` |
| `RequiredFlags.VersionExample` | app2run/commands/translation_rules/required_flags.py:15-20 | version `0.1.2` is labelled `0_1_2` |
| `Translate.GetServiceName` | app2run/commands/translate.py:43-48 | the stripped `service` when non-blank, otherwise `default`; never empty and never padded by ASCII or Unicode whitespace |
| `Translate.ServiceNameExamples` | app2run/commands/translate.py:43-48 | `" api "` gives `api`; a blank or missing service gives `default` |
| `Translate.ServiceNamed` | app2run/commands/translate.py:43-48 | for any `service` string, the name is its stripped form when that is non-blank, otherwise `default` |
| `Translate.UnicodeSpaceStripped` | app2run/commands/translate.py:43-48 | a trailing no-break space (U+00A0) is stripped, as `str.strip` does |
| `Translate.CloudRunFlags` | app2run/commands/translate.py:34-41 | the last three flags are always exactly the required flags |
| `Translate.FlagOrder` | app2run/commands/translate.py:34-41 | the flags are concurrency, scaling, timeout, resources, supported, then the three required flags, each block whole and in order |
| `Translate.GetCloudRunFlags` | app2run/commands/translate.py:34-41 | computes `CloudRunFlags` |
| `Translate.RequiredAndTimeout` | app2run/commands/translate.py:34-41 | the command always carries the required flags, and a flex document always gets `--timeout=60m` |
| `Translate.HeaderLine` | app2run/commands/translate.py:60-63 | the deploy line names the service and ends in `\` iff there are flags |
| `Translate.FlagLine` | app2run/commands/translate.py:65-69 | a flag line is indented by two spaces; every line but the last ends in ` \` |
| `Translate.OutputLines` | app2run/commands/translate.py:60-69 | a blank line, the header, one line per flag, and a final empty line |
| `Translate.GenerateOutput` | app2run/commands/translate.py:50-70 | the loop builds the `\n`-joined `OutputLines` |
| `Translate.OutputLayout` | app2run/commands/translate.py:60-69 | without newlines in the name and flags, splitting the output on `\n` gives back exactly `OutputLines` |
| `Translate.TranslateApp` | app2run/commands/translate.py:22-32 | an empty document gives "`<name>` is empty."; otherwise the command for the given or derived service name and the document's flags |

## Left out

- Command-line handling (`click`) and every warning or info message echoed to the
  console: the model returns values, not console output. The warning printed
  before the deploy command in `translate.py` is not part of `Translate.GenerateOutput`'s result.
- YAML parsing, `yaml.dump` of the display records, and reading
  `incompatible_features.yaml`. The rule table is a parameter, and
  `Incompatible.Report` keeps the dumped records as values.
- `_get_project_id_from_gcloud` (a shell call to `gcloud config list` and a regular
  expression): the project id it finds is a parameter of `Supported`.
- `pkg_resources.require('app2run')`: the version is a parameter of
  `RequiredFlags.Labels`.
- The file system. The Procfile is the `procfile` field of `Entrypoint.WorkDir`.
  `_generate_requirement_file` (requirements.txt) and
  `_print_default_entryoint_per_runtime` (console text only) are not modelled.
- YAML values other than integers, strings and mappings (lists, booleans, null,
  floats). The instance-class table keeps its cpu and memory figures as the strings
  Python prints for them.
- Value-limited features and `validate`: the rule table's `validate` is a parameter
  of `CloudSql`. The Cloud SQL rule is modelled standalone because `translate.py`
  never calls it.
- `get_feature_key_from_input`, `ENTRYPOINT_FEATURE_KEYS` and
  `RUNTIMES_WITH_PROCFILE_ENTRYPOINT` are imported from `app2run/common/util.py` but
  not defined there. The first is `Util.FeatureKeyFromInput`, following its use;
  the two lists are parameters.
- `timeout.py`, `cpu_memory.py` and `scaling.py` import
  `get_scaling_features_used` and `get_feature_list_by_input_type` under public
  names that are not defined. The model uses `Scaling.ScalingFeaturesUsed` and
  `Incompatible.ByPath`.
- Features.RangeLimitedList (with `Features.RangeLimitedKwargs` and
  `Features.FeatureConfig.constructor`): `RangeLimitFeature` declares only `range`
  beyond the fields of `UnsupportedFeature` (`feature_config_loader.py:41-45`), so a
  `flags` keyword raises `TypeError` and is refused, and a converted rule gets the empty
  flag list. The translation rules read `.flags` of range-limited rules, which such a
  rule does not have (Python would raise `AttributeError`); they take range-limited
  rules that carry flags as a parameter.
- Python exceptions: a missing rule, a value of the wrong type, or a key without a
  `.` where `split('.')[1]` is taken. Each `...Ready` predicate requires that they
  do not occur; the error paths are not modelled. Among them, a truthy entrypoint
  that is not a string, looked up with `in` in an existing Procfile, is excluded by
  `Entrypoint.ProcfileCheckReady`.
- Entrypoint.WorkDir.TranslateEntrypointFeatures (with `Entrypoint.EntrypointFlags`
  and `Entrypoint.ProcfileStep`): the `InputType` enum declares only `APP_YAML`
  (`feature_config_loader.py:18-20`, `list_incompatible_features.py:20-22`), so
  `input_type is InputType.ADMIN_API` at `entrypoint.py:35` raises `AttributeError` on
  every call, app.yaml input included. The model follows the two-variant design of the
  rules' `path` (`app_yaml` and `admin_api`): `Features.InputType` has an `AdminApi`
  variant, and both routes give flags and a Procfile step.
- Translate.CloudRunFlags: two calls in `translate.py` do not match their
  definitions. `translate_concurrent_requests_features` gets three arguments
  (`translate.py:36`) but takes two, the document and the range-limited table
  (`concurrent_requests.py:27-28`). `translate_supported_features` gets
  `input_type` where it takes the supported-feature table (`translate.py:40`,
  `supported_features.py:14`). The other rules are called as they are defined: the
  scaling rule gets the table `get_feature_config()` loads, and
  `translate_app_resources(input_data, input_type)` loads it itself
  (`cpu_memory.py:66`). The model calls each rule with the arguments it defines;
  the loaded table is a parameter, with the range-limited rules indexed by path.
- Translate.CloudRunFlags gives the concurrency rule the flattened document, as
  the rule's dotted keys need; the finding below shows what the nested document
  gives. The entrypoint rule is not part of the flag list, because
  `_get_cloud_run_flags` does not call it.
- StringRepr.StrRepr: Python escapes every character that Unicode does not class as
  printable. The model escapes control characters, U+007F to U+00A0, U+00AD, U+1680,
  U+2000 to U+200F, U+2028 to U+202F, U+205F to U+206F, U+3000 and U+FEFF. It keeps
  other non-printable characters as they are: the remaining format characters, private
  use, unassigned code points, and characters above U+FFFF that Python
  writes as `\Uhhhhhhhh`.
- Supported.DefaultServiceAccountFlags: the default account is quoted, as the
  code writes it (`test_translate.py` expects it unquoted).
- Environment variables are joined with `;` only. A `@`-delimiter fallback for
  values that contain `;` does not exist in the code.
- Incompatible.ListIncompatibleFeatures and `CheckForIncompatibility` model
  `_flatten_keys` in `list_incompatible_features.py` by `Util.Flatten`; the two
  definitions are identical.
- Supported.DefaultServiceAccountFlags states the value only in
  `Supported.DefaultServiceAccountExample`, for a one-flag rule.
- Entrypoint.ProcfileStep states only that a Procfile is written for Procfile
  runtimes. Which entrypoint is written is stated by
  `Entrypoint.WorkDir.GenerateEntrypointAppYaml` and `GenerateEntrypointAdminApi`.

## Findings

| source | as written | input that shows it | evidently intended | confidence | as-written member | corrected member |
|---|---|---|---|---|---|---|
| app2run/commands/translation_rules/concurrent_requests.py:32-46 | the rule looks up `automatic_scaling.target_concurrent_requests` as a key of the nested document, so a nested value is never found and the default is emitted | `env: flex` with `automatic_scaling: {target_concurrent_requests: 999}` and a rule maximum of 1000 gives `--concurrency=1000` | `--concurrency=999` (the expectation of `test_flex_target_concurrent_requests_specified_within_max_value`), from a lookup in the flattened document | not executed | `Concurrency.NestedTargetIgnored` | `Concurrency.NestedTarget` |
