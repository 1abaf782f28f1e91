/** The Cloud SQL translation rule
    (app2run/commands/translation_rules/cloud_sql_instances.py): the comma-separated
    `beta_settings.cloud_sql_instances` value is split into connection names, those
    the value-limited rule accepts are kept in order, and the kept ones are joined
    back into the value of the rule's flags.

    The rule's `validate` is not part of this model; it is a parameter. Like the
    concurrency rule, this one looks its dotted key up directly in the dictionary it
    is given. */
module CloudSql {
  import opened Dicts
  import opened Text
  import opened Values
  import opened Util

  /** `_ALLOW_CLOUD_SQL_INSTANCES_KEY` */
  const AllowCloudSqlInstancesKey := "beta_settings.cloud_sql_instances"

  /** A value-limited rule: its flags and the check each connection must pass. */
  datatype ValueLimitedFeature = ValueLimitedFeature(flags: seq<string>, validate: string -> bool)

  /** The connections that pass `validate`, in their original order. */
  function ValidConnections(connections: seq<string>, validate: string -> bool): (r: seq<string>)
    ensures |r| <= |connections|
    ensures forall c :: c in r <==> c in connections && validate(c)
    ensures (forall c :: c in connections ==> !validate(c)) ==> r == []
  {
    if connections == [] then []
    else
      var last := connections[|connections| - 1];
      var init := connections[..|connections| - 1];
      assert forall c :: c in connections <==> c in init || c == last by {
        assert connections == init + [last];
      }
      ValidConnections(init, validate) + (if validate(last) then [last] else [])
  }

  /** Filtering keeps the input order: the valid connections of two consecutive
      parts are those of the first part followed by those of the second. */
  lemma {:induction false} ValidConnectionsAppend(a: seq<string>, b: seq<string>, validate: string -> bool)
    ensures ValidConnections(a + b, validate) == ValidConnections(a, validate) + ValidConnections(b, validate)
    decreases |b|
  {
    if b == [] {
      assert a + b == a;
    } else {
      var init := b[..|b| - 1];
      var last := b[|b| - 1];
      AppendLast(a, b);
      ValidConnectionsAppend(a, init, validate);
      AppendAssoc(ValidConnections(a, validate), ValidConnections(init, validate),
                  if validate(last) then [last] else []);
    }
  }

  /** A single connection is kept exactly when it passes. */
  lemma ValidConnectionsSingle(c: string, validate: string -> bool)
    ensures ValidConnections([c], validate) == if validate(c) then [c] else []
  {
    assert [c][..0] == [];
  }

  /** When every connection passes, none is dropped. */
  lemma {:induction false} AllValidKept(connections: seq<string>, validate: string -> bool)
    requires forall i :: 0 <= i < |connections| ==> validate(connections[i])
    ensures ValidConnections(connections, validate) == connections
  {
    if connections != [] {
      var init := connections[..|connections| - 1];
      AllValidKept(init, validate);
      DropLast(connections);
    }
  }

  /** The document can be translated: the key, when present, holds a string and has a
      value-limited rule (Python raises `KeyError` or `AttributeError` otherwise). */
  predicate CloudSqlReady(input: Config, valueLimited: Dict<ValueLimitedFeature>)
  {
    HasKey(input, AllowCloudSqlInstancesKey) ==>
      Get(input, AllowCloudSqlInstancesKey).Str? && HasKey(valueLimited, AllowCloudSqlInstancesKey)
  }

  /** The connection names written in the document. */
  function InstanceConnections(input: Config): seq<string>
    requires HasKey(input, AllowCloudSqlInstancesKey) && Get(input, AllowCloudSqlInstancesKey).Str?
  {
    Split(Get(input, AllowCloudSqlInstancesKey).s, ',')
  }

  /** The flags `traqnslate_cloud_sql_instances_features` returns. */
  function CloudSqlFlags(input: Config, valueLimited: Dict<ValueLimitedFeature>): (r: seq<string>)
    requires CloudSqlReady(input, valueLimited)
    ensures !HasKey(input, AllowCloudSqlInstancesKey) ==> r == []
    ensures r == [] || (HasKey(input, AllowCloudSqlInstancesKey) &&
                        |r| == |Get(valueLimited, AllowCloudSqlInstancesKey).flags|)
    ensures HasKey(input, AllowCloudSqlInstancesKey) ==>
      var feature := Get(valueLimited, AllowCloudSqlInstancesKey);
      (r != [] <==> feature.flags != [] && exists c :: c in InstanceConnections(input) && feature.validate(c))
  {
    match FeatureKeyFromInput(input, [AllowCloudSqlInstancesKey])
    case None => []
    case Some(k) =>
      assert k == AllowCloudSqlInstancesKey;
      var feature := Get(valueLimited, k);
      var outputValues := ValidConnections(InstanceConnections(input), feature.validate);
      if |outputValues| > 0 then OutputFlags(feature.flags, JoinWith(",", outputValues)) else []
  }

  /** `traqnslate_cloud_sql_instances_features`: splits the value on `,`, keeps the
      connections that validate, and joins them into the rule's flags. */
  method TranslateCloudSqlInstances(inputData: Config, valueLimitedFeatures: Dict<ValueLimitedFeature>)
    returns (outputFlags: seq<string>)
    requires CloudSqlReady(inputData, valueLimitedFeatures)
    ensures outputFlags == CloudSqlFlags(inputData, valueLimitedFeatures)
  {
    var outputValues: seq<string> := [];
    outputFlags := [];
    var cloudSqlInstancesKeyFromInput := FeatureKeyFromInput(inputData, [AllowCloudSqlInstancesKey]);
    if cloudSqlInstancesKeyFromInput.Some? {
      var key := cloudSqlInstancesKeyFromInput.value;
      assert key == AllowCloudSqlInstancesKey;
      var feature := Get(valueLimitedFeatures, key);
      var instanceConnections := Split(Get(inputData, key).s, ',');
      for i := 0 to |instanceConnections|
        invariant outputValues == ValidConnections(instanceConnections[..i], feature.validate)
      {
        assert instanceConnections[..i + 1][..i] == instanceConnections[..i];
        if feature.validate(instanceConnections[i]) {
          outputValues := outputValues + [instanceConnections[i]];
        }
      }
      assert instanceConnections[..|instanceConnections|] == instanceConnections;
      if |outputValues| > 0 {
        outputFlags := outputFlags + OutputFlags(feature.flags, JoinWith(",", outputValues));
      }
    }
  }

  /** Every flag carries one value, and every connection named in it is one of the
      document's connections that passed `validate`. */
  lemma OutputValidated(input: Config, valueLimited: Dict<ValueLimitedFeature>)
    requires CloudSqlReady(input, valueLimited)
    ensures var r := CloudSqlFlags(input, valueLimited);
      r != [] ==>
        var feature := Get(valueLimited, AllowCloudSqlInstancesKey);
        exists v ::
          && r == OutputFlags(feature.flags, v)
          && Split(v, ',') == ValidConnections(InstanceConnections(input), feature.validate)
          && (forall c :: c in Split(v, ',') ==> c in InstanceConnections(input) && feature.validate(c))
  {
    var r := CloudSqlFlags(input, valueLimited);
    if r != [] {
      var feature := Get(valueLimited, AllowCloudSqlInstancesKey);
      var connections := InstanceConnections(input);
      var valid := ValidConnections(connections, feature.validate);
      assert forall i :: 0 <= i < |valid| ==> ',' !in valid[i] by {
        forall i | 0 <= i < |valid|
          ensures ',' !in valid[i]
        {
          assert valid[i] in connections;
        }
      }
      SplitJoin(valid, ',');
      var v := JoinWith(",", valid);
      assert r == OutputFlags(feature.flags, v);
    }
  }

  /** No connection passes: no flags. */
  lemma NoneValid(input: Config, valueLimited: Dict<ValueLimitedFeature>)
    requires CloudSqlReady(input, valueLimited) && HasKey(input, AllowCloudSqlInstancesKey)
    requires forall c :: c in InstanceConnections(input) ==> !Get(valueLimited, AllowCloudSqlInstancesKey).validate(c)
    ensures CloudSqlFlags(input, valueLimited) == []
  {
  }

  /** Every connection passes: the flags carry the document's value unchanged, since
      splitting and joining both use `,`. */
  lemma AllValid(input: Config, valueLimited: Dict<ValueLimitedFeature>)
    requires CloudSqlReady(input, valueLimited) && HasKey(input, AllowCloudSqlInstancesKey)
    requires forall c :: c in InstanceConnections(input) ==> Get(valueLimited, AllowCloudSqlInstancesKey).validate(c)
    ensures var feature := Get(valueLimited, AllowCloudSqlInstancesKey);
      CloudSqlFlags(input, valueLimited) == OutputFlags(feature.flags, Get(input, AllowCloudSqlInstancesKey).s)
  {
    var feature := Get(valueLimited, AllowCloudSqlInstancesKey);
    var connections := InstanceConnections(input);
    AllValidKept(connections, feature.validate);
    JoinSplit(Get(input, AllowCloudSqlInstancesKey).s, ',');
    assert "," == [','];
  }
}
