/** The flags every translation ends with
    (app2run/commands/translation_rules/required_flags.py): CPU always allocated,
    unauthenticated access, and labels naming the origin and the tool's version.
    The installed version, which the source looks up with `pkg_resources`, is a
    parameter. */
module RequiredFlags {
  import opened Text

  const MigratedFromLabel := "migrated-from=app-engine"
  const VersionLabelKey := "app2run-version="

  /** `_get_labels`: the origin label, then the version label with every `.` of the
      version replaced by `_`, joined by `,`. */
  function Labels(version: string): (r: string)
    ensures var head := MigratedFromLabel + "," + VersionLabelKey;
      && |r| == |head| + |version|
      && r[..|head|] == head
      && '.' !in r[|head|..]
      && forall i :: 0 <= i < |version| ==>
           r[|head| + i] == if version[i] == '.' then '_' else version[i]
  {
    var token := ReplaceChar(version, '.', '_');
    var labels := [MigratedFromLabel, VersionLabelKey + token];
    assert labels[1..] == [labels[1]];
    assert JoinWith(",", labels[1..]) == labels[1];
    var r := JoinWith(",", labels);
    assert r == MigratedFromLabel + "," + (VersionLabelKey + token);
    assert r == (MigratedFromLabel + "," + VersionLabelKey) + token;
    r
  }

  /** `translate_add_required_flags`: the same three flags, in this order, whatever
      the document. */
  function TranslateAddRequiredFlags(version: string): (r: seq<string>)
    ensures |r| == 3
    ensures r[0] == "--no-cpu-throttling" && r[1] == "--allow-unauthenticated"
    ensures StartsWith(r[2], "--labels=" + MigratedFromLabel + ",")
    ensures r[2] == "--labels=" + Labels(version)
  {
    var labels := Labels(version);
    assert labels[..|MigratedFromLabel| + 1] == MigratedFromLabel + ",";
    ["--no-cpu-throttling", "--allow-unauthenticated", "--labels=" + labels]
  }

  /** Version `0.1.2` is labelled `app2run-version=0_1_2`. */
  lemma VersionExample()
    ensures TranslateAddRequiredFlags("0.1.2")[2] == "--labels=" + MigratedFromLabel + "," + VersionLabelKey + "0_1_2"
  {
    var t := ReplaceChar("0.1.2", '.', '_');
    assert t == "0_1_2";
    var labels := [MigratedFromLabel, VersionLabelKey + t];
    assert labels[1..] == [labels[1]];
    assert Labels("0.1.2") == JoinWith(",", labels);
  }
}
