/** The label schema as readers of the exported text see it: label names by metric name. */
module NamedSchema {
  import opened Paths
  import opened Metrics
  import opened MetricNames

  function LabelTexts(names: seq<LabelName>): seq<string> {
    seq(|names|, i requires 0 <= i < |names| => LabelText(names[i]))
  }

  // The label names of the samples exported under `name`, which must be a metric's.
  ghost function SchemaOf(name: string): seq<string>
    requires exists m :: Text(m) == name
  {
    var m :| Text(m) == name;
    LabelTexts(LabelNames(m))
  }

  /** The exported name of a metric fixes the exported names of its labels, which are distinct and start
  with those of the cluster's name and id. */
  lemma SchemaOfName(m: Metric)
    ensures SchemaOf(Text(m)) == LabelTexts(LabelNames(m))
    ensures NoDuplicates(SchemaOf(Text(m))) && SchemaOf(Text(m))[..2] == ["cluster", "cluster_id"]
  {
    forall n | Text(n) == Text(m) ensures n == m {
      TextIsInjective(n, m);
    }
    LabelNamesAreDistinct(m);
    var names := LabelNames(m);
    forall i, j | 0 <= i < j < |names| ensures LabelText(names[i]) != LabelText(names[j]) {
      if LabelText(names[i]) == LabelText(names[j]) {
        LabelTextIsInjective(names[i], names[j]);
      }
    }
  }
}
