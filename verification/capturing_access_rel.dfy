/**
 The access node with its configuration captured per instance: each node keeps
 its own table and element type, and the rule it registers closes over exactly
 those. This is the corrected counterpart of the class-wide statics of
 CsvTableAccessRel.
 */
module CapturingAccessRel {
  import opened Wrappers
  import opened Rels
  import opened CsvEnumerableConverterRule
  import opened CsvTableAccessRel

  /** A CSV access node that owns its element type alongside its table. */
  datatype CapturingNode = CapturingNode(cluster: Cluster, traits: TraitSet, table: TableRef, elementType: JavaClass)

  /** Construction: the node in the cluster's CSV trait set, nothing shared written. */
  function NewCapturingNode(cluster: Cluster, table: TableRef, elementType: JavaClass): (n: CapturingNode)
    ensures Contains(n.traits, Csv) && n.traits.others == cluster.emptyTraits
    ensures n.cluster == cluster && n.table == table && n.elementType == elementType
  {
    CapturingNode(cluster, TraitSetOf(cluster, Csv), table, elementType)
  }

  /** The plan node as the planner sees it. */
  function AsRel(n: CapturingNode): RelNode
  {
    CsvTableAccess(n.cluster, n.traits, n.table)
  }

  /** Registration: appends one converter rule over the registering node's own table and element type. */
  function RegisterCapturing(planner: Planner, n: CapturingNode): (p: Planner)
    ensures |p.rules| == |planner.rules| + 1
    ensures p.rules[..|planner.rules|] == planner.rules
    ensures p.rules[|planner.rules|] == CsvConverter(NewRule(Some(n.table), Some(n.elementType)))
  {
    Planner(planner.rules + [CsvConverter(NewRule(Some(n.table), Some(n.elementType)))])
  }

  /**
   The rule a node registers converts that node into an Enumerable access of its
   own table and element type; no other construction can reach it.
   */
  lemma RegisterCapturingKeepsOwnTable(planner: Planner, a: NodeArgs)
    ensures var na := NewCapturingNode(a.cluster, a.table, a.elementType);
            var p := RegisterCapturing(planner, na);
            var rule := p.rules[|planner.rules|].rule;
            Convert(rule, AsRel(na))
                 == Some(EnumerableTableAccess(a.cluster, TraitSet(Enumerable, a.cluster.emptyTraits), Some(a.table), Some(a.elementType)))
  {
  }
}
