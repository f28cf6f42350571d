/**
 CsvTableAccessRel: the CSV-convention table access node. Its constructor writes
 the class-wide static `table` and `elementType`; registering any node adds a
 converter rule built from whatever those statics hold at that moment.
 */
module CsvTableAccessRel {
  import opened Wrappers
  import opened Rels
  import opened CsvEnumerableConverterRule

  /** The two static fields shared by every instance; both start out `null`. */
  datatype Statics = Statics(table: Option<TableRef>, elementType: Option<JavaClass>)

  /** The statics before any node has been constructed. */
  const InitialStatics := Statics(None, None)

  /** A rule in the planner: one of this adapter's converter rules, or anyone else's. */
  datatype PlannerRule = CsvConverter(rule: ConverterRule) | ForeignRule(description: string)

  /** The planner, reduced to the rules added to it, in order. */
  datatype Planner = Planner(rules: seq<PlannerRule>)

  /** A constructed node together with the statics it leaves behind. */
  datatype Construction = Construction(statics: Statics, node: RelNode)

  /** setElementType: overwrites the static element type, whichever instance it is called on. */
  function SetElementType(g: Statics, elementType: JavaClass): (g': Statics)
    ensures g'.elementType == Some(elementType) && g'.table == g.table
  {
    g.(elementType := Some(elementType))
  }

  /** setTable: overwrites the static table, whichever instance it is called on. */
  function SetTable(g: Statics, table: TableRef): (g': Statics)
    ensures g'.table == Some(table) && g'.elementType == g.elementType
  {
    g.(table := Some(table))
  }

  /**
   The constructor: a node in the CSV convention of its cluster over `table`, and
   statics that now hold exactly this node's arguments, the earlier ones forgotten.
   */
  function NewAccessRel(g: Statics, cluster: Cluster, table: TableRef, elementType: JavaClass): (c: Construction)
    ensures c.node == CsvTableAccess(cluster, TraitSetOf(cluster, Csv), table)
    ensures c.statics == Statics(Some(table), Some(elementType))
  {
    Construction(SetTable(SetElementType(g, elementType), table), CsvTableAccess(cluster, TraitSetOf(cluster, Csv), table))
  }

  /** registerRules: appends exactly one converter rule, built from the current statics, and keeps every earlier rule. */
  function RegisterRules(g: Statics, planner: Planner): (p: Planner)
    ensures |p.rules| == |planner.rules| + 1
    ensures p.rules[..|planner.rules|] == planner.rules
    ensures p.rules[|planner.rules|].CsvConverter?
    ensures p.rules[|planner.rules|].rule.table == g.table
    ensures p.rules[|planner.rules|].rule.elementType == g.elementType
    ensures p.rules[|planner.rules|].rule.inConvention == Csv
    ensures p.rules[|planner.rules|].rule.outConvention == Enumerable
  {
    Planner(planner.rules + [CsvConverter(NewRule(g.table, g.elementType))])
  }

  /**
   register: the base registration (not modelled) followed by registerRules. The
   node registering plays no part in the rule it adds.
   */
  function Register(g: Statics, planner: Planner, node: RelNode): (p: Planner)
    ensures |p.rules| == |planner.rules| + 1
    ensures p.rules[..|planner.rules|] == planner.rules
    ensures p.rules[|planner.rules|] == CsvConverter(NewRule(g.table, g.elementType))
  {
    RegisterRules(g, planner)
  }

  /** The arguments of one constructor call. */
  datatype NodeArgs = NodeArgs(cluster: Cluster, table: TableRef, elementType: JavaClass)

  /** The statics after constructing one node per argument tuple, in order. */
  function ConstructAll(g: Statics, args: seq<NodeArgs>): Statics
    decreases |args|
  {
    if |args| == 0 then g
    else ConstructAll(NewAccessRel(g, args[0].cluster, args[0].table, args[0].elementType).statics, args[1..])
  }

  /** Last constructed node wins: after any non-empty series of constructions the statics hold the last one's arguments. */
  lemma {:induction false} LastConstructedWins(g: Statics, args: seq<NodeArgs>)
    requires |args| > 0
    ensures ConstructAll(g, args) == Statics(Some(args[|args| - 1].table), Some(args[|args| - 1].elementType))
    decreases |args|
  {
    if |args| > 1 {
      LastConstructedWins(NewAccessRel(g, args[0].cluster, args[0].table, args[0].elementType).statics, args[1..]);
      assert args[1..][|args[1..]| - 1] == args[|args| - 1];
    }
  }

  /**
   Node A is constructed, then node B, then A registers: the rule A adds captures
   B's table and element type, not A's own.
   */
  lemma RegisterCapturesLaterNode(g: Statics, planner: Planner, a: NodeArgs, b: NodeArgs)
    ensures var ca := NewAccessRel(g, a.cluster, a.table, a.elementType);
            var cb := NewAccessRel(ca.statics, b.cluster, b.table, b.elementType);
            var p := Register(cb.statics, planner, ca.node);
            && p.rules[|planner.rules|].rule.table == Some(b.table)
            && p.rules[|planner.rules|].rule.elementType == Some(b.elementType)
  {
  }

  /** A concrete instance: two different tables, and A's rule converts into an access of B's table. */
  lemma RegisterCapturesLaterNodeExample()
    ensures var cluster := Cluster(0, []);
            var tA := TableRef(["SALES", "EMPS"]);
            var tB := TableRef(["SALES", "DEPTS"]);
            var ca := NewAccessRel(InitialStatics, cluster, tA, ObjectArray);
            var cb := NewAccessRel(ca.statics, cluster, tB, ObjectArray);
            var p := Register(cb.statics, Planner([]), ca.node);
            && p.rules[0].CsvConverter?
            && Convert(p.rules[0].rule, ca.node) == Some(EnumerableTableAccess(cluster, TraitSet(Enumerable, []), Some(tB), Some(ObjectArray)))
            && ca.node.table != tB
  {
  }
}
