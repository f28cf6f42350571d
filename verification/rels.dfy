/**
 The slice of the optimizer's plan vocabulary the adapter touches: calling
 conventions, trait sets, clusters, table references and the plan nodes the
 adapter builds. The planner's search, cost model and rule matching are not
 modelled.
 */
module Rels {
  import opened Wrappers

  /** Calling conventions: `Csv` is CsvRel.CONVENTION, `Enumerable` is EnumerableConvention.INSTANCE. */
  datatype Convention = NoConvention | Csv | Enumerable | OtherConvention(name: string)

  /** A trait that is not a convention (a collation, say). */
  datatype Trait = Trait(name: string)

  /** A trait set: the convention slot plus every other trait. */
  datatype TraitSet = TraitSet(convention: Convention, others: seq<Trait>)

  /** RelTraitSet.contains for a convention: the convention slot holds it. */
  predicate Contains(traits: TraitSet, c: Convention)
  {
    traits.convention == c
  }

  /** RelTraitSet.replace for a convention: only the convention slot changes. */
  function Replace(traits: TraitSet, c: Convention): (r: TraitSet)
    ensures Contains(r, c)
    ensures r.others == traits.others
    ensures forall d :: Contains(r, d) <==> d == c
  {
    traits.(convention := c)
  }

  /** A planning cluster, reduced to the non-convention traits of its empty trait set. */
  datatype Cluster = Cluster(id: nat, emptyTraits: seq<Trait>)

  /** RelOptCluster.traitSetOf: the cluster's empty trait set with convention `c`. */
  function TraitSetOf(cluster: Cluster, c: Convention): (r: TraitSet)
    ensures Contains(r, c)
    ensures r.others == cluster.emptyTraits
  {
    TraitSet(c, cluster.emptyTraits)
  }

  /** A RelOptTable, identified by its qualified name. */
  datatype TableRef = TableRef(qualifiedName: seq<string>)

  /** A Java `Class<?>`, identified by its name. */
  datatype JavaClass = JavaClass(name: string)

  /** `Object[].class`, the element type of every CSV table. */
  const ObjectArray := JavaClass("java.lang.Object[]")

  /** The plan nodes the adapter builds or receives. */
  datatype RelNode =
      /** CsvTableAccessRel: the table reference lives in the node (TableAccessRelBase). */
    | CsvTableAccess(cluster: Cluster, traits: TraitSet, table: TableRef)
      /** JavaRules.EnumerableTableAccessRel; table and element type may be null. */
    | EnumerableTableAccess(cluster: Cluster, traits: TraitSet, accessTable: Option<TableRef>, elementType: Option<JavaClass>)
      /** Any other node of the plan graph, an AbstractConverter among them. */
    | OtherRel(kind: string, cluster: Cluster, traits: TraitSet)
}
