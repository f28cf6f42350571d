/**
 CsvEnumerableConverterRule: rewrites a node in the CSV convention into an
 EnumerableTableAccessRel over the table and element type the rule captured
 when it was constructed.
 */
module CsvEnumerableConverterRule {
  import opened Wrappers
  import opened Rels

  /** The class of node the rule's operand matches. */
  datatype OperandClass = AbstractConverterClass | OtherClass(name: string)

  /** A constructed rule: the ConverterRule configuration plus the two captured fields. */
  datatype ConverterRule = ConverterRule(
    operand: OperandClass,
    inConvention: Convention,
    outConvention: Convention,
    description: string,
    table: Option<TableRef>,
    elementType: Option<JavaClass>)

  /** The description every such rule is registered under. */
  const Description := "Convert CSV rels to Enumerable"

  /** The constructor: AbstractConverter operand, CSV in, Enumerable out, the arguments captured as given. */
  function NewRule(table: Option<TableRef>, elementType: Option<JavaClass>): (r: ConverterRule)
    ensures r.operand == AbstractConverterClass
    ensures r.inConvention == Csv && r.outConvention == Enumerable
    ensures r.description == Description
    ensures r.table == table && r.elementType == elementType
  {
    ConverterRule(AbstractConverterClass, Csv, Enumerable, Description, table, elementType)
  }

  /** The rule declares itself guaranteed, whatever it captured. */
  function IsGuaranteed(r: ConverterRule): (b: bool)
    ensures b
  {
    true
  }

  /**
   convert: no result (Java's `null`) exactly when the input's trait set lacks the
   CSV convention; otherwise an Enumerable table access in the input's cluster,
   with the input's traits under the out-convention, over the captured table and
   element type.
   */
  function Convert(r: ConverterRule, rel: RelNode): (result: Option<RelNode>)
    ensures result.None? <==> !Contains(rel.traits, Csv)
    ensures result.Some? ==>
              && result.value.EnumerableTableAccess?
              && result.value.cluster == rel.cluster
              && Contains(result.value.traits, r.outConvention)
              && result.value.traits.others == rel.traits.others
              && result.value.accessTable == r.table
              && result.value.elementType == r.elementType
  {
    if !Contains(rel.traits, Csv) then None
    else Some(EnumerableTableAccess(rel.cluster, Replace(rel.traits, r.outConvention), r.table, r.elementType))
  }

  /** A constructed rule turns a CSV node into an Enumerable one and touches no other trait. */
  lemma ConvertYieldsEnumerable(table: Option<TableRef>, elementType: Option<JavaClass>, rel: RelNode)
    requires Contains(rel.traits, Csv)
    ensures var result := Convert(NewRule(table, elementType), rel);
            && result.Some?
            && result.value.traits == rel.traits.(convention := Enumerable)
            && !Contains(result.value.traits, Csv)
  {
  }

  /** The result depends on the input only through its cluster and traits: its own table is never read. */
  lemma ConvertIgnoresInputTable(r: ConverterRule, a: RelNode, b: RelNode)
    requires a.cluster == b.cluster && a.traits == b.traits
    ensures Convert(r, a) == Convert(r, b)
  {
  }

  /** A constructed rule does not apply to its own output: conversion never goes back. */
  lemma ConvertNotReapplicable(table: Option<TableRef>, elementType: Option<JavaClass>, rel: RelNode)
    requires Contains(rel.traits, Csv)
    ensures var r := NewRule(table, elementType);
            Convert(r, rel).Some? && Convert(r, Convert(r, rel).value).None?
  {
  }
}
