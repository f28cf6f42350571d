# CSV table adapter for the optiq planner — Dafny model

This project models the core of an adapter that lets the optiq cost-based
query planner treat a CSV file as a relational table:

- **Schema deduction** (`CsvTable.deduceRowType`): the header's tokens become an
  ordered list of (name, type) fields. Each token is split at its first `:`.
  A missing type tag, or one that `CsvFieldType.of` maps to `null`, gives String. The one-column `line`
  row type is the fallback when no name was produced. A caller-supplied
  field-type list gains one entry per token.
- **The table's field-type cache** (`CsvTable.getRowType`): a supplied row type
  short-circuits deduction. Only the first deduction fills the cache; later calls
  deduce again without touching it. Enumerators take a snapshot of the cache.
- **The access node's class-wide configuration** (`CsvTableAccessRel`): every
  constructor call overwrites the static `table` and `elementType`. `register`
  appends a converter rule built from whatever the statics hold at that moment,
  so the last constructed node wins.
- **The converter rule** (`CsvEnumerableConverterRule`): it is always
  guaranteed. `convert` declines (Java `null`) unless the input carries the CSV
  convention. Otherwise it builds an Enumerable table access over the rule's
  captured table and element type, with only the convention trait replaced.

Files and modules:

- `wrappers.dfy` (`Wrappers`): `Option`, standing for Java's nullable references.
- `field_types.dfy` (`FieldTypes`): the field-type vocabulary and the two type-factory calls.
- `rels.dfy` (`Rels`): conventions, trait sets as a convention slot plus other traits, clusters, plan nodes.
- `header.dfy` (`CsvHeader`): `deduceRowType`, as a functional definition
  (`Deduce`) and as the token loop of the source (`DeduceRowType`), proved equal.
- `csv_table.dfy` (`CsvTable`): the table state, `getRowType`, `getStatistic`,
  the enumerator snapshots and `toRel`.
- `converter_rule.dfy` (`CsvEnumerableConverterRule`): the rule.
- `access_rel.dfy` (`CsvTableAccessRel`): the statics, the planner's rule list, construction and registration.
- `capturing_access_rel.dfy` (`CapturingAccessRel`): the per-node capture the
  statics evidently stand in for (see Findings).

State is passed explicitly as values: the table record, the `Statics` record
and the `Planner` rule list go in and come out of each operation.

Abstract inputs:

- The header line reaches the model as `Option<seq<string>>`. `None` is the
  path on which an `IOException` is caught before any token is seen.
- `CsvFieldType.of` is a parameter `TagParser`, and its `null` result is `None`.
- `createJavaType(String.class)` and `CsvFieldType.toType` are the two fields of
  the parameter `TypeFactory`.
- `createStructType(Pair.zip(names, types))` is represented by the zipped field list itself.
- A `RelProtoDataType` is a function from type factories to row types.

A `null` from `CsvFieldType.of` gives a String column (CsvTable.java:156-157).
Whether `of` returns `null` or throws for an unknown tag is decided in
CsvFieldType.java, which is not part of this model.

## Model

| member | source | states |
|---|---|---|
| FieldTypes.RelTypeOf | src/main/java/net/hydromatic/optiq/impl/csv/CsvTable.java:155-160 | a column without a field type gets `createJavaType(String.class)`; one with a field type gets that type's `toType` |
| CsvHeader.IndexOf | src/main/java/net/hydromatic/optiq/impl/csv/CsvTable.java:146 | the position of the first `:` in the token, and -1 exactly when the token has no colon |
| CsvHeader.IndexOfAfterColonFreeName | src/main/java/net/hydromatic/optiq/impl/csv/CsvTable.java:146 | in `name:rest` with a colon-free name, the first colon is the one right after the name, whatever `rest` contains |
| CsvHeader.SplitToken | src/main/java/net/hydromatic/optiq/impl/csv/CsvTable.java:146-153 | a token without `:` is all name and has no tag; otherwise the name is colon-free and name, `:` and tag rebuild the token |
| CsvHeader.JoinSplitToken | src/main/java/net/hydromatic/optiq/impl/csv/CsvTable.java:146-153 | splitting loses nothing: the name and tag rebuild the original token |
| CsvHeader.SplitJoinToken | src/main/java/net/hydromatic/optiq/impl/csv/CsvTable.java:146-153 | a colon-free name and any tag, joined by `:`, split back into that same name and tag; later colons stay in the tag |
| CsvHeader.ColumnOf | src/main/java/net/hydromatic/optiq/impl/csv/CsvTable.java:144-154 | a token with no colon names a column with a null field type; a token with a colon gives a shorter, colon-free name |
| CsvHeader.ColumnOfTypedToken | src/main/java/net/hydromatic/optiq/impl/csv/CsvTable.java:146-150 | a token `name:tag` declares column `name` with field type `of(tag)`, the tag being the whole remainder |
| CsvHeader.SplitHeaderToken | src/main/java/net/hydromatic/optiq/impl/csv/CsvTable.java:144-154 | the loop body's index-and-substring split yields the same column as the colon split |
| CsvHeader.FieldOf | src/main/java/net/hydromatic/optiq/impl/csv/CsvTable.java:155-162 | a column's field keeps the column's name; its type is String when the column has no field type, and the field type's `toType` otherwise |
| CsvHeader.Deduce | src/main/java/net/hydromatic/optiq/impl/csv/CsvTable.java:127-183 | the row type has at least one field. With tokens it has one field per token, in order, with name and type (String when no field type) index-aligned. Otherwise it is exactly `line` of String. A supplied list gains exactly the tokens' field types, and nothing in the fallback. A null list stays null. |
| CsvHeader.CollectColumns | src/main/java/net/hydromatic/optiq/impl/csv/CsvTable.java:143-166 | the loop over the tokens yields one name and one type per token, in order, each the token's column; a supplied field-type list gains exactly the tokens' field types after its old entries; a null list stays null |
| CsvHeader.DeduceRowType | src/main/java/net/hydromatic/optiq/impl/csv/CsvTable.java:129-182 | the loop, the `line` fallback and the zip of names with types together compute exactly the deduction above |
| CsvHeader.DeducedRowTypeIgnoresCollection | src/main/java/net/hydromatic/optiq/impl/csv/CsvTable.java:155-165 | whether a field-type list is passed in never changes the deduced row type |
| CsvHeader.CollectedFieldTypesParallel | src/main/java/net/hydromatic/optiq/impl/csv/CsvTable.java:161-181 | from an empty list, the collected field types are index-aligned with the row type when the header produced names; in the fallback the list stays empty next to the one `line` column |
| CsvTable.NewTable | src/main/java/net/hydromatic/optiq/impl/csv/CsvTable.java:57-61 | a new table keeps its file and supplied row type and has nothing cached |
| CsvTable.GetRowType | src/main/java/net/hydromatic/optiq/impl/csv/CsvTable.java:67-77 | a supplied row type is returned and the table is unchanged. Otherwise the row type is the header's deduction. A call finding no cache fills it with the field types collected into a new empty list. A call finding a cache leaves the table unchanged. |
| CsvTable.CachedTableStable | src/main/java/net/hydromatic/optiq/impl/csv/CsvTable.java:71-76 | once the cache exists, no series of getRowType calls changes the table |
| CsvTable.ProtoTableStable | src/main/java/net/hydromatic/optiq/impl/csv/CsvTable.java:68-70 | with a supplied row type, no series of getRowType calls initialises the cache or changes the table |
| CsvTable.FirstDeductionFixesFieldTypes | src/main/java/net/hydromatic/optiq/impl/csv/CsvTable.java:71-76 | after any non-empty series of calls, the cache holds what the first call collected, whatever later headers say |
| CsvTable.GetStatistic | src/main/java/net/hydromatic/optiq/impl/csv/CsvTable.java:79-81 | the statistic never knows a row count |
| CsvTable.QueryableEnumerator | src/main/java/net/hydromatic/optiq/impl/csv/CsvTable.java:83-94 | the queryable's enumerator reads the table's file with a copy of the cached field types and no projection; the cache must exist |
| CsvTable.ProjectEnumerator | src/main/java/net/hydromatic/optiq/impl/csv/CsvTable.java:96-104 | a projected enumerator gets the table's file, a copy of the cached field types and the `fields` array unchanged; the cache must exist |
| CsvTable.EnumeratorsAgreeAcrossRowTypeCalls | src/main/java/net/hydromatic/optiq/impl/csv/CsvTable.java:83-104 | enumerators opened before and after any further getRowType calls are identical |
| CsvTable.EnumeratorAlignedWithRowType | src/main/java/net/hydromatic/optiq/impl/csv/CsvTable.java:67-94 | after the first getRowType on a new table, enumerator field types line up one-to-one with the row type; in the fallback they are empty against one column |
| CsvTable.FailedFirstReadMisaligns | src/main/java/net/hydromatic/optiq/impl/csv/CsvTable.java:71-76 | if the first request's read fails, the cache becomes the empty list and stays so; a later request reading a header of several tokens returns one column per token while enumerators get no field types |
| CsvTable.ToRel | src/main/java/net/hydromatic/optiq/impl/csv/CsvTable.java:106-123 | toRel builds a CSV-convention access node over the given table in the context's cluster, leaving that table and `Object[]` in the statics |
| CsvEnumerableConverterRule.NewRule | src/main/java/net/hydromatic/optiq/impl/csv/CsvEnumerableConverterRule.java:33-38 | the rule is configured with operand AbstractConverter, CSV in, Enumerable out and its fixed description, and keeps the table and element type it is given |
| CsvEnumerableConverterRule.IsGuaranteed | src/main/java/net/hydromatic/optiq/impl/csv/CsvEnumerableConverterRule.java:40-43 | every rule is guaranteed |
| CsvEnumerableConverterRule.Convert | src/main/java/net/hydromatic/optiq/impl/csv/CsvEnumerableConverterRule.java:45-65 | null exactly when the input's traits lack the CSV convention. Otherwise the result is an Enumerable table access in the input's cluster, with the input's other traits under the out-convention, over the rule's captured table and element type. |
| CsvEnumerableConverterRule.ConvertYieldsEnumerable | src/main/java/net/hydromatic/optiq/impl/csv/CsvEnumerableConverterRule.java:60-64 | a constructed rule turns a CSV node into one whose trait set is the input's with only the convention set to Enumerable |
| CsvEnumerableConverterRule.ConvertIgnoresInputTable | src/main/java/net/hydromatic/optiq/impl/csv/CsvEnumerableConverterRule.java:60-64 | two inputs with the same cluster and traits convert identically, whatever tables they hold |
| CsvEnumerableConverterRule.ConvertNotReapplicable | src/main/java/net/hydromatic/optiq/impl/csv/CsvEnumerableConverterRule.java:48-51 | a constructed rule declines its own output |
| CsvTableAccessRel.SetElementType | src/main/java/net/hydromatic/optiq/impl/csv/CsvTableAccessRel.java:63-65 | the static element type is overwritten and the static table kept |
| CsvTableAccessRel.SetTable | src/main/java/net/hydromatic/optiq/impl/csv/CsvTableAccessRel.java:67-69 | the static table is overwritten and the static element type kept |
| CsvTableAccessRel.NewAccessRel | src/main/java/net/hydromatic/optiq/impl/csv/CsvTableAccessRel.java:35-42 | a new node over the given table carries the cluster's CSV trait set, and the statics afterwards hold exactly its arguments, whatever they held before |
| CsvTableAccessRel.RegisterRules | src/main/java/net/hydromatic/optiq/impl/csv/CsvTableAccessRel.java:50-61 | exactly one rule is appended and every earlier rule kept; it converts CSV to Enumerable and captures the current statics |
| CsvTableAccessRel.Register | src/main/java/net/hydromatic/optiq/impl/csv/CsvTableAccessRel.java:44-48 | register appends exactly the one rule registerRules would, built from the statics and not from the registering node |
| CsvTableAccessRel.LastConstructedWins | src/main/java/net/hydromatic/optiq/impl/csv/CsvTableAccessRel.java:32-42 | after any non-empty series of constructions, the statics hold the last node's table and element type |
| CsvTableAccessRel.RegisterCapturesLaterNode | src/main/java/net/hydromatic/optiq/impl/csv/CsvTableAccessRel.java:32-61 | if node A is constructed, then node B, then A registers, A's rule captures B's table and element type |
| CsvTableAccessRel.RegisterCapturesLaterNodeExample | src/main/java/net/hydromatic/optiq/impl/csv/CsvTableAccessRel.java:32-61 | with two different tables, the rule A registers converts A into an access of B's table |

## Left out

- Opening the file, the `.gz` wrapping and opencsv tokenising are I/O and a foreign library. The header is an abstract input, and closing the reader in `finally` has no observable effect here.
- End of file on the first read (`readNext()` returning `null`) is not modelled. The loop would then throw a `NullPointerException`, which the `IOException` handler does not catch. So an empty file is not claimed to give the `line` fallback.
- CsvFieldType.java is not part of this model. Its `of` and `toType` are uninterpreted parameters, and the field-type vocabulary is only a closed list of names.
- The optimizer's type factory is not part of this model. `createJavaType(String.class)` is an uninterpreted parameter. `createStructType(Pair.zip(names, types))` is represented by the zipped field list itself, so the struct type's own construction is not modelled.
- CsvEnumerator.java is not part of this model. Row parsing, type conversion and projection are represented by the arguments an enumerator is created with. The linq4j `Queryable`/`Enumerable` wrappers are left out.
- CsvTable.GetRowType assumes a JavaTypeFactory: the ClassCastException from the cast at CsvTable.java:73/75 is not modelled. On a first call it would leave the same empty cache as a failed read (see Findings).
- A `null` cache when an enumerator is opened would be a `NullPointerException` in Java. It appears only as a precondition of `QueryableEnumerator` and `ProjectEnumerator`.
- A `null` `fields` array passed to `project` is not modelled: it is handled by CsvEnumerator.java.
- The planner's search, cost model, operand matching and trait-set internals are left out. Operand matching includes the planner's handling of several rules under one description. A trait set is a convention slot plus the other traits, and `contains` of a convention checks that slot.
- The side effects of the base class's `register` are left out.
- `toString` is left out.
- Thread safety of the statics and of the first cache fill is concurrency, and is left out.
- Commented-out debugging code is left out.

## Findings

| source | as written | input that shows it | evidently intended | confidence | as-written member | corrected member |
|---|---|---|---|---|---|---|
| src/main/java/net/hydromatic/optiq/impl/csv/CsvTableAccessRel.java:32-61 | The constructor stores its table and element type in static fields shared by every node. `registerRules` builds the rule from those statics. | Construct node A over `SALES.EMPS`, then node B over `SALES.DEPTS`, then register A. A's rule converts A's node into an access of `SALES.DEPTS`. | The rule a node registers captures that node's own table and element type. | medium; not executed | CsvTableAccessRel.RegisterCapturesLaterNodeExample | CapturingAccessRel.RegisterCapturingKeepsOwnTable |
| src/main/java/net/hydromatic/optiq/impl/csv/CsvTable.java:71-76 | The first `getRowType` call sets the cache to a new list, even when the read then fails and no field type is added. Later calls never fill it again. | The file cannot be read at the first `getRowType`, and later holds the header `a,b`. The second call returns two columns, while enumerators get an empty field-type list. | A failed read leaves the cache unset, so the next read that produces names fills it, in line with the row type it returns. Out of scope of the correction: every call re-reads the file (line 75), so a header that changes between successful reads (2 tokens, then 3) still gives a row type wider than the cache. | low; not executed | CsvTable.FailedFirstReadMisaligns | CsvTable.RetryingFillsAfterFailedRead |

The main model keeps the statics as written, because they are the adapter's actual behaviour.
`CapturingAccessRel` gives the corrected capture:

- `NewCapturingNode` keeps the table and element type in the node.
- `RegisterCapturing` appends a rule over them.
- `RegisterCapturingKeepsOwnTable` proves that this rule converts the node into an access of its own table.

The main model likewise keeps the cache as written. `CsvTable.GetRowTypeRetrying` gives the corrected cache:

- it fills the cache only from a deduction that produced names;
- `RetryingFillsAfterFailedRead` proves that after a failed first read, the next successful read fills a cache aligned with its row type;
- `RetryingCacheNeverEmpty` proves that over any series of requests the cache, once set, is never the empty list.
