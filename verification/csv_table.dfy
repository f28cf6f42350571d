/**
 CsvTable: the table descriptor. It caches the column field types the first time
 its row type is deduced, hands snapshots of them to the enumerators it creates,
 and turns itself into a CSV table access node for the planner.
 */
module CsvTable {
  import opened Wrappers
  import opened FieldTypes
  import opened CsvHeader
  import opened Rels
  import opened CsvTableAccessRel

  /** The CSV file a table reads. */
  datatype FileRef = FileRef(path: string)

  /** A RelProtoDataType: a row type given in advance, to be applied to a type factory. */
  type ProtoRowType<!T> = TypeFactory<T> -> RowType<T>

  /**
   The table's state: its file, the optional supplied row type, and the cached
   field-type list, `None` until the first deduction.
   */
  datatype Table<!T> = Table(file: FileRef, protoRowType: Option<ProtoRowType<T>>, fieldTypes: Option<seq<Option<FieldType>>>)

  /** The constructor: nothing is cached yet. */
  function NewTable<T>(file: FileRef, protoRowType: Option<ProtoRowType<T>>): (t: Table<T>)
    ensures t.file == file && t.protoRowType == protoRowType
    ensures t.fieldTypes.None?
  {
    Table(file, protoRowType, None)
  }

  /** The element type every CsvTable declares to its base class. */
  const ElementType := ObjectArray

  /** A row-type request: the table afterwards and the row type returned. */
  datatype RowTypeCall<!T> = RowTypeCall(table: Table<T>, rowType: RowType<T>)

  /**
   getRowType, reading `header` from the file when it deduces. A supplied row type
   short-circuits everything; otherwise the row type is deduced on every call, but
   only a call that finds no cached list collects the field types (into a new empty
   list); every later call passes no list, so the cache never changes.
   */
  function GetRowType<T>(t: Table<T>, tf: TypeFactory<T>, of: TagParser, header: Option<seq<string>>): (r: RowTypeCall<T>)
    ensures t.protoRowType.Some? ==> r.rowType == t.protoRowType.value(tf) && r.table == t
    ensures t.protoRowType.None? ==> r.rowType == Deduce(header, None, of, tf).rowType
    ensures t.protoRowType.None? && t.fieldTypes.None? ==>
              r.table == t.(fieldTypes := Deduce(header, Some([]), of, tf).fieldTypes)
    ensures t.fieldTypes.Some? ==> r.table == t
  {
    if t.protoRowType.Some? then
      RowTypeCall(t, t.protoRowType.value(tf))
    else if t.fieldTypes.None? then
      var d := Deduce(header, Some([]), of, tf);
      RowTypeCall(t.(fieldTypes := d.fieldTypes), d.rowType)
    else
      RowTypeCall(t, Deduce(header, None, of, tf).rowType)
  }

  /** The table after a series of getRowType calls, the k-th reading `headers[k]`. */
  function RowTypeCalls<T>(t: Table<T>, tf: TypeFactory<T>, of: TagParser, headers: seq<Option<seq<string>>>): Table<T>
    decreases |headers|
  {
    if |headers| == 0 then t
    else RowTypeCalls(GetRowType(t, tf, of, headers[0]).table, tf, of, headers[1..])
  }

  /** Once the field-type list is cached, no series of getRowType calls changes the table. */
  lemma {:induction false} CachedTableStable<T>(t: Table<T>, tf: TypeFactory<T>, of: TagParser, headers: seq<Option<seq<string>>>)
    requires t.fieldTypes.Some?
    ensures RowTypeCalls(t, tf, of, headers) == t
    decreases |headers|
  {
    if |headers| > 0 {
      CachedTableStable(GetRowType(t, tf, of, headers[0]).table, tf, of, headers[1..]);
    }
  }

  /** With a supplied row type the field-type list is never initialised, however often the row type is asked for. */
  lemma {:induction false} ProtoTableStable<T>(t: Table<T>, tf: TypeFactory<T>, of: TagParser, headers: seq<Option<seq<string>>>)
    requires t.protoRowType.Some?
    ensures RowTypeCalls(t, tf, of, headers) == t
    decreases |headers|
  {
    if |headers| > 0 {
      ProtoTableStable(GetRowType(t, tf, of, headers[0]).table, tf, of, headers[1..]);
    }
  }

  /**
   For a table without a supplied row type, the cached field types after any
   non-empty series of calls are those collected by the first call alone.
   */
  lemma FirstDeductionFixesFieldTypes<T>(t: Table<T>, tf: TypeFactory<T>, of: TagParser, headers: seq<Option<seq<string>>>)
    requires t.protoRowType.None? && t.fieldTypes.None?
    requires |headers| > 0
    ensures RowTypeCalls(t, tf, of, headers).fieldTypes == Deduce(headers[0], Some([]), of, tf).fieldTypes
  {
    var t1 := GetRowType(t, tf, of, headers[0]).table;
    CachedTableStable(t1, tf, of, headers[1..]);
  }

  /** A statistic as the planner sees it; `rowCount` is `None` when unknown. */
  datatype Statistic = Statistic(rowCount: Option<nat>)

  /** Statistics.UNKNOWN. */
  const Unknown := Statistic(None)

  /** getStatistic: nothing is ever known about a CSV table. */
  function GetStatistic<T>(t: Table<T>): (s: Statistic)
    ensures s.rowCount.None?
  {
    Unknown
  }

  /**
   The arguments of a CsvEnumerator: the file, the field types copied out of the
   cache, and the projected field indices (`None` for the constructor without them).
   */
  datatype CsvEnumerator = CsvEnumerator(file: FileRef, fieldTypes: seq<Option<FieldType>>, fields: Option<seq<int>>)

  /** The enumerator asQueryable's queryable opens; the cache must exist, or Java would dereference null. */
  function QueryableEnumerator<T>(t: Table<T>): (e: CsvEnumerator)
    requires t.fieldTypes.Some?
    ensures e.file == t.file && e.fieldTypes == t.fieldTypes.value && e.fields.None?
  {
    CsvEnumerator(t.file, t.fieldTypes.value, None)
  }

  /** The enumerator project(fields) opens: the projection is passed through unchanged. */
  function ProjectEnumerator<T>(t: Table<T>, fields: seq<int>): (e: CsvEnumerator)
    requires t.fieldTypes.Some?
    ensures e.file == t.file && e.fieldTypes == t.fieldTypes.value && e.fields == Some(fields)
  {
    CsvEnumerator(t.file, t.fieldTypes.value, Some(fields))
  }

  /** Enumerators opened before and after any further getRowType calls read the same file with the same field types. */
  lemma EnumeratorsAgreeAcrossRowTypeCalls<T>(t: Table<T>, tf: TypeFactory<T>, of: TagParser,
                                              headers: seq<Option<seq<string>>>, fields: seq<int>)
    requires t.fieldTypes.Some?
    ensures var t' := RowTypeCalls(t, tf, of, headers);
            && t'.fieldTypes.Some?
            && QueryableEnumerator(t') == QueryableEnumerator(t)
            && ProjectEnumerator(t', fields) == ProjectEnumerator(t, fields)
  {
    CachedTableStable(t, tf, of, headers);
  }

  /**
   After the first row-type request on a new table, an enumerator's field types
   line up with the row type when the header produced names; in the fallback it
   gets no field type for the one `line` column.
   */
  lemma EnumeratorAlignedWithRowType<T>(file: FileRef, tf: TypeFactory<T>, of: TagParser, header: Option<seq<string>>)
    ensures var r := GetRowType(NewTable(file, None), tf, of, header);
            && r.table.fieldTypes.Some?
            && var e := QueryableEnumerator(r.table);
               && (ProducesNames(header) ==>
                     && |e.fieldTypes| == |r.rowType|
                     && forall i :: 0 <= i < |r.rowType| ==> r.rowType[i].relType == RelTypeOf(e.fieldTypes[i], tf))
               && (!ProducesNames(header) ==> |r.rowType| == 1 && e.fieldTypes == [])
  {
    CollectedFieldTypesParallel(header, of, tf);
  }

  /**
   A first request whose read fails caches an empty list for good: a later request
   that reads a header of several columns returns them all, while enumerators
   still get no field type at all.
   */
  lemma FailedFirstReadMisaligns<T>(file: FileRef, tf: TypeFactory<T>, of: TagParser, tokens: seq<string>)
    requires |tokens| > 0
    ensures var t1 := GetRowType(NewTable(file, None), tf, of, None).table;
            var r2 := GetRowType(t1, tf, of, Some(tokens));
            && t1.fieldTypes == Some([])
            && r2.table == t1
            && |r2.rowType| == |tokens|
            && QueryableEnumerator(r2.table).fieldTypes == []
  {
    var t1 := GetRowType(NewTable(file, None), tf, of, None).table;
    assert Deduce(None, Some([]), of, tf).fieldTypes == Some([]);
    assert ProducesNames(Some(tokens));
  }

  /**
   getRowType with a cache that is filled only by a deduction that produced
   names: a failed read leaves the cache unset, so the next successful read fills it.
   */
  function GetRowTypeRetrying<T>(t: Table<T>, tf: TypeFactory<T>, of: TagParser, header: Option<seq<string>>): (r: RowTypeCall<T>)
    ensures t.protoRowType.Some? ==> r.rowType == t.protoRowType.value(tf) && r.table == t
    ensures t.protoRowType.None? ==> r.rowType == Deduce(header, None, of, tf).rowType
    ensures t.protoRowType.None? && t.fieldTypes.None? && ProducesNames(header) ==>
              r.table == t.(fieldTypes := Deduce(header, Some([]), of, tf).fieldTypes)
    ensures t.fieldTypes.Some? || !ProducesNames(header) ==> r.table == t
  {
    if t.protoRowType.Some? then
      RowTypeCall(t, t.protoRowType.value(tf))
    else if t.fieldTypes.None? && ProducesNames(header) then
      var d := Deduce(header, Some([]), of, tf);
      RowTypeCall(t.(fieldTypes := d.fieldTypes), d.rowType)
    else
      RowTypeCall(t, Deduce(header, None, of, tf).rowType)
  }

  /** The table after a series of retrying row-type requests, the k-th reading `headers[k]`. */
  function RetryingCalls<T>(t: Table<T>, tf: TypeFactory<T>, of: TagParser, headers: seq<Option<seq<string>>>): Table<T>
    decreases |headers|
  {
    if |headers| == 0 then t
    else RetryingCalls(GetRowTypeRetrying(t, tf, of, headers[0]).table, tf, of, headers[1..])
  }

  /** With retrying requests the cache, once set, is never the empty list, whatever reads failed. */
  lemma {:induction false} RetryingCacheNeverEmpty<T>(t: Table<T>, tf: TypeFactory<T>, of: TagParser, headers: seq<Option<seq<string>>>)
    requires t.fieldTypes.None? || |t.fieldTypes.value| > 0
    ensures var t' := RetryingCalls(t, tf, of, headers);
            t'.fieldTypes.None? || |t'.fieldTypes.value| > 0
    decreases |headers|
  {
    if |headers| > 0 {
      var t1 := GetRowTypeRetrying(t, tf, of, headers[0]).table;
      if t.protoRowType.None? && t.fieldTypes.None? && ProducesNames(headers[0]) {
        assert |t1.fieldTypes.value| == |headers[0].value|;
      }
      RetryingCacheNeverEmpty(t1, tf, of, headers[1..]);
    }
  }

  /** After a failed first read, the next read that produces names fills a cache aligned with its row type. */
  lemma RetryingFillsAfterFailedRead<T>(file: FileRef, tf: TypeFactory<T>, of: TagParser, tokens: seq<string>)
    requires |tokens| > 0
    ensures var t1 := GetRowTypeRetrying(NewTable(file, None), tf, of, None).table;
            var r2 := GetRowTypeRetrying(t1, tf, of, Some(tokens));
            && t1.fieldTypes.None?
            && r2.table.fieldTypes.Some?
            && var e := QueryableEnumerator(r2.table);
               && |e.fieldTypes| == |r2.rowType| == |tokens|
               && forall i :: 0 <= i < |r2.rowType| ==> r2.rowType[i].relType == RelTypeOf(e.fieldTypes[i], tf)
  {
    assert ProducesNames(Some(tokens));
    CollectedFieldTypesParallel(Some(tokens), of, tf);
  }

  /**
   toRel: a new CSV table access node in the cluster's CSV trait set over the given
   table, whose construction leaves that table and `Object[]` in the statics.
   */
  function ToRel<T>(t: Table<T>, g: Statics, cluster: Cluster, relOptTable: TableRef): (c: Construction)
    ensures c.node == CsvTableAccess(cluster, TraitSetOf(cluster, Csv), relOptTable)
    ensures c.statics == Statics(Some(relOptTable), Some(ObjectArray))
  {
    NewAccessRel(g, cluster, relOptTable, ElementType)
  }
}
