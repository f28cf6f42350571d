/**
 Schema deduction from a CSV header line (CsvTable.deduceRowType).

 Opening the file, gzip unwrapping and tokenising are not modelled: the header
 reaches the model as `Option<seq<string>>`, where `None` is the path on which
 an IOException was caught before any token was seen.
 */
module CsvHeader {
  import opened Wrappers
  import opened FieldTypes

  /** String.indexOf(char): the first position of `c` in `s`, or -1 when there is none. */
  function IndexOf(s: string, c: char): (r: int)
    ensures r == -1 <==> c !in s
    ensures -1 <= r < |s|
    ensures 0 <= r ==> s[r] == c && c !in s[..r]
  {
    if |s| == 0 then -1
    else if s[0] == c then 0
    else
      var k := IndexOf(s[1..], c);
      if k == -1 then -1
      else
        assert s[..k + 1] == [s[0]] + s[1..][..k];
        k + 1
  }

  /** A header token cut at its first colon: the name, and the type tag when there was a colon. */
  datatype TokenParts = TokenParts(name: string, typeTag: Option<string>)

  /** The split deduceRowType performs on one token: at the first `:`, the tag being everything after it. */
  function SplitToken(token: string): (p: TokenParts)
    ensures p.typeTag.None? <==> ':' !in token
    ensures p.typeTag.None? ==> p.name == token
    ensures p.typeTag.Some? ==> ':' !in p.name && token == p.name + [':'] + p.typeTag.value
  {
    var colon := IndexOf(token, ':');
    if colon >= 0 then
      assert token == token[..colon] + [':'] + token[colon + 1..];
      TokenParts(token[..colon], Some(token[colon + 1..]))
    else
      TokenParts(token, None)
  }

  /** The header token that declares `p`: `name` alone, or `name:tag`. */
  function JoinToken(p: TokenParts): string
  {
    match p.typeTag
    case None => p.name
    case Some(tag) => p.name + [':'] + tag
  }

  /** The first colon of `name:rest` is the one after `name` when `name` has none, whatever `rest` holds. */
  lemma {:induction false} IndexOfAfterColonFreeName(name: string, rest: string)
    requires ':' !in name
    ensures IndexOf(name + [':'] + rest, ':') == |name|
  {
    if |name| > 0 {
      IndexOfAfterColonFreeName(name[1..], rest);
      assert (name + [':'] + rest)[1..] == name[1..] + [':'] + rest;
    }
  }

  /** Splitting a token rebuilds it exactly. */
  lemma JoinSplitToken(token: string)
    ensures JoinToken(SplitToken(token)) == token
  {
  }

  /** Splitting the token built from a colon-free name gives back the name and the tag, later colons staying in the tag. */
  lemma SplitJoinToken(p: TokenParts)
    requires ':' !in p.name
    ensures SplitToken(JoinToken(p)) == p
  {
    if p.typeTag.Some? {
      var token := JoinToken(p);
      IndexOfAfterColonFreeName(p.name, p.typeTag.value);
      assert token[..|p.name|] == p.name;
      assert token[|p.name| + 1..] == p.typeTag.value;
    }
  }

  /** One column as the header declares it: its name and its field type, `None` when there is none. */
  datatype HeaderColumn = HeaderColumn(name: string, fieldType: Option<FieldType>)

  /** The column a header token declares: an absent tag gives no field type, a present one goes to `of`. */
  function ColumnOf(token: string, of: TagParser): (c: HeaderColumn)
    ensures ':' !in token ==> c == HeaderColumn(token, None)
    ensures ':' in token ==> ':' !in c.name && |c.name| < |token|
  {
    var p := SplitToken(token);
    match p.typeTag
    case None => HeaderColumn(p.name, None)
    case Some(tag) => HeaderColumn(p.name, of(tag))
  }

  /** A token `name:tag` with a colon-free name declares `name` with `of(tag)`, colons inside `tag` included. */
  lemma ColumnOfTypedToken(name: string, tag: string, of: TagParser)
    requires ':' !in name
    ensures ColumnOf(name + [':'] + tag, of) == HeaderColumn(name, of(tag))
  {
    SplitJoinToken(TokenParts(name, Some(tag)));
  }

  /** The field of the row type a header column contributes. */
  function FieldOf<T>(c: HeaderColumn, tf: TypeFactory<T>): (f: Field<T>)
    ensures f.name == c.name
    ensures c.fieldType.None? ==> f.relType == tf.javaString
    ensures c.fieldType.Some? ==> f.relType == tf.toType(c.fieldType.value)
  {
    Field(c.name, RelTypeOf(c.fieldType, tf))
  }

  /** The field types the tokens declare, one per token, in order. */
  function ColumnFieldTypes(tokens: seq<string>, of: TagParser): seq<Option<FieldType>>
  {
    seq(|tokens|, i requires 0 <= i < |tokens| => ColumnOf(tokens[i], of).fieldType)
  }

  /** The name of the single column of the fallback row type. */
  const FallbackName := "line"

  /** The header produced at least one name: it was read and had at least one token. */
  predicate ProducesNames(header: Option<seq<string>>)
  {
    header.Some? && |header.value| > 0
  }

  /**
   The outcome of deduceRowType: the struct's fields, and the caller's field-type
   list afterwards (`None` when the caller passed `null`).
   */
  datatype Deduction<T> = Deduction(rowType: RowType<T>, fieldTypes: Option<seq<Option<FieldType>>>)

  /**
   deduceRowType as a function of the header read: one field per token in token
   order, or the single String column `line` when no name was produced; a supplied
   field-type list gains the tokens' field types, one per token and nothing in the fallback.
   */
  function Deduce<T>(header: Option<seq<string>>, fieldTypes: Option<seq<Option<FieldType>>>,
                     of: TagParser, tf: TypeFactory<T>): (d: Deduction<T>)
    ensures |d.rowType| >= 1
    ensures ProducesNames(header) ==>
              && |d.rowType| == |header.value|
              && forall i :: 0 <= i < |header.value| ==>
                   d.rowType[i] == FieldOf(ColumnOf(header.value[i], of), tf)
    ensures !ProducesNames(header) ==> d.rowType == [Field(FallbackName, tf.javaString)]
    ensures d.fieldTypes.None? <==> fieldTypes.None?
    ensures fieldTypes.Some? && ProducesNames(header) ==>
              && |d.fieldTypes.value| == |fieldTypes.value| + |header.value|
              && d.fieldTypes.value[..|fieldTypes.value|] == fieldTypes.value
              && forall i :: 0 <= i < |header.value| ==>
                   d.fieldTypes.value[|fieldTypes.value| + i] == ColumnOf(header.value[i], of).fieldType
    ensures !ProducesNames(header) ==> d.fieldTypes == fieldTypes
  {
    var tokens := if header.Some? then header.value else [];
    if |tokens| == 0 then
      Deduction([Field(FallbackName, tf.javaString)], fieldTypes)
    else
      var rowType := seq(|tokens|, i requires 0 <= i < |tokens| => FieldOf(ColumnOf(tokens[i], of), tf));
      Deduction(rowType, if fieldTypes.Some? then Some(fieldTypes.value + ColumnFieldTypes(tokens, of)) else None)
  }

  /** Whether the caller collects field types never changes the deduced row type. */
  lemma DeducedRowTypeIgnoresCollection<T>(header: Option<seq<string>>,
                                           a: Option<seq<Option<FieldType>>>, b: Option<seq<Option<FieldType>>>,
                                           of: TagParser, tf: TypeFactory<T>)
    ensures Deduce(header, a, of, tf).rowType == Deduce(header, b, of, tf).rowType
  {
  }

  /**
   Starting from an empty list, the collected field types run parallel to the row
   type when the header produced names, and stay empty against the one fallback
   column otherwise.
   */
  lemma CollectedFieldTypesParallel<T>(header: Option<seq<string>>, of: TagParser, tf: TypeFactory<T>)
    ensures var d := Deduce(header, Some([]), of, tf);
            && d.fieldTypes.Some?
            && (ProducesNames(header) ==>
                  && |d.fieldTypes.value| == |d.rowType|
                  && forall i :: 0 <= i < |d.rowType| ==>
                       d.rowType[i].relType == RelTypeOf(d.fieldTypes.value[i], tf))
            && (!ProducesNames(header) ==> d.fieldTypes.value == [] && |d.rowType| == 1)
  {
    var d := Deduce(header, Some([]), of, tf);
    if ProducesNames(header) {
      forall i | 0 <= i < |d.rowType|
        ensures d.rowType[i].relType == RelTypeOf(d.fieldTypes.value[i], tf)
      {
        assert d.fieldTypes.value[0 + i] == ColumnOf(header.value[i], of).fieldType;
      }
    }
  }

  /** The body of deduceRowType's loop for one token: find the first colon, cut there, parse the tag. */
  method SplitHeaderToken(token: string, of: TagParser) returns (name: string, fieldType: Option<FieldType>)
    ensures HeaderColumn(name, fieldType) == ColumnOf(token, of)
  {
    var colon := IndexOf(token, ':');
    if colon >= 0 {
      name := token[..colon];
      var typeString := token[colon + 1..];
      fieldType := of(typeString);
    } else {
      name := token;
      fieldType := None;
    }
  }

  /** deduceRowType's loop over the tokens: the names, types and field types it accumulates. */
  method CollectColumns<T>(strings: seq<string>, fieldTypes: Option<seq<Option<FieldType>>>,
                           of: TagParser, tf: TypeFactory<T>)
    returns (names: seq<string>, types: seq<T>, fieldTypesAfter: Option<seq<Option<FieldType>>>)
    ensures |names| == |strings| && |types| == |strings|
    ensures forall k :: 0 <= k < |strings| ==> Field(names[k], types[k]) == FieldOf(ColumnOf(strings[k], of), tf)
    ensures fieldTypesAfter.None? <==> fieldTypes.None?
    ensures fieldTypes.Some? ==> fieldTypesAfter.value == fieldTypes.value + ColumnFieldTypes(strings, of)
  {
    names := [];
    types := [];
    fieldTypesAfter := fieldTypes;
    var i := 0;
    while i < |strings|
      invariant 0 <= i <= |strings|
      invariant |names| == i && |types| == i
      invariant forall k :: 0 <= k < i ==> Field(names[k], types[k]) == FieldOf(ColumnOf(strings[k], of), tf)
      invariant fieldTypesAfter.None? <==> fieldTypes.None?
      invariant fieldTypes.Some? ==> fieldTypesAfter.value == fieldTypes.value + ColumnFieldTypes(strings[..i], of)
    {
      var name, fieldType := SplitHeaderToken(strings[i], of);
      var relType := if fieldType.None? then tf.javaString else tf.toType(fieldType.value);
      names := names + [name];
      types := types + [relType];
      if fieldTypesAfter.Some? {
        assert ColumnFieldTypes(strings[..i + 1], of) == ColumnFieldTypes(strings[..i], of) + [fieldType];
        fieldTypesAfter := Some(fieldTypesAfter.value + [fieldType]);
      }
      i := i + 1;
    }
    assert strings[..i] == strings;
  }

  /** deduceRowType: collect over the header's tokens, fall back to `line` when no name came out, zip. */
  method DeduceRowType<T>(header: Option<seq<string>>, fieldTypes: Option<seq<Option<FieldType>>>,
                          of: TagParser, tf: TypeFactory<T>)
    returns (rowType: RowType<T>, fieldTypesAfter: Option<seq<Option<FieldType>>>)
    ensures Deduction(rowType, fieldTypesAfter) == Deduce(header, fieldTypes, of, tf)
  {
    var names: seq<string> := [];
    var types: seq<T> := [];
    fieldTypesAfter := fieldTypes;
    if header.Some? {
      names, types, fieldTypesAfter := CollectColumns(header.value, fieldTypes, of, tf);
      if |header.value| == 0 && fieldTypes.Some? {
        assert ColumnFieldTypes(header.value, of) == [];
        assert fieldTypes.value + [] == fieldTypes.value;
      }
    }
    if |names| == 0 {
      names := [FallbackName];
      types := [tf.javaString];
    }
    rowType := seq(|names|, k requires 0 <= k < |names| => Field(names[k], types[k]));
    assert rowType == Deduce(header, fieldTypes, of, tf).rowType;
  }
}
