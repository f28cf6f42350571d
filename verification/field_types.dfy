/**
 The column-type vocabulary of the CSV adapter and the part of the optimizer's
 type factory that schema deduction calls.

 CsvFieldType.java is not part of this model: its tag parser `of` and its
 mapping `toType` are left uninterpreted and reach the model as parameters.
 */
module FieldTypes {
  import opened Wrappers

  /** The closed set of scalar kinds a header may declare for a column (CsvFieldType). */
  datatype FieldType =
    | String | Boolean | Byte | Short | Int | Long | Float | Double | Date | Time | Timestamp

  /** CsvFieldType.of: maps a type tag to a field type; `None` is its `null` result. */
  type TagParser = string -> Option<FieldType>

  /**
   The two calls deduction makes on the optimizer's type factory:
   `createJavaType(String.class)` and `fieldType.toType(typeFactory)`.
   The relational type `T` is left abstract.
   */
  datatype TypeFactory<T> = TypeFactory(javaString: T, toType: FieldType -> T)

  /** One field of a struct row type: a column name and its relational type. */
  datatype Field<T> = Field(name: string, relType: T)

  /** A struct row type, `createStructType(Pair.zip(names, types))`, as its ordered field list. */
  type RowType<T> = seq<Field<T>>

  /** The relational type of a column whose declared field type is `fieldType`: String when none. */
  function RelTypeOf<T>(fieldType: Option<FieldType>, tf: TypeFactory<T>): (r: T)
    ensures fieldType.None? ==> r == tf.javaString
    ensures fieldType.Some? ==> r == tf.toType(fieldType.value)
  {
    match fieldType
    case None => tf.javaString
    case Some(ft) => tf.toType(ft)
  }
}
