/** Option and Result, used for nullable columns, query results and handler outcomes. */
module Wrappers {

  /** A value that may be absent: a nullable column, a missing JSON field, a query with no row. */
  datatype Option<+T> = None | Some(value: T)

  /** A field of a JSON object: missing, present as `null`, or present with a value. */
  datatype Field<+T> = Absent | Null | Given(value: T) {

    /** The column value a present field stands for in a query: `null` is SQL NULL. */
    function Nullable(): (v: Option<T>)
      requires !Absent?
      ensures v.None? <==> Null?
      ensures v.Some? ==> v.value == value
    {
      if Null? then None else Some(value)
    }

    /** The value of an optional form field: a missing field and `null` both give None. */
    function Optional(): (v: Option<T>)
      ensures v.Some? <==> Given?
      ensures v.Some? ==> v.value == value
    {
      if Given? then Some(value) else None
    }
  }

  /** The outcome of a handler: a response, or the exception it raises. */
  datatype Result<+T, +E> = Ok(value: T) | Err(error: E)
}
