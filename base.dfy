/** Shared value wrappers and the Java integer ranges the back end relies on. */
module Base {

  /** A value that may be absent: Java `null`, a missing map key, `Optional.empty()`. */
  datatype Option<T> = None | Some(value: T)
  {
    predicate IsSome() { Some? }

    function GetOr(default: T): (r: T)
      ensures Some? ==> r == value
      ensures None? ==> r == default
    {
      match this
      case Some(v) => v
      case None => default
    }
  }

  /** The outcome of a handler: either a value or the error message it reports. */
  datatype Result<T> = Ok(value: T) | Err(msg: string)

  /**
   * The answer of a lookup in a store the model does not hold (a machine or a
   * user fetched by id): the record, null, or an exception the caller catches.
   */
  datatype Lookup<T> = Found(value: T) | NotFound | LookupFailed

  /** A JavaScript id compared with `===`: a number is never equal to a string. */
  datatype JsId = Num(n: int) | Str(s: string)

  /**
   * A value read from or written to the realtime database. Numbers are the
   * whole numbers the back end stores (doubles are not modelled); a map keeps
   * its children in the order the database client yields them.
   */
  datatype DbValue =
    | NullValue
    | BoolValue(b: bool)
    | LongValue(n: int)
    | TextValue(s: string)
    | ListValue(items: seq<DbValue>)
    | MapValue(entries: seq<(string, DbValue)>)

  /** The category entity: an id, a name and a description, each possibly null. */
  datatype Category = Category(id: Option<int>, name: Option<string>, description: Option<string>)

  const INT32_MIN: int := -0x8000_0000
  const INT32_MAX: int := 0x7fff_ffff
  const INT64_MIN: int := -0x8000_0000_0000_0000
  const INT64_MAX: int := 0x7fff_ffff_ffff_ffff

  predicate IsInt32(x: int) { INT32_MIN <= x <= INT32_MAX }
  predicate IsInt64(x: int) { INT64_MIN <= x <= INT64_MAX }

  /** Two's-complement wrap-around of a Java `int` operation. */
  function Wrap32(x: int): (r: int)
    ensures IsInt32(r)
    ensures (r - x) % 0x1_0000_0000 == 0
    ensures IsInt32(x) ==> r == x
  {
    (x + 0x8000_0000) % 0x1_0000_0000 - 0x8000_0000
  }
}
