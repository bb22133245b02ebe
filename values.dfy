/** Python values as they travel between an asset-metadata object and a
    Mongo document: the handful of kinds the asset store puts in its fields,
    plus the dictionary that holds a document or its `edit_info` part. */
module Values {

  /** A Python value. `Null` is Python's `None`; `Timestamp` stands for a
      `datetime`, kept opaque as a number; `Dict` is a `dict` keyed by
      strings (a Mongo document or a sub-document). */
  datatype Value =
    | Null
    | Str(s: string)
    | Bool(b: bool)
    | Int(i: int)
    | Timestamp(stamp: int)
    | Dict(entries: map<string, Value>)

  /** The exceptions the modelled code can raise. */
  datatype Error =
    | AssertionError            // a failed `assert`
    | KeyError(key: string)     // `d[key]` on a dict without that key
    | TypeError                 // subscripting something that is not a dict
    | IndexError                // a format placeholder past the last argument

  datatype Option<T> = None | Some(value: T)

  datatype Result<T> = Ok(value: T) | Err(error: Error)

  /** Python's `container[key]` for a string key: a lookup in a dict, a
      `KeyError` when the key is missing, a `TypeError` on anything else
      (None, a bool, a number or a datetime cannot be subscripted, and a
      string cannot be subscripted by a string). */
  function Subscript(container: Value, key: string): (r: Result<Value>)
    ensures r.Ok? <==> container.Dict? && key in container.entries
    ensures r.Ok? ==> r.value == container.entries[key]
    ensures r.Err? ==> r.error == if container.Dict? then KeyError(key) else TypeError
  {
    match container
    case Dict(entries) =>
      if key in entries then Ok(entries[key]) else Err(KeyError(key))
    case _ => Err(TypeError)
  }
}
