// Shared value types of the Web Bluetooth polyfill model: optional and
// fallible values, the errors the polyfill raises, and the JSON-like
// envelope it posts to the native host.

module Types {

  datatype Option<+T> = None | Some(value: T)

  datatype Result<+R, +E> = Success(value: R) | Failure(error: E)

  /** What the polyfill throws or rejects with. */
  datatype Failure =
    | TypeError(message: string)   // a JavaScript TypeError
    | Error(message: string)       // a plain JavaScript Error
    | Foreign(message: string)     // a value thrown by code outside the core

  type Bytes = seq<bv8>

  /** A request filter as the page supplies it; the core only forwards it. */
  datatype Filter = Filter(name: Option<string>, namePrefix: Option<string>, services: seq<string>)

  /** A value stored under one key of a message's `data` object. */
  datatype Field =
    | Text(text: string)
    | Flag(flag: bool)
    | Filters(filters: seq<Filter>)

  /** The `data` object of a message: key to value. */
  type Data = map<string, Field>

  /**
   * The optional options object handed down the sendMessage chain:
   * `{data, callbackID}`, either part possibly absent. An absent options
   * object behaves as `{}`, that is `Params(None, None)`.
   */
  datatype Params = Params(data: Option<Data>, callbackID: Option<int>)

  const NoParams := Params(None, None)

  /** The envelope `{type, data, callbackID}` posted to the native host. */
  datatype Message = Message(messageType: string, data: Data, callbackID: int)

  /** `params.data || {}` */
  function DataOf(p: Params): Data
  {
    if p.data.Some? then p.data.value else map[]
  }
}
