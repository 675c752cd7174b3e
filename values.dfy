/** Python values as the bot sees them: decoded JSON, the exceptions the core
    can raise, and the outcome of a call into a foreign service. */
module Values {

  /** A decoded JSON value (what `json.load` and `Response.json()` return).
      Objects are dicts keyed by string. */
  datatype Json =
    | JNull
    | JBool(b: bool)
    | JInt(i: int)
    | JStr(s: string)
    | JArr(items: seq<Json>)
    | JObj(fields: map<string, Json>)

  /** The exceptions the core can raise, by the Python class that carries them. */
  datatype Failure =
    | KeyError(key: string)          // a dict has no such key
    | TypeError                      // subscripting or iterating a value that does not allow it
    | AttributeError                 // `.append` on something that is not a list
    | IndexError                     // a list index out of range
    | ValueError                     // `datetime.strptime` rejected its input
    | RequestError(message: string)  // the HTTP call or the decoding of its answer raised
    | Unreadable                     // the registrations file is missing or is not valid JSON

  /** The outcome of Python code that either returns a value or raises. */
  datatype Result<T> = Ok(value: T) | Err(failure: Failure) {
    predicate IsFailure() { Err? }
    function PropagateFailure<U>(): Result<U> requires Err? { Err(failure) }
    function Extract(): T requires Ok? { value }
  }

  /** The outcome of a call into a foreign service: a value, or an exception
      carrying its message. */
  datatype Attempt<T> = Returned(value: T) | Raised(message: string)

  datatype Option<+T> = None | Some(value: T)

  /** `j[key]` for a string key: a dict gives the entry or raises KeyError,
      every other JSON value raises TypeError. */
  function Subscript(j: Json, key: string): (r: Result<Json>)
    ensures r.Ok? <==> j.JObj? && key in j.fields
    ensures r.Ok? ==> r.value == j.fields[key]
    ensures j.JObj? && key !in j.fields ==> r == Err(KeyError(key))
  {
    match j
    case JObj(fields) => if key in fields then Ok(fields[key]) else Err(KeyError(key))
    case _ => Err(TypeError)
  }

  /** Python's `j == n` for a JSON value and an int: an int is equal by value,
      and a bool is equal to 1 or 0 because `bool` is a subclass of `int`. */
  predicate EqualsInt(j: Json, n: int)
    ensures EqualsInt(j, n) <==> j == JInt(n) || (j == JBool(true) && n == 1) || (j == JBool(false) && n == 0)
  {
    match j
    case JInt(i) => i == n
    case JBool(b) => n == (if b then 1 else 0)
    case _ => false
  }
}
