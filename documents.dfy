/** Values of the JSON-like documents the backend reads, edits and stores:
    board documents, user records, socket payloads and query criteria. */
module Documents {

  datatype Option<+T> = None | Some(value: T)

  /** Why an operation gave up. Each constructor stands for the exception the
      source throws (or the TypeError it runs into) on that path. */
  datatype Error =
    | BoardNotFound      // getById found no document; `board.groups` dereferences null
    | GroupNotFound      // `find`/`findIndex` found no group with the id
    | TaskNotFound       // no task with the id
    | IndexOutOfRange    // group-move with a source index that removes nothing
    | ActivitiesMissing  // `board.activities.unshift` on a board without activities
    | DuplicateKey       // insertOne with an _id that is already stored
    | InvalidObjectId    // ObjectId.createFromHexString on anything but 24 hex digits

  datatype Result<+T> = Ok(value: T) | Err(error: Error)

  /** A JavaScript value as far as the core inspects it. Clocks and ObjectId
      generation are outside the model: a `Time` or an `ObjectId` carries
      whatever the caller passed in. */
  datatype Value =
    | Undefined
    | Null
    | Bool(b: bool)
    | Num(n: int)
    | Str(s: string)
    | Time(t: int)
    | ObjectId(hex: string)
    | List(items: seq<Value>)
    | Obj(props: map<string, Value>)

  /** The own properties of a plain object. */
  type Fields = map<string, Value>

  /** JavaScript truthiness (NaN is not modelled: numbers are integers). */
  predicate Truthy(v: Value)
  {
    match v
    case Undefined => false
    case Null => false
    case Bool(b) => b
    case Num(n) => n != 0
    case Str(s) => s != ""
    case _ => true
  }

  /** Property access `o.k`: a missing property reads as undefined. */
  function Get(o: Fields, k: string): Value
  {
    if k in o then o[k] else Undefined
  }
}
