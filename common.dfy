/** Small shared vocabulary: optional values, and JavaScript-level values as they
    arrive in a parsed JSON request body. */
module Common {

  datatype Option<+T> = None | Some(value: T)

  /** The outcome of calling a collaborator that may throw: either it returned
      a value, or it threw an error carrying `message`. */
  datatype Attempt<+T> = Returned(value: T) | Threw(message: string)

  /** A byte of a Node.js Buffer. */
  newtype byte = x: int | 0 <= x < 256

  /** A value found in a parsed request body (`req.body.x`). Numbers are kept as
      reals; JSON cannot express NaN, so zero is the only falsy number. */
  datatype JsValue =
    | Undefined
    | Null
    | Bool(b: bool)
    | Num(n: real)
    | Str(s: string)
    | Arr
    | Obj

  /** JavaScript truthiness: `if (v)` takes the branch iff Truthy(v). */
  predicate Truthy(v: JsValue)
    ensures Truthy(v) <==> v !in {Undefined, Null, Bool(false), Num(0.0), Str("")}
  {
    match v
    case Undefined => false
    case Null => false
    case Bool(b) => b
    case Num(n) => n != 0.0
    case Str(s) => s != ""
    case Arr => true
    case Obj => true
  }

  /** A file as multer's memory storage hands it to a handler (`req.file`). */
  datatype UploadedFile = UploadedFile(buffer: seq<byte>, mimetype: string, originalname: string) {
    /** multer's `size` field; for memory storage it is the buffer length. */
    function Size(): nat { |buffer| }
  }
}
