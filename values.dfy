/** JavaScript values as the core sees them: request bodies, query results,
    repository rows and thrown errors. */
module Values {

  datatype Option<+T> = None | Some(value: T) {
    function GetOr(default: T): T {
      match this
      case Some(v) => v
      case None => default
    }
  }

  /** An optional value as a list of at most one element. */
  function OptionToSeq<T>(o: Option<T>): seq<T> {
    if o.Some? then [o.value] else []
  }

  /** A JavaScript value. Numbers are integers; an object is its own
      property list in the order `Object.entries` reports. */
  datatype Value =
    | Undefined
    | Null
    | Bool(b: bool)
    | Num(n: int)
    | Str(s: string)
    | Arr(items: seq<Value>)
    | Obj(entries: seq<(string, Value)>)

  /** JavaScript truthiness (`!!v`). */
  predicate Truthy(v: Value) {
    match v
    case Undefined => false
    case Null => false
    case Bool(b) => b
    case Num(n) => n != 0
    case Str(s) => s != ""
    case Arr(_) => true
    case Obj(_) => true
  }

  /** The value stored under `key` in a property list (first occurrence). */
  function Lookup(entries: seq<(string, Value)>, key: string): (r: Value)
    ensures r != Undefined ==> exists i :: 0 <= i < |entries| && entries[i] == (key, r)
    ensures (forall i :: 0 <= i < |entries| ==> entries[i].0 != key) ==> r == Undefined
  {
    if |entries| == 0 then Undefined
    else if entries[0].0 == key then entries[0].1
    else Lookup(entries[1..], key)
  }

  /** What the runtime reports for a thrown value. `kind` stands for the
      `instanceof` tests the error classifier performs. */
  datatype ErrorKind = SyntaxError | OtherError | NotAnError

  datatype JsError = JsError(
    kind: ErrorKind,
    code: Option<string>,
    errno: Option<int>,
    message: Option<string>,
    asString: string)  // `String(error)`, used only when `kind == NotAnError`

  /** The TypeError the runtime throws when a property is read on `null` or `undefined`. */
  function PropertyOfNothing(holder: Value, key: string): (e: JsError)
    requires holder == Null || holder == Undefined
    ensures e.kind == OtherError && e.code == None && e.errno == None
  {
    var what := if holder == Null then "null" else "undefined";
    var text := "Cannot read properties of " + what + " (reading '" + key + "')";
    JsError(OtherError, None, None, Some(text), "TypeError: " + text)
  }

  /** Either the value an expression produced or the error it threw. */
  datatype Outcome<+T> = Normal(value: T) | Thrown(err: JsError)

  /** Property access `holder.key`: throws on `null`/`undefined`, reads own
      properties of objects, and yields `undefined` on every other value. */
  function GetProp(holder: Value, key: string): (r: Outcome<Value>)
    ensures r.Thrown? <==> holder == Null || holder == Undefined
    ensures holder.Obj? ==> r == Normal(Lookup(holder.entries, key))
    ensures !holder.Obj? && r.Normal? ==> r.value == Undefined
  {
    match holder
    case Undefined => Thrown(PropertyOfNothing(holder, key))
    case Null => Thrown(PropertyOfNothing(holder, key))
    case Obj(es) => Normal(Lookup(es, key))
    case _ => Normal(Undefined)
  }
}
