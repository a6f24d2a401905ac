/** The JavaScript values the msgpack decoder hands to the hub protocol, and the
    two pieces of JavaScript semantics the protocol relies on: truthiness and
    `typeof x === "object"`. */
module Values {
  import opened Results

  newtype byte = b: int | 0 <= b < 256

  /** A decoded msgpack value as JavaScript sees it.  `Undefined` is what a read
      past the end of an array or of an absent property yields; `Bin` is the
      Buffer the decoder produces for msgpack binary data. */
  datatype Value =
    | Undefined
    | Nil
    | Bool(b: bool)
    | Int(i: int)
    | Str(s: string)
    | Bin(bytes: seq<byte>)
    | Arr(elems: seq<Value>)
    | Obj(fields: map<string, Value>)

  /** JavaScript truthiness: `undefined`, `null`, `false`, `0` and `""` are
      falsy; every object (arrays and buffers included) is truthy. */
  predicate Truthy(v: Value) {
    match v
    case Undefined => false
    case Nil => false
    case Bool(b) => b
    case Int(i) => i != 0
    case Str(s) => s != ""
    case Bin(_) => true
    case Arr(_) => true
    case Obj(_) => true
  }

  /** `typeof v === "object"`, which in JavaScript also holds for `null`,
      arrays and buffers. */
  predicate IsObjectType(v: Value) {
    v.Nil? || v.Bin? || v.Arr? || v.Obj?
  }

  /** The empty object literal `{}`. */
  const EmptyObject: Value := Obj(map[])

  /** The JavaScript expression `a || b`. */
  function Or(a: Value, b: Value): (r: Value)
    ensures Truthy(a) ==> r == a
    ensures !Truthy(a) ==> r == b
  {
    if Truthy(a) then a else b
  }

  /** Indexing a JavaScript array: out of range reads give `undefined`. */
  function At(s: seq<Value>, i: nat): (v: Value)
    ensures i < |s| ==> v == s[i]
    ensures |s| <= i ==> v == Undefined
  {
    if i < |s| then s[i] else Undefined
  }

  /** Reading an optional property: an absent one reads as `undefined`. */
  function FromOption(o: Option<Value>): (v: Value)
    ensures o.Some? ==> v == o.value
    ensures o.None? ==> v == Undefined
  {
    match o
    case Some(x) => x
    case None => Undefined
  }

}
