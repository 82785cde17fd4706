/**
 * JavaScript values as the modelled code sees them: primitives, arrays,
 * plain objects (their own enumerable properties in `Object.keys` order),
 * functions (by identity), and the exceptions the code throws.
 * Numbers are integers; fractional numbers, NaN and Infinity are modelled
 * separately where the code depends on them.
 */
module JsValue {
  import opened Results
  import opened JsString

  datatype Value =
    | Undefined
    | Null
    | Bool(b: bool)
    | Num(n: int)
    | Str(s: string)
    | Arr(items: seq<Value>)
    | Obj(props: seq<Entry>)
    | Fn(ref: nat)

  /** One own property of an object. */
  datatype Entry = Entry(key: string, val: Value)

  type Props = seq<Entry>

  /** One byte of a `Buffer`. */
  type Byte = x: int | 0 <= x < 256

  /** JavaScript's `a % n` for a positive `n`: the remainder takes the sign of `a`. */
  function JsRemainder(a: int, n: int): (r: int)
    requires n > 0
    ensures -n < r < n
    ensures a >= 0 ==> r == a % n
    ensures a < 0 ==> r == -((-a) % n)
  {
    if a >= 0 then a % n else -((-a) % n)
  }

  /** The error codes of `Parse.Error` the modelled code raises. */
  datatype ErrorCode = InternalServerError | ObjectNotFound | InvalidJson

  function CodeNumber(c: ErrorCode): int
  {
    match c
    case InternalServerError => 1
    case ObjectNotFound => 101
    case InvalidJson => 107
  }

  /** What a `throw` (or a rejected promise) carries. */
  datatype Exception =
    | TypeError(message: string)
    | RangeError(message: string)
    | ReferenceError(message: string)
    | URIError
    | Error(message: string)
    | ParseError(code: ErrorCode, message: string)
    | Raised(value: Value)

  /** JavaScript truthiness. */
  predicate Truthy(v: Value)
  {
    match v
    case Undefined => false
    case Null => false
    case Bool(b) => b
    case Num(n) => n != 0
    case Str(s) => s != ""
    case _ => true
  }

  /** `typeof v`. */
  function TypeOf(v: Value): string
  {
    match v
    case Undefined => "undefined"
    case Bool(_) => "boolean"
    case Num(_) => "number"
    case Str(_) => "string"
    case Fn(_) => "function"
    case _ => "object"
  }

  function KeysOf(props: Props): (keys: seq<string>)
    ensures |keys| == |props| && forall i :: 0 <= i < |props| ==> keys[i] == props[i].key
  {
    if |props| == 0 then [] else [props[0].key] + KeysOf(props[1..])
  }

  function KeySet(props: Props): set<string>
  {
    if |props| == 0 then {} else {props[0].key} + KeySet(props[1..])
  }

  lemma {:induction false} KeySetMembers(props: Props, k: string)
    ensures k in KeySet(props) <==> exists i :: 0 <= i < |props| && props[i].key == k
  {
    if |props| > 0 {
      KeySetMembers(props[1..], k);
      if k in KeySet(props[1..]) {
        var i :| 0 <= i < |props[1..]| && props[1..][i].key == k;
        assert props[i + 1].key == k;
      }
      if exists i :: 0 <= i < |props| && props[i].key == k {
        var i :| 0 <= i < |props| && props[i].key == k;
        if i > 0 { assert props[1..][i - 1].key == k; }
      }
    }
  }

  predicate DistinctKeys(props: Props)
  {
    forall i, j :: 0 <= i < j < |props| ==> props[i].key != props[j].key
  }

  /** `obj[k]` on a plain object: the first property named `k`, else `undefined`. */
  function Lookup(props: Props, k: string): (v: Value)
    ensures k !in KeySet(props) ==> v == Undefined
  {
    if |props| == 0 then Undefined
    else if props[0].key == k then props[0].val
    else Lookup(props[1..], k)
  }

  /** A property no earlier property shadows is what a read of its name finds. */
  lemma {:induction false} LookupFirst(props: Props, i: nat)
    requires i < |props| && forall j :: 0 <= j < i ==> props[j].key != props[i].key
    ensures Lookup(props, props[i].key) == props[i].val
  {
    if i > 0 {
      LookupFirst(props[1..], i - 1);
    }
  }

  /**
   * `obj[k] = v` on a plain object: an existing property keeps its place,
   * a new one goes last.
   */
  function Assign(props: Props, k: string, v: Value): (r: Props)
    ensures KeySet(r) == KeySet(props) + {k}
    ensures Lookup(r, k) == v
    ensures forall j :: j != k ==> Lookup(r, j) == Lookup(props, j)
    ensures k in KeySet(props) ==> KeysOf(r) == KeysOf(props)
    ensures k !in KeySet(props) ==> KeysOf(r) == KeysOf(props) + [k]
  {
    if |props| == 0 then [Entry(k, v)]
    else if props[0].key == k then [Entry(k, v)] + props[1..]
    else [props[0]] + Assign(props[1..], k, v)
  }

  /**
   * Whether `obj[k] = v` on an object that inherits from `Object.prototype`
   * creates or updates an own property: every key does except `__proto__`,
   * which, unless the object already holds it as its own, reaches the
   * inherited accessor instead.
   */
  predicate Settable(props: Props, k: string)
  {
    k != "__proto__" || k in KeySet(props)
  }

  /**
   * `obj[k] = v` on an object that inherits from `Object.prototype`: a
   * settable key is assigned as by `Assign`; the inherited `__proto__`
   * accessor creates no property.
   */
  function SetProperty(props: Props, k: string, v: Value): (r: Props)
    ensures KeySet(r) == if Settable(props, k) then KeySet(props) + {k} else KeySet(props)
    ensures Settable(props, k) ==> Lookup(r, k) == v
    ensures !Settable(props, k) ==> "__proto__" !in KeySet(r) && KeysOf(r) == KeysOf(props)
    ensures forall j :: j != k ==> Lookup(r, j) == Lookup(props, j)
  {
    if Settable(props, k) then Assign(props, k, v) else props
  }

  /** Assigning the same property twice is the same as assigning it once. */
  lemma {:induction false} AssignIdempotent(props: Props, k: string, v: Value)
    ensures Assign(Assign(props, k, v), k, v) == Assign(props, k, v)
  {
    if |props| > 0 && props[0].key != k {
      AssignIdempotent(props[1..], k, v);
    }
  }

  /**
   * Names every plain object inherits from `Object.prototype`; reading one
   * from an object that lacks it yields a function (or, for `__proto__`,
   * `Object.prototype` itself), which is truthy.
   */
  const ObjectPrototypeMembers: set<string> := {"constructor", "hasOwnProperty", "isPrototypeOf",
    "propertyIsEnumerable", "toString", "valueOf", "toLocaleString", "__defineGetter__", "__defineSetter__",
    "__lookupGetter__", "__lookupSetter__", "__proto__"}

  /**
   * `obj[k]` on a plain object with `Object.prototype` behind it: an own
   * property, else the inherited member. An inherited member stands here as
   * a function; its own properties are not modelled, so reading any of them
   * gives `undefined`.
   */
  function ReadWithPrototype(props: Props, k: string): (v: Value)
    ensures k in KeySet(props) ==> v == Lookup(props, k)
    ensures k !in KeySet(props) ==> (Truthy(v) <==> k in ObjectPrototypeMembers)
    ensures k !in KeySet(props) && k in ObjectPrototypeMembers ==> Member(v, "action") == Ok(Undefined)
  {
    if k in KeySet(props) then Lookup(props, k)
    else if k in ObjectPrototypeMembers then Fn(0)
    else Undefined
  }

  /** An array index written the way `String(i)` writes it. */
  function CanonicalIndex(k: string): Option<nat>
  {
    if |k| > 0 && AllDigits(k) && NatToString(DigitsValue(k)) == k then Some(DigitsValue(k)) else None
  }

  function IndexKeys(n: nat): (keys: seq<string>)
    ensures |keys| == n
  {
    seq(n, i requires 0 <= i < n => NatToString(i))
  }

  function TypeErrorReading(k: string, base: string): Exception
  {
    TypeError("Cannot read property '" + k + "' of " + base)
  }

  /** Property read `v[k]` (also `v.k`); reading from `null` or `undefined` throws. */
  function Member(v: Value, k: string): (r: Result<Value, Exception>)
    ensures r.Err? <==> v.Undefined? || v.Null?
    ensures v.Obj? ==> r == Ok(Lookup(v.props, k))
  {
    match v
    case Undefined => Err(TypeErrorReading(k, "undefined"))
    case Null => Err(TypeErrorReading(k, "null"))
    case Obj(props) => Ok(Lookup(props, k))
    case Arr(items) =>
      if k == "length" then Ok(Num(|items|))
      else (match CanonicalIndex(k)
            case Some(i) => if i < |items| then Ok(items[i]) else Ok(Undefined)
            case None => Ok(Undefined))
    case Str(s) =>
      if k == "length" then Ok(Num(|s|))
      else (match CanonicalIndex(k)
            case Some(i) => if i < |s| then Ok(Str([s[i]])) else Ok(Undefined)
            case None => Ok(Undefined))
    case _ => Ok(Undefined)
  }

  /** `Object.keys(v)`; it throws on `null` and `undefined`. */
  function ObjectKeys(v: Value): (r: Result<seq<string>, Exception>)
    ensures r.Err? <==> v.Undefined? || v.Null?
    ensures v.Obj? ==> r == Ok(KeysOf(v.props))
  {
    match v
    case Undefined => Err(TypeError("Cannot convert undefined or null to object"))
    case Null => Err(TypeError("Cannot convert undefined or null to object"))
    case Obj(props) => Ok(KeysOf(props))
    case Arr(items) => Ok(IndexKeys(|items|))
    case Str(s) => Ok(IndexKeys(|s|))
    case _ => Ok([])
  }

  /**
   * `String(v)`. A function's source text is not modelled: it prints as
   * `function`.
   */
  function ToJsString(v: Value): string
    decreases v, 0
  {
    match v
    case Undefined => "undefined"
    case Null => "null"
    case Bool(b) => if b then "true" else "false"
    case Num(n) => IntToString(n)
    case Str(s) => s
    case Arr(items) => Join(seq(|items|, i requires 0 <= i < |items| => ElementString(items[i])), ',')
    case Obj(_) => "[object Object]"
    case Fn(_) => "function"
  }

  /** How `Array.prototype.join` prints one element. */
  function ElementString(v: Value): string
    decreases v, 1
  {
    if v.Undefined? || v.Null? then "" else ToJsString(v)
  }
}
