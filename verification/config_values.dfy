/**
 * The values a `ConfigManager` holds and returns, the shapes its getters ask for,
 * the errors it raises, and the library calls it relies on.
 */
module ConfigValues {
  import opened Results

  /** A parsed `user:password@host` connection spec. */
  datatype UriSpec = UriSpec(user: string, password: string, host: string)

  /**
   * A Python value as found in the parameter mapping or produced by a converter.
   * Floats are opaque: only their IEEE-754 bit pattern is kept.
   */
  datatype Value =
    | VNone
    | VBool(b: bool)
    | VInt(i: int)
    | VFloat(bits: bv64)
    | VStr(s: string)
    | VList(items: seq<Value>)
    | VMap(entries: map<string, Value>)
    | VUri(uri: UriSpec)

  /** The `target_type` a getter passes to the engines. */
  datatype Shape = IntShape | FloatShape | BoolShape | StrShape | MapShape | UriShape | ListShape

  /**
   * `isinstance(value, target_type)`. A Python `bool` is an `int`, so booleans
   * have the integer shape as well as their own.
   */
  predicate HasShape(v: Value, target: Shape) {
    match target
    case IntShape => v.VInt? || v.VBool?
    case FloatShape => v.VFloat?
    case BoolShape => v.VBool?
    case StrShape => v.VStr?
    case MapShape => v.VMap?
    case UriShape => v.VUri?
    case ListShape => v.VList?
  }

  /** The integer a Python `bool` stands for: `True` is 1, `False` is 0. */
  function BoolAsInt(b: bool): int {
    if b then 1 else 0
  }

  /**
   * Python's `==` on values: a boolean equals the integer it stands for (`True == 1`),
   * lists are equal when their elements are, pairwise and in order, and dicts when
   * they have the same keys with equal values; any other two values are equal when
   * they are the same value. Floats are compared by bit pattern.
   */
  predicate PyEq(a: Value, b: Value)
    decreases a
  {
    match a
    case VBool(x) => b == VBool(x) || b == VInt(BoolAsInt(x))
    case VInt(i) => b == VInt(i) || (b.VBool? && BoolAsInt(b.b) == i)
    case VList(xs) => b.VList? && |xs| == |b.items| && forall i | 0 <= i < |xs| :: PyEq(xs[i], b.items[i])
    case VMap(m) => b.VMap? && m.Keys == b.entries.Keys && forall k | k in m :: PyEq(m[k], b.entries[k])
    case _ => a == b
  }

  /** Every value equals itself, as `==` does on everything but a float NaN. */
  lemma {:induction false} PyEqReflexive(a: Value)
    ensures PyEq(a, a)
    decreases a
  {
    match a
    case VList(xs) =>
      forall i | 0 <= i < |xs| ensures PyEq(xs[i], xs[i]) {
        PyEqReflexive(xs[i]);
      }
    case VMap(m) =>
      forall k | k in m ensures PyEq(m[k], m[k]) {
        PyEqReflexive(m[k]);
      }
    case _ =>
  }

  /** `==` is symmetric. */
  lemma {:induction false} PyEqSymmetric(a: Value, b: Value)
    requires PyEq(a, b)
    ensures PyEq(b, a)
    decreases a
  {
    match a
    case VList(xs) =>
      forall i | 0 <= i < |xs| ensures PyEq(b.items[i], xs[i]) {
        PyEqSymmetric(xs[i], b.items[i]);
      }
    case VMap(m) =>
      forall k | k in b.entries ensures PyEq(b.entries[k], m[k]) {
        PyEqSymmetric(m[k], b.entries[k]);
      }
    case _ =>
  }

  /** Python truthiness (`if value:`): None, False, zero and empty containers are false. */
  predicate Truthy(v: Value) {
    match v
    case VNone => false
    case VBool(b) => b
    case VInt(i) => i != 0
    case VFloat(bits) => bits & 0x7FFF_FFFF_FFFF_FFFF != 0
    case VStr(s) => |s| > 0
    case VList(items) => |items| > 0
    case VMap(entries) => |entries| > 0
    case VUri(_) => true
  }

  /** The situations in which a `ConfigurationError` is raised, and the decoding error of `_decode`. */
  datatype Error =
    | MissingKey(key: string)                                           // no value for a non-optional key
    | NotConvertible(key: string, value: Value, target: Shape)          // wrong shape, or conversion failed
    | NotConvertibleElement(key: string, element: Value, target: Shape) // a bad list element
    | NotAnOption(key: string, value: Value)                            // value outside `options`
    | InvalidUriSpec(uriSpec: string)                                   // not `user:pass@host`
    | InvalidBase64                                                     // binascii.Error from b64decode

  /**
   * What a `type_convert` call does with a string: returns a value, raises
   * `ValueError` (Rejected), or raises a `ConfigurationError` of its own.
   */
  datatype Conversion = Converted(value: Value) | Rejected | Raised(error: Error)

  /**
   * The library calls the manager makes, each a partial function on strings
   * (None is a raised `ValueError`): `int`, `float`, distutils' `strtobool`,
   * `json.loads`, and `'{}'.format` for rendering a value as a string.
   */
  datatype Library = Library(
    parseInt: string -> Option<int>,
    parseFloat: string -> Option<bv64>,
    strToBool: string -> Option<bool>,
    jsonLoads: string -> Option<Value>,
    format: Value -> string)
}
