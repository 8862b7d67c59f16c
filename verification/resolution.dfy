/**
 * What a `ConfigManager` lookup returns, as functions of the parameter mapping:
 * the converters each getter plugs in, `_check_options`, and the outcomes of the
 * two generic engines `_get_typed_value` and `_get_typed_list_value` and of
 * `get_dict`. The class in module Config performs these lookups on its state.
 */
module Resolution {
  import opened Results
  import opened PyText
  import opened ConfigValues
  import opened UriParsing

  // ---------------------------------------------------------------------------
  // Converters (`type_convert`)

  /** `int`. */
  function IntConverter(lib: Library): string -> Conversion {
    s => match lib.parseInt(s) case Some(n) => Converted(VInt(n)) case None => Rejected
  }

  /** `float`. */
  function FloatConverter(lib: Library): string -> Conversion {
    s => match lib.parseFloat(s) case Some(f) => Converted(VFloat(f)) case None => Rejected
  }

  /** `lambda x: bool(strtobool(x))`. */
  function BoolConverter(lib: Library): string -> Conversion {
    s => match lib.strToBool(s) case Some(b) => Converted(VBool(b)) case None => Rejected
  }

  /** `str`, which leaves a string as it is. */
  function StrConverter(): string -> Conversion {
    s => Converted(VStr(s))
  }

  /** `convert_to_dict` of `get_dict`: `json.loads`, and a `ValueError` unless the result is a mapping. */
  function DictConverter(lib: Library): string -> Conversion {
    s => match lib.jsonLoads(s) case Some(VMap(m)) => Converted(VMap(m)) case _ => Rejected
  }

  /**
   * `parse_uri_spec` as the converter of `get_uri`: a spec, or its own
   * `InvalidUriSpec` error, which is not a `ValueError` and passes through.
   */
  function ConvertUri(s: string): (r: Conversion)
    ensures r.Converted? ==> r.value.VUri?
    ensures !r.Rejected?
  {
    match ParseUriSpec(s) case Ok(u) => Converted(VUri(u)) case Err(e) => Raised(e)
  }

  /** `json.loads`, the converter the list engine fetches its list with. */
  function JsonConverter(lib: Library): string -> Conversion {
    s => match lib.jsonLoads(s) case Some(v) => Converted(v) case None => Rejected
  }

  /** `parse_list` as the converter of `get_list`: the list of the comma-separated segments; it never raises. */
  function ConvertCommaList(s: string): (r: Conversion)
    ensures r.Converted? && r.value.VList?
  {
    Converted(VList(StrValues(CommaSegments(s))))
  }

  /** Python strings as values. */
  function StrValues(xs: seq<string>): (r: seq<Value>)
    ensures |r| == |xs| && forall i | 0 <= i < |xs| :: r[i] == VStr(xs[i])
  {
    seq(|xs|, i requires 0 <= i < |xs| => VStr(xs[i]))
  }

  /** Every value a converter returns has the given shape. */
  ghost predicate Yields(convert: string -> Conversion, target: Shape) {
    forall s :: convert(s).Converted? ==> HasShape(convert(s).value, target)
  }

  /** Each getter's converter returns values of the getter's target shape. */
  lemma ConvertersYieldTargetShape(lib: Library)
    ensures Yields(IntConverter(lib), IntShape)
    ensures Yields(FloatConverter(lib), FloatShape)
    ensures Yields(BoolConverter(lib), BoolShape)
    ensures Yields(StrConverter(), StrShape)
    ensures Yields(DictConverter(lib), MapShape)
    ensures Yields(ConvertUri, UriShape)
    ensures Yields(ConvertCommaList, ListShape)
  {
    forall s ensures ConvertUri(s).Converted? ==> HasShape(ConvertUri(s).value, UriShape) {
      var c := ConvertUri(s);
    }
    forall s ensures ConvertCommaList(s).Converted? ==> HasShape(ConvertCommaList(s).value, ListShape) {
      var c := ConvertCommaList(s);
    }
  }

  // ---------------------------------------------------------------------------
  // `_check_options`

  /** `value in options` in Python: some option is `==` to the value. */
  predicate InOptions(value: Value, options: seq<Value>) {
    exists i | 0 <= i < |options| :: PyEq(value, options[i])
  }

  /** A value that is itself listed is an option. */
  lemma ListedIsAnOption(value: Value, options: seq<Value>)
    requires value in options
    ensures InOptions(value, options)
  {
    var i :| 0 <= i < |options| && options[i] == value;
    PyEqReflexive(value);
  }

  /** A string equals only the same string, so it is an option exactly when it is listed. */
  lemma StrInOptions(s: string, options: seq<Value>)
    ensures InOptions(VStr(s), options) <==> VStr(s) in options
  {
    if VStr(s) in options {
      ListedIsAnOption(VStr(s), options);
    }
  }

  /** `_check_options`: with no options (None or empty) every value passes; otherwise only one `==` to an option does. */
  function CheckOptions(key: string, value: Value, options: seq<Value>): (r: Result<Value, Error>)
    ensures r.Ok? <==> |options| == 0 || InOptions(value, options)
    ensures r.Ok? ==> r.value == value
    ensures r.Err? ==> r.error == NotAnOption(key, value)
  {
    if |options| > 0 && !InOptions(value, options) then Err(NotAnOption(key, value)) else Ok(value)
  }

  /** `True` passes the options `[1]` and `0` passes `[False]`, but `2` does not pass `[True]`. */
  lemma BoolIntOptions(key: string)
    ensures CheckOptions(key, VBool(true), [VInt(1)]) == Ok(VBool(true))
    ensures CheckOptions(key, VInt(0), [VBool(false)]) == Ok(VInt(0))
    ensures CheckOptions(key, VInt(2), [VBool(true)]) == Err(NotAnOption(key, VInt(2)))
  {
    assert PyEq(VBool(true), [VInt(1)][0]);
    assert PyEq(VInt(0), [VBool(false)][0]);
  }

  // ---------------------------------------------------------------------------
  // `_get_typed_value`

  /** The outcome of calling `type_convert` on the raw string of `key`: `ValueError` becomes `NotConvertible`. */
  function ConversionOutcome(key: string, raw: string, target: Shape, c: Conversion): Result<Value, Error> {
    match c
    case Converted(v) => Ok(v)
    case Rejected => Err(NotConvertible(key, VStr(raw), target))
    case Raised(e) => Err(e)
  }

  /**
   * The value `_get_typed_value` returns or the error it raises. A missing key
   * gives the default (or `MissingKey`); a string is checked against `options` as
   * it is and then converted; a value of the target shape is checked and returned
   * as it is; anything else is `NotConvertible`.
   */
  function TypedValue(params: map<string, Value>, key: string, target: Shape, convert: string -> Conversion,
                      isOptional: bool, defaultValue: Value, options: seq<Value>): (r: Result<Value, Error>)
    ensures r.Err? ==>
      || r.error == MissingKey(key)
      || (key in params && r.error == NotAnOption(key, params[key]))
      || (key in params && r.error == NotConvertible(key, params[key], target))
      || (key in params && params[key].VStr? && convert(params[key].s) == Raised(r.error))
    ensures key !in params ==> (r.Err? <==> !isOptional)
  {
    if key !in params then
      if isOptional then Ok(defaultValue) else Err(MissingKey(key))
    else
      var value := params[key];
      if value.VStr? then
        match CheckOptions(key, value, options)
        case Err(e) => Err(e)
        case Ok(_) => ConversionOutcome(key, value.s, target, convert(value.s))
      else if HasShape(value, target) then CheckOptions(key, value, options)
      else Err(NotConvertible(key, value, target))
  }

  /**
   * Whether `_get_typed_value` calls `_add_key`: the key is present and holds a
   * string or a value of the target shape, whatever happens afterwards.
   */
  predicate Records(params: map<string, Value>, key: string, target: Shape) {
    key in params && (params[key].VStr? || HasShape(params[key], target))
  }

  /** A missing key gives the default unchanged when optional and `MissingKey` otherwise, and is not recorded. */
  lemma MissingKeyOutcome(params: map<string, Value>, key: string, target: Shape, convert: string -> Conversion,
                          isOptional: bool, defaultValue: Value, options: seq<Value>)
    requires key !in params
    ensures !Records(params, key, target)
    ensures isOptional ==> TypedValue(params, key, target, convert, isOptional, defaultValue, options) == Ok(defaultValue)
    ensures !isOptional ==> TypedValue(params, key, target, convert, isOptional, defaultValue, options) == Err(MissingKey(key))
  {
  }

  /**
   * A string value is recorded whatever follows; then `options` are checked
   * against the raw string, before and independently of the conversion; then the
   * converter runs and its `ValueError` becomes `NotConvertible`.
   */
  lemma StringValueOutcome(params: map<string, Value>, key: string, target: Shape, convert: string -> Conversion,
                           isOptional: bool, defaultValue: Value, options: seq<Value>, raw: string)
    requires key in params && params[key] == VStr(raw)
    ensures Records(params, key, target)
    ensures |options| > 0 && VStr(raw) !in options ==>
      TypedValue(params, key, target, convert, isOptional, defaultValue, options) == Err(NotAnOption(key, VStr(raw)))
    ensures |options| == 0 || VStr(raw) in options ==>
      TypedValue(params, key, target, convert, isOptional, defaultValue, options)
        == ConversionOutcome(key, raw, target, convert(raw))
    ensures convert(raw).Rejected? && (|options| == 0 || VStr(raw) in options) ==>
      TypedValue(params, key, target, convert, isOptional, defaultValue, options)
        == Err(NotConvertible(key, VStr(raw), target))
  {
    StrInOptions(raw, options);
  }

  /**
   * A non-string value of the target shape is recorded and returned unchanged,
   * unconverted, when it is `==` to an option or there are none, and raises
   * `NotAnOption` otherwise; a non-string value of any other shape
   * is `NotConvertible` and is not recorded.
   */
  lemma NativeValueOutcome(params: map<string, Value>, key: string, target: Shape, convert: string -> Conversion,
                           isOptional: bool, defaultValue: Value, options: seq<Value>)
    requires key in params && !params[key].VStr?
    ensures Records(params, key, target) <==> HasShape(params[key], target)
    ensures HasShape(params[key], target) && (|options| == 0 || InOptions(params[key], options)) ==>
      TypedValue(params, key, target, convert, isOptional, defaultValue, options) == Ok(params[key])
    ensures HasShape(params[key], target) && |options| > 0 && !InOptions(params[key], options) ==>
      TypedValue(params, key, target, convert, isOptional, defaultValue, options)
        == Err(NotAnOption(key, params[key]))
    ensures !HasShape(params[key], target) ==>
      TypedValue(params, key, target, convert, isOptional, defaultValue, options)
        == Err(NotConvertible(key, params[key], target))
  {
  }

  /**
   * With a converter that yields the target shape, a successful lookup returns
   * the default of a missing key or a value of the target shape.
   */
  lemma TypedValueShape(params: map<string, Value>, key: string, target: Shape, convert: string -> Conversion,
                        isOptional: bool, defaultValue: Value, options: seq<Value>)
    requires Yields(convert, target)
    requires TypedValue(params, key, target, convert, isOptional, defaultValue, options).Ok?
    ensures var v := TypedValue(params, key, target, convert, isOptional, defaultValue, options).value;
      (key !in params && v == defaultValue) || HasShape(v, target)
  {
    if key in params && params[key].VStr? {
      var raw := params[key].s;
      assert convert(raw).Converted? ==> HasShape(convert(raw).value, target);
    }
  }

  // ---------------------------------------------------------------------------
  // `_get_typed_list_value`

  /**
   * One element of the decoded list: a string is converted (its `ValueError`
   * names the element), a value of the target shape is kept, anything else is
   * `NotConvertibleElement`.
   */
  function ConvertElement(key: string, item: Value, target: Shape, convert: string -> Conversion): Result<Value, Error> {
    if item.VStr? then
      match convert(item.s)
      case Converted(v) => Ok(v)
      case Rejected => Err(NotConvertibleElement(key, item, target))
      case Raised(e) => Err(e)
    else if HasShape(item, target) then Ok(item)
    else Err(NotConvertibleElement(key, item, target))
  }

  /**
   * The loop of `_get_typed_list_value`: succeeds exactly when every element
   * converts, and then holds the converted elements in the same order; otherwise
   * fails with the error of the first element that does not convert.
   */
  function ConvertedList(key: string, items: seq<Value>, target: Shape, convert: string -> Conversion)
    : (r: Result<seq<Value>, Error>)
    ensures r.Ok? <==> forall i | 0 <= i < |items| :: ConvertElement(key, items[i], target, convert).Ok?
    ensures r.Ok? ==> |r.value| == |items|
    ensures r.Ok? ==> forall i | 0 <= i < |items| :: r.value[i] == ConvertElement(key, items[i], target, convert).value
    ensures r.Err? ==> exists i | 0 <= i < |items| ::
      && ConvertElement(key, items[i], target, convert) == Err(r.error)
      && forall j | 0 <= j < i :: ConvertElement(key, items[j], target, convert).Ok?
    decreases |items|
  {
    if |items| == 0 then Ok([])
    else
      match ConvertElement(key, items[0], target, convert)
      case Err(e) => Err(e)
      case Ok(v) =>
        match ConvertedList(key, items[1..], target, convert)
        case Err(e) => Err(e)
        case Ok(vs) => Ok([v] + vs)
  }

  /** The list conversion fails with the error of the first element that does not convert. */
  lemma FirstFailure(key: string, items: seq<Value>, target: Shape, convert: string -> Conversion, i: int)
    requires 0 <= i < |items|
    requires forall j | 0 <= j < i :: ConvertElement(key, items[j], target, convert).Ok?
    requires ConvertElement(key, items[i], target, convert).Err?
    ensures ConvertedList(key, items, target, convert) == Err(ConvertElement(key, items[i], target, convert).error)
  {
    var r := ConvertedList(key, items, target, convert);
    var k :| 0 <= k < |items|
      && ConvertElement(key, items[k], target, convert) == Err(r.error)
      && forall j | 0 <= j < k :: ConvertElement(key, items[j], target, convert).Ok?;
    assert k == i;
  }

  /**
   * The value `_get_typed_list_value` returns or the error it raises: the list is
   * fetched with `json.loads` as converter and the same flags and options; an
   * empty or falsy fetch gives the default verbatim; a non-list is
   * `NotConvertible`; otherwise each element goes through `ConvertElement`.
   */
  function TypedListValue(params: map<string, Value>, key: string, target: Shape, convert: string -> Conversion,
                          lib: Library, isOptional: bool, defaultValue: Value, options: seq<Value>)
    : Result<Value, Error>
  {
    ListOutcome(key, target, convert, defaultValue,
                TypedValue(params, key, ListShape, JsonConverter(lib), isOptional, defaultValue, options))
  }

  /** What the list engine makes of the fetched value (or the error fetching it raised). */
  function ListOutcome(key: string, target: Shape, convert: string -> Conversion, defaultValue: Value,
                       fetched: Result<Value, Error>): Result<Value, Error>
  {
    match fetched
    case Err(e) => Err(e)
    case Ok(value) =>
      if !Truthy(value) then Ok(defaultValue)
      else if !value.VList? then Err(NotConvertible(key, value, target))
      else
        match ConvertedList(key, value.items, target, convert)
        case Err(e) => Err(e)
        case Ok(xs) => Ok(VList(xs))
  }


  /**
   * A successful typed-list lookup returns the default verbatim (whatever it is),
   * and then only after a falsy fetch, or a non-empty list whose every element
   * has the target shape.
   */
  lemma TypedListShape(params: map<string, Value>, key: string, target: Shape, convert: string -> Conversion,
                       lib: Library, isOptional: bool, defaultValue: Value, options: seq<Value>)
    requires Yields(convert, target)
    requires TypedListValue(params, key, target, convert, lib, isOptional, defaultValue, options).Ok?
    ensures var fetched := TypedValue(params, key, ListShape, JsonConverter(lib), isOptional, defaultValue, options);
      var v := TypedListValue(params, key, target, convert, lib, isOptional, defaultValue, options).value;
      || (fetched.Ok? && !Truthy(fetched.value) && v == defaultValue)
      || (v.VList? && |v.items| > 0 && forall x | x in v.items :: HasShape(x, target))
  {
    var fetched := TypedValue(params, key, ListShape, JsonConverter(lib), isOptional, defaultValue, options);
    var v := TypedListValue(params, key, target, convert, lib, isOptional, defaultValue, options).value;
    if fetched.Ok? && Truthy(fetched.value) && fetched.value.VList? {
      var items := fetched.value.items;
      var xs := ConvertedList(key, items, target, convert).value;
      forall x | x in v.items ensures HasShape(x, target) {
        var i :| 0 <= i < |xs| && xs[i] == x;
        var item := items[i];
        if item.VStr? {
          assert convert(item.s).Converted? ==> HasShape(convert(item.s).value, target);
        }
      }
    }
  }

  /**
   * When the fetched value is a non-empty list, a successful lookup keeps its
   * length and order: each string element is replaced by its conversion and every
   * other element is kept as it is.
   */
  lemma TypedListElements(params: map<string, Value>, key: string, target: Shape, convert: string -> Conversion,
                          lib: Library, isOptional: bool, defaultValue: Value, options: seq<Value>, items: seq<Value>)
    requires TypedValue(params, key, ListShape, JsonConverter(lib), isOptional, defaultValue, options) == Ok(VList(items))
    requires |items| > 0
    requires TypedListValue(params, key, target, convert, lib, isOptional, defaultValue, options).Ok?
    ensures var v := TypedListValue(params, key, target, convert, lib, isOptional, defaultValue, options).value;
      && v.VList? && |v.items| == |items|
      && forall i | 0 <= i < |items| ::
           v.items[i] == (if items[i].VStr? then convert(items[i].s).value else items[i])
  {
    var xs := ConvertedList(key, items, target, convert).value;
    forall i | 0 <= i < |items|
      ensures xs[i] == (if items[i].VStr? then convert(items[i].s).value else items[i])
    {
      assert ConvertElement(key, items[i], target, convert).Ok?;
    }
  }

  /** An empty or falsy fetched value makes the list engine return the default verbatim, list or not. */
  lemma TypedListFalsyGivesDefault(params: map<string, Value>, key: string, target: Shape,
                                   convert: string -> Conversion, lib: Library, isOptional: bool,
                                   defaultValue: Value, options: seq<Value>)
    requires TypedValue(params, key, ListShape, JsonConverter(lib), isOptional, defaultValue, options).Ok?
    requires !Truthy(TypedValue(params, key, ListShape, JsonConverter(lib), isOptional, defaultValue, options).value)
    ensures TypedListValue(params, key, target, convert, lib, isOptional, defaultValue, options) == Ok(defaultValue)
  {
  }

  /**
   * A truthy fetched value that is not a list raises `NotConvertible` with the
   * element type as target. In particular a missing optional key whose default
   * is truthy and not a list raises rather than returning the default.
   */
  lemma TypedListNonListRaises(params: map<string, Value>, key: string, target: Shape,
                               convert: string -> Conversion, lib: Library, isOptional: bool,
                               defaultValue: Value, options: seq<Value>)
    ensures var fetched := TypedValue(params, key, ListShape, JsonConverter(lib), isOptional, defaultValue, options);
      fetched.Ok? && Truthy(fetched.value) && !fetched.value.VList? ==>
        TypedListValue(params, key, target, convert, lib, isOptional, defaultValue, options)
          == Err(NotConvertible(key, fetched.value, target))
    ensures key !in params && isOptional && Truthy(defaultValue) && !defaultValue.VList? ==>
      TypedListValue(params, key, target, convert, lib, isOptional, defaultValue, options)
        == Err(NotConvertible(key, defaultValue, target))
  {
  }

  // ---------------------------------------------------------------------------
  // `get_dict`

  /**
   * The value `get_dict` returns (without `is_list`): the single-value lookup
   * with target Mapping, then a falsy result gives the default and a non-mapping
   * raises `NotConvertible`.
   */
  function DictValue(params: map<string, Value>, key: string, lib: Library, isOptional: bool,
                     defaultValue: Value, options: seq<Value>): Result<Value, Error>
  {
    match TypedValue(params, key, MapShape, DictConverter(lib), isOptional, defaultValue, options)
    case Err(e) => Err(e)
    case Ok(value) =>
      if !Truthy(value) then Ok(defaultValue)
      else if !value.VMap? then Err(NotConvertible(key, value, MapShape))
      else Ok(value)
  }

  /**
   * `get_dict` returns either its default or a non-empty mapping. In particular a
   * missing optional key with a truthy default that is not a mapping raises.
   */
  lemma DictValueOutcome(params: map<string, Value>, key: string, lib: Library, isOptional: bool,
                         defaultValue: Value, options: seq<Value>)
    ensures var r := DictValue(params, key, lib, isOptional, defaultValue, options);
      r.Ok? ==> r.value == defaultValue || (r.value.VMap? && |r.value.entries| > 0)
    ensures key !in params && isOptional && Truthy(defaultValue) && !defaultValue.VMap? ==>
      DictValue(params, key, lib, isOptional, defaultValue, options)
        == Err(NotConvertible(key, defaultValue, MapShape))
  {
  }

  // ---------------------------------------------------------------------------
  // The getters' dispatch on `is_list`

  /** The shape a getter fetches its key with: `list` for the list engine, the target otherwise. */
  function FetchShape(target: Shape, isList: bool): Shape {
    if isList then ListShape else target
  }

  /** A getter's outcome: the list engine when `is_list`, the single-value engine otherwise. */
  function Lookup(params: map<string, Value>, key: string, target: Shape, convert: string -> Conversion,
                  lib: Library, isList: bool, isOptional: bool, defaultValue: Value, options: seq<Value>)
    : Result<Value, Error>
  {
    if isList then TypedListValue(params, key, target, convert, lib, isOptional, defaultValue, options)
    else TypedValue(params, key, target, convert, isOptional, defaultValue, options)
  }

  /** The key a lookup adds to one of the three key sets: `{key}` when it records and `flag` is set. */
  function Recorded(params: map<string, Value>, key: string, fetched: Shape, flag: bool): (r: set<string>)
    ensures r <= {key}
    ensures key in r <==> flag && key in params && (params[key].VStr? || HasShape(params[key], fetched))
  {
    if flag && Records(params, key, fetched) then {key} else {}
  }

  /**
   * What a successful getter returns: a single value of the target shape, or the
   * default of a missing key; with `is_list`, the default or a list of values of
   * the target shape.
   */
  predicate Shaped(present: bool, target: Shape, isList: bool, defaultValue: Value, v: Value) {
    if isList then v == defaultValue || (v.VList? && forall x | x in v.items :: HasShape(x, target))
    else (!present && v == defaultValue) || HasShape(v, target)
  }

  /** Every successful getter call, with a converter yielding the target shape, returns a shaped value. */
  lemma LookupShaped(params: map<string, Value>, key: string, target: Shape, convert: string -> Conversion,
                     lib: Library, isList: bool, isOptional: bool, defaultValue: Value, options: seq<Value>)
    requires Yields(convert, target)
    requires Lookup(params, key, target, convert, lib, isList, isOptional, defaultValue, options).Ok?
    ensures Shaped(key in params, target, isList, defaultValue,
                   Lookup(params, key, target, convert, lib, isList, isOptional, defaultValue, options).value)
  {
    if isList {
      TypedListShape(params, key, target, convert, lib, isOptional, defaultValue, options);
    } else {
      TypedValueShape(params, key, target, convert, isOptional, defaultValue, options);
    }
  }
}
