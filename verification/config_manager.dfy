/**
 * The `ConfigManager` object: an immutable parameter mapping and the three key
 * sets that every successful lookup grows, the typed getters, the export of the
 * requested parameters, the key filters and the base64 helpers.
 */
module Config {
  import opened Results
  import opened ConfigValues
  import opened Resolution
  import Base64

  /** The parameter `decode_iterations` reads. */
  const DecodeIterationKey: string := "_POLYAXON_DECODE_ITERATION"

  /** The keys `get_requested_params` exports out of the requested ones. */
  function Exported(requested: set<string>, secret: set<string>, local: set<string>,
                    includeSecrets: bool, includeLocals: bool): (r: set<string>)
    ensures r <= requested
    ensures includeSecrets && includeLocals ==> r == requested
    ensures !includeSecrets ==> r !! secret
    ensures !includeLocals ==> r !! local
  {
    set k | k in requested && (includeSecrets || k !in secret) && (includeLocals || k !in local)
  }

  /** How `_decode` reads `decode_iterations`: an integer, a boolean counting as 0 or 1. */
  function IterationCount(v: Value): int
    requires HasShape(v, IntShape)
  {
    if v.VBool? then (if v.b then 1 else 0) else v.i
  }

  /** `iteration` decoding passes over `value`; a malformed pass raises. */
  function DecodeOutcome(value: seq<Base64.Byte>, iteration: int): Result<seq<Base64.Byte>, Error> {
    match Base64.DecodeTimes(value, iteration)
    case Some(t) => Ok(t)
    case None => Err(InvalidBase64)
  }

  /** `_decode(_encode(s))` with one pass, and more generally `n` passes over `n` encodings, give `s` back. */
  lemma DecodeOutcomeEncode(s: seq<Base64.Byte>, n: nat)
    ensures DecodeOutcome(Base64.Encode(s), 1) == Ok(s)
    ensures DecodeOutcome(Base64.EncodeTimes(s, n), n) == Ok(s)
  {
    Base64.DecodeEncodeTimes(s, 1);
    Base64.DecodeEncodeTimes(s, n);
  }

  /**
   * The element loop of `_get_typed_list_value`: converts each string element,
   * keeps each element of the target shape, and stops at the first other one.
   */
  method ConvertItems(key: string, items: seq<Value>, target: Shape, convert: string -> Conversion)
    returns (r: Result<seq<Value>, Error>)
    ensures r == ConvertedList(key, items, target, convert)
  {
    var result: seq<Value> := [];
    for i := 0 to |items|
      invariant |result| == i
      invariant forall j | 0 <= j < i :: ConvertElement(key, items[j], target, convert).Ok?
      invariant forall j | 0 <= j < i :: result[j] == ConvertElement(key, items[j], target, convert).value
    {
      var item := items[i];
      if item.VStr? {
        var c := convert(item.s);
        if c.Rejected? {
          FirstFailure(key, items, target, convert, i);
          return Err(NotConvertibleElement(key, item, target));
        } else if c.Raised? {
          FirstFailure(key, items, target, convert, i);
          return Err(c.error);
        }
        result := result + [c.value];
      } else if HasShape(item, target) {
        result := result + [item];
      } else {
        FirstFailure(key, items, target, convert, i);
        return Err(NotConvertibleElement(key, item, target));
      }
    }
    var converted := ConvertedList(key, items, target, convert);
    assert converted.Ok? && converted.value == result;
    return Ok(result);
  }

  class ConfigManager {
    /** `_params`: never changed after construction. */
    const params: map<string, Value>
    /** `_requested_keys`, `_secret_keys`, `_local_keys`. */
    var requestedKeys: set<string>
    var secretKeys: set<string>
    var localKeys: set<string>

    /** Secret and local keys are requested keys, and requested keys are parameters. */
    ghost predicate Valid()
      reads this
    {
      secretKeys <= requestedKeys && localKeys <= requestedKeys && requestedKeys <= params.Keys
    }

    /** `ConfigManager(**params)`: nothing requested yet. */
    constructor (params: map<string, Value>)
      ensures this.params == params
      ensures requestedKeys == {} && secretKeys == {} && localKeys == {}
      ensures Valid()
    {
      this.params := params;
      requestedKeys := {};
      secretKeys := {};
      localKeys := {};
    }

    /**
     * `params_startswith`: the parameter keys starting with `term` (as a set; the
     * list order of the dict is not modelled).
     */
    function ParamsStartswith(term: string): (r: set<string>)
      ensures r <= params.Keys
    {
      set k | k in params && term <= k
    }

    /** `params_endswith`: the parameter keys ending with `term`. */
    function ParamsEndswith(term: string): (r: set<string>)
      ensures r <= params.Keys
    {
      set k | k in params && |term| <= |k| && k[|k| - |term|..] == term
    }

    /** A key is selected by `params_startswith(term)` exactly when it is `term` followed by anything. */
    lemma ParamsStartswithExactly(term: string)
      ensures forall k :: k in ParamsStartswith(term) <==> k in params && exists rest :: k == term + rest
    {
      forall k ensures k in ParamsStartswith(term) <==> k in params && exists rest :: k == term + rest {
        if k in params && term <= k {
          assert k == term + k[|term|..];
        }
      }
    }

    /** A key is selected by `params_endswith(term)` exactly when it is anything followed by `term`. */
    lemma ParamsEndswithExactly(term: string)
      ensures forall k :: k in ParamsEndswith(term) <==> k in params && exists rest :: k == rest + term
    {
      forall k ensures k in ParamsEndswith(term) <==> k in params && exists rest :: k == rest + term {
        if k in params && |term| <= |k| && k[|k| - |term|..] == term {
          assert k == k[..|k| - |term|] + term;
        }
        if k in params && exists rest :: k == rest + term {
          var rest :| k == rest + term;
          assert k[|k| - |term|..] == term;
        }
      }
    }

    /**
     * `get_requested_params`: the requested keys, without the secret ones unless
     * `includeSecrets` and without the local ones unless `includeLocals`, each
     * with its parameter value, rendered by `'{}'.format` when `toStr`.
     */
    method GetRequestedParams(lib: Library, includeSecrets: bool := false, includeLocals: bool := false,
                              toStr: bool := false) returns (r: map<string, Value>)
      requires Valid()
      ensures r.Keys == Exported(requestedKeys, secretKeys, localKeys, includeSecrets, includeLocals)
      ensures forall k | k in r :: k in params && r[k] == (if toStr then VStr(lib.format(params[k])) else params[k])
    {
      r := map[];
      var remaining := requestedKeys;
      while remaining != {}
        invariant remaining <= requestedKeys
        invariant r.Keys == Exported(requestedKeys - remaining, secretKeys, localKeys, includeSecrets, includeLocals)
        invariant forall k | k in r :: k in params && r[k] == (if toStr then VStr(lib.format(params[k])) else params[k])
        decreases remaining
      {
        var key :| key in remaining;
        remaining := remaining - {key};
        if !includeSecrets && key in secretKeys {
          continue;
        }
        if !includeLocals && key in localKeys {
          continue;
        }
        var value := params[key];
        r := r[key := if toStr then VStr(lib.format(value)) else value];
      }
    }

    /**
     * `_add_key`: records `key` as requested, and as secret or local per the flags.
     * Every caller has just found `key` among the parameters.
     */
    method AddKey(key: string, isSecret: bool, isLocal: bool)
      requires Valid() && key in params
      modifies this
      ensures Valid()
      ensures requestedKeys == old(requestedKeys) + {key}
      ensures secretKeys == old(secretKeys) + (if isSecret then {key} else {})
      ensures localKeys == old(localKeys) + (if isLocal then {key} else {})
    {
      requestedKeys := requestedKeys + {key};
      if isSecret {
        secretKeys := secretKeys + {key};
      }
      if isLocal {
        localKeys := localKeys + {key};
      }
    }

    /**
     * `_get_typed_value`: the outcome is `TypedValue`; the key is recorded (per
     * the flags) exactly when it holds a string or a value of the target shape,
     * including when the options check or the conversion then fails.
     */
    method GetTypedValue(key: string, target: Shape, convert: string -> Conversion, isOptional: bool,
                         isSecret: bool, isLocal: bool, defaultValue: Value, options: seq<Value>)
      returns (r: Result<Value, Error>)
      requires Valid()
      modifies this
      ensures Valid()
      ensures r == TypedValue(params, key, target, convert, isOptional, defaultValue, options)
      ensures requestedKeys == old(requestedKeys) + Recorded(params, key, target, true)
      ensures secretKeys == old(secretKeys) + Recorded(params, key, target, isSecret)
      ensures localKeys == old(localKeys) + Recorded(params, key, target, isLocal)
    {
      if key !in params {
        if !isOptional {
          return Err(MissingKey(key));
        }
        return Ok(defaultValue);
      }
      var value := params[key];
      if value.VStr? {
        AddKey(key, isSecret, isLocal);
        var checked := CheckOptions(key, value, options);
        if checked.Err? {
          return Err(checked.error);
        }
        return ConversionOutcome(key, value.s, target, convert(value.s));
      }
      if HasShape(value, target) {
        AddKey(key, isSecret, isLocal);
        return CheckOptions(key, value, options);
      }
      return Err(NotConvertible(key, value, target));
    }

    /**
     * `_get_typed_list_value`: fetches the key as a list through `json.loads`, then
     * converts or keeps each element in order, stopping at the first bad one.
     */
    method GetTypedListValue(lib: Library, key: string, target: Shape, convert: string -> Conversion,
                             isOptional: bool, isSecret: bool, isLocal: bool, defaultValue: Value,
                             options: seq<Value>)
      returns (r: Result<Value, Error>)
      requires Valid()
      modifies this
      ensures Valid()
      ensures r == TypedListValue(params, key, target, convert, lib, isOptional, defaultValue, options)
      ensures requestedKeys == old(requestedKeys) + Recorded(params, key, ListShape, true)
      ensures secretKeys == old(secretKeys) + Recorded(params, key, ListShape, isSecret)
      ensures localKeys == old(localKeys) + Recorded(params, key, ListShape, isLocal)
    {
      var fetched := GetTypedValue(key, ListShape, JsonConverter(lib), isOptional, isSecret, isLocal,
                                   defaultValue, options);
      assert TypedListValue(params, key, target, convert, lib, isOptional, defaultValue, options)
        == ListOutcome(key, target, convert, defaultValue, fetched);
      if fetched.Err? {
        r := Err(fetched.error);
      } else if !Truthy(fetched.value) {
        r := Ok(defaultValue);
      } else if !fetched.value.VList? {
        r := Err(NotConvertible(key, fetched.value, target));
      } else {
        var converted := ConvertItems(key, fetched.value.items, target, convert);
        r := if converted.Err? then Err(converted.error) else Ok(VList(converted.value));
      }
    }

    /** `get_int`: target `int` (a `bool` is one), converter `int`. */
    method GetInt(lib: Library, key: string, isList: bool := false, isOptional: bool := false,
                  isSecret: bool := false, isLocal: bool := false, defaultValue: Value := VNone,
                  options: seq<Value> := [])
      returns (r: Result<Value, Error>)
      requires Valid()
      modifies this
      ensures Valid()
      ensures r == Lookup(params, key, IntShape, IntConverter(lib), lib, isList, isOptional, defaultValue, options)
      ensures r.Ok? ==> Shaped(key in params, IntShape, isList, defaultValue, r.value)
      ensures requestedKeys == old(requestedKeys) + Recorded(params, key, FetchShape(IntShape, isList), true)
      ensures secretKeys == old(secretKeys) + Recorded(params, key, FetchShape(IntShape, isList), isSecret)
      ensures localKeys == old(localKeys) + Recorded(params, key, FetchShape(IntShape, isList), isLocal)
    {
      if isList {
        r := GetTypedListValue(lib, key, IntShape, IntConverter(lib), isOptional, isSecret, isLocal,
                               defaultValue, options);
      } else {
        r := GetTypedValue(key, IntShape, IntConverter(lib), isOptional, isSecret, isLocal, defaultValue, options);
      }
      if r.Ok? {
        ConvertersYieldTargetShape(lib);
        LookupShaped(params, key, IntShape, IntConverter(lib), lib, isList, isOptional, defaultValue, options);
      }
    }

    /** `get_float`: target `float`, converter `float`. */
    method GetFloat(lib: Library, key: string, isList: bool := false, isOptional: bool := false,
                    isSecret: bool := false, isLocal: bool := false, defaultValue: Value := VNone,
                    options: seq<Value> := [])
      returns (r: Result<Value, Error>)
      requires Valid()
      modifies this
      ensures Valid()
      ensures r == Lookup(params, key, FloatShape, FloatConverter(lib), lib, isList, isOptional, defaultValue, options)
      ensures r.Ok? ==> Shaped(key in params, FloatShape, isList, defaultValue, r.value)
      ensures requestedKeys == old(requestedKeys) + Recorded(params, key, FetchShape(FloatShape, isList), true)
      ensures secretKeys == old(secretKeys) + Recorded(params, key, FetchShape(FloatShape, isList), isSecret)
      ensures localKeys == old(localKeys) + Recorded(params, key, FetchShape(FloatShape, isList), isLocal)
    {
      if isList {
        r := GetTypedListValue(lib, key, FloatShape, FloatConverter(lib), isOptional, isSecret, isLocal,
                               defaultValue, options);
      } else {
        r := GetTypedValue(key, FloatShape, FloatConverter(lib), isOptional, isSecret, isLocal, defaultValue, options);
      }
      if r.Ok? {
        ConvertersYieldTargetShape(lib);
        LookupShaped(params, key, FloatShape, FloatConverter(lib), lib, isList, isOptional, defaultValue, options);
      }
    }

    /** `get_boolean`: target `bool`, converter `bool(strtobool(x))`. */
    method GetBoolean(lib: Library, key: string, isList: bool := false, isOptional: bool := false,
                      isSecret: bool := false, isLocal: bool := false, defaultValue: Value := VNone,
                      options: seq<Value> := [])
      returns (r: Result<Value, Error>)
      requires Valid()
      modifies this
      ensures Valid()
      ensures r == Lookup(params, key, BoolShape, BoolConverter(lib), lib, isList, isOptional, defaultValue, options)
      ensures r.Ok? ==> Shaped(key in params, BoolShape, isList, defaultValue, r.value)
      ensures requestedKeys == old(requestedKeys) + Recorded(params, key, FetchShape(BoolShape, isList), true)
      ensures secretKeys == old(secretKeys) + Recorded(params, key, FetchShape(BoolShape, isList), isSecret)
      ensures localKeys == old(localKeys) + Recorded(params, key, FetchShape(BoolShape, isList), isLocal)
    {
      if isList {
        r := GetTypedListValue(lib, key, BoolShape, BoolConverter(lib), isOptional, isSecret, isLocal,
                               defaultValue, options);
      } else {
        r := GetTypedValue(key, BoolShape, BoolConverter(lib), isOptional, isSecret, isLocal, defaultValue, options);
      }
      if r.Ok? {
        ConvertersYieldTargetShape(lib);
        LookupShaped(params, key, BoolShape, BoolConverter(lib), lib, isList, isOptional, defaultValue, options);
      }
    }

    /** `get_string`: target `str`, converter `str`. */
    method GetString(lib: Library, key: string, isList: bool := false, isOptional: bool := false,
                     isSecret: bool := false, isLocal: bool := false, defaultValue: Value := VNone,
                     options: seq<Value> := [])
      returns (r: Result<Value, Error>)
      requires Valid()
      modifies this
      ensures Valid()
      ensures r == Lookup(params, key, StrShape, StrConverter(), lib, isList, isOptional, defaultValue, options)
      ensures r.Ok? ==> Shaped(key in params, StrShape, isList, defaultValue, r.value)
      ensures requestedKeys == old(requestedKeys) + Recorded(params, key, FetchShape(StrShape, isList), true)
      ensures secretKeys == old(secretKeys) + Recorded(params, key, FetchShape(StrShape, isList), isSecret)
      ensures localKeys == old(localKeys) + Recorded(params, key, FetchShape(StrShape, isList), isLocal)
    {
      if isList {
        r := GetTypedListValue(lib, key, StrShape, StrConverter(), isOptional, isSecret, isLocal,
                               defaultValue, options);
      } else {
        r := GetTypedValue(key, StrShape, StrConverter(), isOptional, isSecret, isLocal, defaultValue, options);
      }
      if r.Ok? {
        ConvertersYieldTargetShape(lib);
        LookupShaped(params, key, StrShape, StrConverter(), lib, isList, isOptional, defaultValue, options);
      }
    }

    /**
     * `get_dict`: target Mapping, converter `convert_to_dict`. Without `is_list` a
     * falsy result gives the default and a non-mapping raises.
     */
    method GetDict(lib: Library, key: string, isList: bool := false, isOptional: bool := false,
                   isSecret: bool := false, isLocal: bool := false, defaultValue: Value := VNone,
                   options: seq<Value> := [])
      returns (r: Result<Value, Error>)
      requires Valid()
      modifies this
      ensures Valid()
      ensures isList ==> r == TypedListValue(params, key, MapShape, DictConverter(lib), lib, isOptional, defaultValue, options)
      ensures !isList ==> r == DictValue(params, key, lib, isOptional, defaultValue, options)
      ensures r.Ok? && isList ==> Shaped(key in params, MapShape, true, defaultValue, r.value)
      ensures r.Ok? && !isList ==> r.value == defaultValue || (r.value.VMap? && |r.value.entries| > 0)
      ensures requestedKeys == old(requestedKeys) + Recorded(params, key, FetchShape(MapShape, isList), true)
      ensures secretKeys == old(secretKeys) + Recorded(params, key, FetchShape(MapShape, isList), isSecret)
      ensures localKeys == old(localKeys) + Recorded(params, key, FetchShape(MapShape, isList), isLocal)
    {
      if isList {
        r := GetTypedListValue(lib, key, MapShape, DictConverter(lib), isOptional, isSecret, isLocal,
                               defaultValue, options);
        if r.Ok? {
          ConvertersYieldTargetShape(lib);
          LookupShaped(params, key, MapShape, DictConverter(lib), lib, true, isOptional, defaultValue, options);
        }
        return;
      }
      var value := GetTypedValue(key, MapShape, DictConverter(lib), isOptional, isSecret, isLocal,
                                 defaultValue, options);
      if value.Err? {
        return Err(value.error);
      }
      if !Truthy(value.value) {
        return Ok(defaultValue);
      }
      if !value.value.VMap? {
        return Err(NotConvertible(key, value.value, MapShape));
      }
      DictValueOutcome(params, key, lib, isOptional, defaultValue, options);
      return Ok(value.value);
    }

    /** `get_uri`: target `UriSpec`, converter `parse_uri_spec`. */
    method GetUri(lib: Library, key: string, isList: bool := false, isOptional: bool := false,
                  isSecret: bool := false, isLocal: bool := false, defaultValue: Value := VNone,
                  options: seq<Value> := [])
      returns (r: Result<Value, Error>)
      requires Valid()
      modifies this
      ensures Valid()
      ensures r == Lookup(params, key, UriShape, ConvertUri, lib, isList, isOptional, defaultValue, options)
      ensures r.Ok? ==> Shaped(key in params, UriShape, isList, defaultValue, r.value)
      ensures requestedKeys == old(requestedKeys) + Recorded(params, key, FetchShape(UriShape, isList), true)
      ensures secretKeys == old(secretKeys) + Recorded(params, key, FetchShape(UriShape, isList), isSecret)
      ensures localKeys == old(localKeys) + Recorded(params, key, FetchShape(UriShape, isList), isLocal)
    {
      if isList {
        r := GetTypedListValue(lib, key, UriShape, ConvertUri, isOptional, isSecret, isLocal,
                               defaultValue, options);
      } else {
        r := GetTypedValue(key, UriShape, ConvertUri, isOptional, isSecret, isLocal, defaultValue, options);
      }
      if r.Ok? {
        ConvertersYieldTargetShape(lib);
        LookupShaped(params, key, UriShape, ConvertUri, lib, isList, isOptional, defaultValue, options);
      }
    }

    /**
     * `get_list`: target `list`, converter `parse_list`. A string gives its
     * comma-separated segments; a list already in the parameters is returned as it is.
     */
    method GetList(key: string, isOptional: bool := false, isSecret: bool := false, isLocal: bool := false,
                   defaultValue: Value := VNone, options: seq<Value> := [])
      returns (r: Result<Value, Error>)
      requires Valid()
      modifies this
      ensures Valid()
      ensures r == TypedValue(params, key, ListShape, ConvertCommaList, isOptional, defaultValue, options)
      ensures r.Ok? && key in params && params[key].VStr? ==>
        r.value == VList(StrValues(PyText.CommaSegments(params[key].s)))
      ensures r.Ok? && key in params && !params[key].VStr? ==> r.value == params[key]
      ensures requestedKeys == old(requestedKeys) + Recorded(params, key, ListShape, true)
      ensures secretKeys == old(secretKeys) + Recorded(params, key, ListShape, isSecret)
      ensures localKeys == old(localKeys) + Recorded(params, key, ListShape, isLocal)
    {
      r := GetTypedValue(key, ListShape, ConvertCommaList, isOptional, isSecret, isLocal, defaultValue, options);
    }

    /** `decode_iterations`: `get_int` of `_POLYAXON_DECODE_ITERATION`, optional with default 1. */
    method DecodeIterations(lib: Library) returns (r: Result<Value, Error>)
      requires Valid()
      modifies this
      ensures Valid()
      ensures r == TypedValue(params, DecodeIterationKey, IntShape, IntConverter(lib), true, VInt(1), [])
      ensures r.Ok? ==> HasShape(r.value, IntShape)
      ensures requestedKeys == old(requestedKeys) + Recorded(params, DecodeIterationKey, IntShape, true)
      ensures secretKeys == old(secretKeys) && localKeys == old(localKeys)
    {
      r := GetInt(lib, DecodeIterationKey, isOptional := true, defaultValue := VInt(1));
    }

    /**
     * `_decode`: `iteration` base64 passes (none when it is negative); a zero
     * `iteration` is replaced by `decode_iterations`, which may record its key.
     */
    method Decode(lib: Library, value: seq<Base64.Byte>, iteration: int := 3)
      returns (r: Result<seq<Base64.Byte>, Error>)
      requires Valid()
      modifies this
      ensures Valid()
      ensures iteration != 0 ==> r == DecodeOutcome(value, iteration)
      ensures iteration != 0 ==> requestedKeys == old(requestedKeys)
      ensures iteration == 0 ==>
        match TypedValue(params, DecodeIterationKey, IntShape, IntConverter(lib), true, VInt(1), [])
        case Err(e) => r == Err(e)
        case Ok(n) => HasShape(n, IntShape) && r == DecodeOutcome(value, IterationCount(n))
      ensures iteration == 0 && DecodeIterationKey !in params ==> r == DecodeOutcome(value, 1)
      ensures iteration == 0 ==>
        requestedKeys == old(requestedKeys) + Recorded(params, DecodeIterationKey, IntShape, true)
      ensures secretKeys == old(secretKeys) && localKeys == old(localKeys)
    {
      var n := iteration;
      if n == 0 {
        var configured := DecodeIterations(lib);
        if configured.Err? {
          return Err(configured.error);
        }
        n := IterationCount(configured.value);
      }
      var decoded := Base64.DecodeRepeated(value, n);
      if decoded.None? {
        return Err(InvalidBase64);
      }
      return Ok(decoded.value);
    }
  }
}
