# ConfigManager — a verified model of Polyaxon's typed configuration resolver

Polyaxon's `ConfigManager` (`polyaxon/config_manager/config_manager.py`) wraps a
flat mapping from configuration keys to raw values. Values are strings (for
example from environment variables) or values that are already structured:
integers, booleans, lists, mappings and so on.

Callers read typed values out of the mapping with getters: `get_int`,
`get_float`, `get_boolean`, `get_string`, `get_dict` and `get_uri`, each with
an `is_list` variant, plus the comma-splitting `get_list`. Every getter is a
thin wrapper around one of two engines:

- `_get_typed_value` fetches one key. A missing key gives the default, or
  fails if the key is not optional. A string is converted. A value that
  already has the target type passes through. Anything else fails.
- `_get_typed_list_value` fetches a list through `json.loads`, then converts
  or keeps each element, in order.

Every lookup that finds a usable value records its key in `_requested_keys`.
It also records the key in `_secret_keys` or `_local_keys` when the caller
flags it. `get_requested_params` exports the recorded keys. Secret and local
keys are left out unless the caller asks for them.

The class also holds:

- the `user:password@host` parser `parse_uri_spec`;
- the key filters `params_startswith` and `params_endswith`;
- the base64 helpers `_encode` and `_decode`. `_decode` decodes several times
  in a row.

The project is in eight Dafny files:

| file | module | content |
|---|---|---|
| `results.dfy` | `Results` | `Option`, `Result` |
| `config_values.dfy` | `ConfigValues` | Python values (`Value`), target shapes (`Shape`, with `isinstance` as `HasShape`), truthiness, Python's `==` (`PyEq`), the error cases, the library calls as a `Library` value |
| `py_text.dfy` | `PyText` | `str.split`, `str.strip` (Python's whitespace set), `sep.join`, and `parse_list` |
| `uri_parsing.dfy` | `UriParsing` | `parse_uri_spec` and its round trip |
| `base64.dfy` | `Base64` | the RFC 4648 section 4 alphabet, `b64encode`, strict `b64decode`, and the repeated decoding loop |
| `resolution.dfy` | `Resolution` | the converters each getter plugs in, `_check_options`, and the outcome of both engines and of `get_dict`, as functions of the parameter mapping, with their properties |
| `config_manager.dfy` | `Config` | `class ConfigManager` with `const params` and the three key sets as `set<string>` fields. Its methods perform the lookups in place and are proved to return what `Resolution` specifies and to grow the key sets exactly as the source does |
| `scenarios.dfy` | `Scenarios` | sequences of calls on one manager: redaction of secret keys, failed lookups that still record their key, lookups that record nothing |

How the model reads the source:

- **The order of the string path.** When the stored value is a string, the
  code calls `_add_key` first (line 395), then `_check_options` on the raw
  string (line 396), then the converter (line 397). So a key is recorded even
  when the options check or the conversion then fails. The options are
  compared with the string as stored, not with the converted value.
  `Resolution.StringValueOutcome` and `Scenarios.FailedLookupsAreRecorded`
  state this behaviour.
- **Booleans.** A Python `bool` is an `int`, so `get_int` returns a stored
  boolean unchanged (`HasShape(VBool(_), IntShape)`).
- **Options.** `None` and an empty options list both accept everything. Both
  are modelled as the empty sequence. Otherwise `value not in options` uses
  Python's `==`, modelled by `ConfigValues.PyEq`: a boolean equals the integer
  it stands for (`True == 1`), and lists and dicts are compared element by
  element. So `get_int(key, options=[1])` accepts a stored `True`.
- **Errors.** Every `ConfigurationError` is one case of `Error`. A converter's
  `ValueError` is the `Rejected` outcome, and the engines turn it into
  `NotConvertible` or `NotConvertibleElement`. `parse_uri_spec` raises its own
  `ConfigurationError`, which is not a `ValueError`, so it passes through the
  engines unchanged (`Raised`). `config_manager.exceptions` is not part of this
  model, so the model takes it as given that `ConfigurationError` does not
  derive from `ValueError`. A malformed base64 pass is `InvalidBase64`.
- **`decode_iterations`.** It is a `cached_property`. The model recomputes it
  on each use of `_decode(…, iteration=0)`. This changes nothing observable:
  the parameters never change, and recording a key twice leaves the sets as
  they were.

## Model

| member | source | states |
|---|---|---|
| Config.ConfigManager.constructor | polyaxon/config_manager/config_manager.py:18-22 | the manager keeps the given mapping and starts with all three key sets empty; `Valid()` holds (secret ⊆ requested, local ⊆ requested, requested ⊆ parameter keys) |
| Config.ConfigManager.ParamsStartswith | polyaxon/config_manager/config_manager.py:36-37 | only parameter keys are returned |
| Config.ConfigManager.ParamsStartswithExactly | polyaxon/config_manager/config_manager.py:36-37 | a key is returned exactly when it is a parameter key of the form `term + rest` |
| Config.ConfigManager.ParamsEndswith | polyaxon/config_manager/config_manager.py:39-40 | only parameter keys are returned |
| Config.ConfigManager.ParamsEndswithExactly | polyaxon/config_manager/config_manager.py:39-40 | a key is returned exactly when it is a parameter key of the form `rest + term` |
| Config.Exported | polyaxon/config_manager/config_manager.py:42-51 | the exported keys are requested keys; with both flags set they are all of them; without `include_secrets` no secret key is exported, and without `include_locals` no local key |
| Config.ConfigManager.GetRequestedParams | polyaxon/config_manager/config_manager.py:42-51 | the loop builds a mapping whose keys are exactly the requested keys minus the secret ones (unless `include_secrets`) and minus the local ones (unless `include_locals`); each value is the parameter's own value, or its `'{}'.format` rendering when `to_str` |
| Config.ConfigManager.AddKey | polyaxon/config_manager/config_manager.py:348-353 | the key joins the requested keys, and the secret and local keys according to the flags; nothing else changes, and `Valid()` is preserved |
| Config.ConfigManager.GetTypedValue | polyaxon/config_manager/config_manager.py:385-406 | returns `Resolution.TypedValue`; the key joins the sets (per the flags) exactly when it holds a string or a value of the target shape, even when the lookup then fails; `Valid()` is preserved |
| Config.ConvertItems | polyaxon/config_manager/config_manager.py:450-464 | the element loop computes `Resolution.ConvertedList`: every element converted or kept in order, or the error of the first bad element |
| Config.ConfigManager.GetTypedListValue | polyaxon/config_manager/config_manager.py:432-464 | returns `Resolution.TypedListValue`; the key is recorded as by a single lookup with target `list` |
| Config.ConfigManager.GetInt | polyaxon/config_manager/config_manager.py:53-90 | returns the list engine's outcome with `is_list` and the single-value engine's outcome otherwise, with target `int` and converter `int`; a success is the default of a missing key, an `int` or `bool`, or (with `is_list`) the default or a list of these; records as the engine does |
| Config.ConfigManager.GetFloat | polyaxon/config_manager/config_manager.py:92-129 | as `GetInt`, with target `float` and converter `float` |
| Config.ConfigManager.GetBoolean | polyaxon/config_manager/config_manager.py:131-168 | as `GetInt`, with target `bool` and converter `strtobool` |
| Config.ConfigManager.GetString | polyaxon/config_manager/config_manager.py:170-207 | as `GetInt`, with target and converter `str` |
| Config.ConfigManager.GetDict | polyaxon/config_manager/config_manager.py:209-260 | with `is_list`: the list engine with target Mapping and `convert_to_dict`; otherwise `Resolution.DictValue`: the result is the default or a non-empty mapping; records as the engine does |
| Config.ConfigManager.GetUri | polyaxon/config_manager/config_manager.py:262-299 | as `GetInt`, with target `UriSpec` and converter `parse_uri_spec`, whose own error passes through |
| Config.ConfigManager.GetList | polyaxon/config_manager/config_manager.py:301-336 | a stored string gives the list of its comma-separated segments; a stored value that is not a string is returned unchanged; records as a single lookup with target `list` |
| Config.ConfigManager.DecodeIterations | polyaxon/config_manager/config_manager.py:32-34 | `get_int('_POLYAXON_DECODE_ITERATION', is_optional=True, default=1)`: an `int` or `bool`, or 1 when the key is absent; only the requested keys can grow |
| Config.ConfigManager.Decode | polyaxon/config_manager/config_manager.py:482-490 | a non-zero `iteration` gives that many strict decoding passes (none when it is negative), records nothing, and fails with `InvalidBase64` on a malformed pass; `iteration == 0` uses `decode_iterations` (1 when the key is absent), fails with its error, and adds exactly that key to the requested keys when the lookup records it, keeping every key requested before |
| Config.DecodeOutcomeEncode | polyaxon/config_manager/config_manager.py:482-494 | `_decode(_encode(s), iteration=1) == s`, and `n` passes undo `n` encodings |
| Config.IterationCount | polyaxon/config_manager/config_manager.py:482-488 | how `range(iteration)` reads the `decode_iterations` value: an `int` as itself, a `bool` as 0 or 1; it is applied only to values of the integer type, which `DecodeIterations` guarantees |
| Config.DecodeOutcome | polyaxon/config_manager/config_manager.py:482-490 | `iteration` decoding passes over the value, with a malformed pass raising `InvalidBase64`; `DecodeOutcomeEncode` proves it undoes `_encode` |
| Resolution.ConvertUri | polyaxon/config_manager/config_manager.py:466-480 | `parse_uri_spec` used as a converter returns a `UriSpec` or raises its own error, never a `ValueError` |
| Resolution.ConvertCommaList | polyaxon/config_manager/config_manager.py:320-327 | `parse_list` used as a converter always succeeds with a list |
| Resolution.IntConverter | polyaxon/config_manager/config_manager.py:76 | the converter of `get_int`: `int(x)`, its `ValueError` as `Rejected`; it yields integers (`ConvertersYieldTargetShape`) |
| Resolution.FloatConverter | polyaxon/config_manager/config_manager.py:115 | the converter of `get_float`: `float(x)`, its `ValueError` as `Rejected`; it yields floats |
| Resolution.BoolConverter | polyaxon/config_manager/config_manager.py:154 | the converter of `get_boolean`: `bool(strtobool(x))`, its `ValueError` as `Rejected`; it yields booleans |
| Resolution.StrConverter | polyaxon/config_manager/config_manager.py:193 | the converter of `get_string`: `str(x)`, which returns the string itself and never raises |
| Resolution.DictConverter | polyaxon/config_manager/config_manager.py:230-234 | `convert_to_dict`: `json.loads(x)` when that is a mapping, otherwise a `ValueError` (`Rejected`); it yields mappings |
| Resolution.JsonConverter | polyaxon/config_manager/config_manager.py:434 | `json.loads`, the converter with which the list engine fetches its list; a parse failure is a `ValueError` |
| Resolution.ConvertersYieldTargetShape | polyaxon/config_manager/config_manager.py:53-336 | each getter's converter returns values of that getter's target type: `int`, `float`, `strtobool`, `str`, `convert_to_dict`, `parse_uri_spec` and `parse_list` |
| ConfigValues.HasShape | polyaxon/config_manager/config_manager.py:402 | `isinstance(value, target_type)`, as also used at lines 393, 446, 452 and 458: a value has its own type, and a `bool` also counts as an `int` |
| ConfigValues.Truthy | polyaxon/config_manager/config_manager.py:441-442 | `if not value:` (also line 254): `None`, `False`, zero, a float of ±0.0 and empty strings, lists and dicts are falsy; anything else, a `UriSpec` included, is truthy |
| Resolution.CheckOptions | polyaxon/config_manager/config_manager.py:355-360 | a value passes exactly when the options are empty or some option is `==` to it in Python's sense (`InOptions`); otherwise the error is `NotAnOption(key, value)` |
| Resolution.InOptions | polyaxon/config_manager/config_manager.py:357 | `value in options`: some option is `==` to the value in Python's sense (`PyEq`) |
| Resolution.ListedIsAnOption | polyaxon/config_manager/config_manager.py:357 | a value that occurs in the options is `==` to one of them, so it passes |
| Resolution.StrInOptions | polyaxon/config_manager/config_manager.py:357 | a string is `==` only to the same string, so it passes exactly when it is listed |
| Resolution.BoolIntOptions | polyaxon/config_manager/config_manager.py:357 | `True` passes the options `[1]`, `0` passes `[False]`, and `2` does not pass `[True]` |
| ConfigValues.PyEq | polyaxon/config_manager/config_manager.py:357 | Python `==` on values: `True == 1`, `False == 0`, containers compared element by element |
| ConfigValues.PyEqReflexive | polyaxon/config_manager/config_manager.py:357 | every value is `==` to itself |
| ConfigValues.PyEqSymmetric | polyaxon/config_manager/config_manager.py:357 | `==` is symmetric, so it does not matter which side `in` compares from |
| Resolution.TypedValue | polyaxon/config_manager/config_manager.py:385-406 | every failure is a missing key, a value outside the options, a value that is not convertible, or the converter's own error; an absent key fails exactly when it is not optional |
| Resolution.ConversionOutcome | polyaxon/config_manager/config_manager.py:397-400 | the `except ValueError` step: a converted value is returned, a `ValueError` becomes `NotConvertible(key, raw string, target)`, and the converter's own `ConfigurationError` passes through |
| Resolution.MissingKeyOutcome | polyaxon/config_manager/config_manager.py:385-391 | an absent key returns `default` unchanged when optional, else `MissingKey`; it is never recorded |
| Resolution.StringValueOutcome | polyaxon/config_manager/config_manager.py:393-400 | a string value is recorded; options are checked against the raw string before any conversion; then the converter's result is returned, and its `ValueError` becomes `NotConvertible` |
| Resolution.NativeValueOutcome | polyaxon/config_manager/config_manager.py:402-406 | a non-string value is recorded exactly when it has the target type; then it is returned unchanged, unconverted, if the options admit it; any other non-string value is `NotConvertible` |
| Resolution.TypedValueShape | polyaxon/config_manager/config_manager.py:385-405 | with a converter that yields the target type, a success is the default of a missing key or a value of the target type |
| Resolution.Recorded | polyaxon/config_manager/config_manager.py:393-405 | the key that a lookup adds to a set: itself exactly when the flag is set and the key holds a string or a value of the fetched type |
| Resolution.ConvertedList | polyaxon/config_manager/config_manager.py:450-464 | succeeds exactly when every element converts; then it has the same length and each position holds that element's conversion; otherwise the error comes from the first element that fails |
| Resolution.FirstFailure | polyaxon/config_manager/config_manager.py:451-463 | when every element before position `i` converts and element `i` does not, the list fails with element `i`'s error |
| Resolution.ConvertElement | polyaxon/config_manager/config_manager.py:452-463 | one element of the fetched list: a string is converted (its `ValueError` naming the element), a value of the target type is kept, anything else raises `NotConvertibleElement`; `TypedListElements` and `ConvertedList` state its use |
| Resolution.TypedListValue | polyaxon/config_manager/config_manager.py:432-464 | `_get_typed_list_value`: the key is fetched as a `list` through `json.loads` with the same flags and options, and `ListOutcome` applied; `TypedListShape`, `TypedListElements`, `TypedListFalsyGivesDefault` and `TypedListNonListRaises` state its outcomes |
| Resolution.ListOutcome | polyaxon/config_manager/config_manager.py:441-464 | what the list engine makes of the fetched value: the fetch error, the default for a falsy value, `NotConvertible` for a non-list, otherwise `ConvertedList` |
| Resolution.TypedListShape | polyaxon/config_manager/config_manager.py:441-464 | with a converter that yields the target type, a success is the default verbatim after a falsy fetch, or a non-empty list of values of the target type |
| Resolution.TypedListElements | polyaxon/config_manager/config_manager.py:450-464 | when the fetched value is a non-empty list, a success keeps its length and order, replacing each string by its conversion and keeping every other element |
| Resolution.TypedListFalsyGivesDefault | polyaxon/config_manager/config_manager.py:441-442 | an empty or falsy fetched value makes the list engine return the default verbatim, even when the default is not a list |
| Resolution.TypedListNonListRaises | polyaxon/config_manager/config_manager.py:441-448 | a truthy fetched value that is not a list raises `NotConvertible`; so does an absent optional key whose default is truthy and not a list |
| Resolution.DictValue | polyaxon/config_manager/config_manager.py:245-260 | `get_dict` without `is_list`: the single-value lookup with target Mapping and `convert_to_dict`, then the default for a falsy value and `NotConvertible` for a non-mapping; `DictValueOutcome` states its outcomes |
| Resolution.DictValueOutcome | polyaxon/config_manager/config_manager.py:245-260 | `get_dict` returns its default or a non-empty mapping; an absent optional key with a truthy default that is not a mapping raises `NotConvertible` |
| Resolution.LookupShaped | polyaxon/config_manager/config_manager.py:73-90 | whichever engine `is_list` selects, a success with a converter that yields the target type is the default or a value (or list of values) of the target type |
| Resolution.Lookup | polyaxon/config_manager/config_manager.py:73-90 | each getter's `if is_list:` dispatch: the list engine with `is_list`, the single-value engine otherwise; `LookupShaped` states what a success returns |
| PyText.Split | polyaxon/config_manager/config_manager.py:321 | `str.split(sep)`: the pieces contain no separator, there is at least one, and joining them with the separator gives the input |
| PyText.SplitCount | polyaxon/config_manager/config_manager.py:321 | there is one more piece than there are separators |
| PyText.SplitJoin | polyaxon/config_manager/config_manager.py:321 | splitting the join of separator-free pieces gives the pieces back |
| PyText.StripStart | polyaxon/config_manager/config_manager.py:324 | the `lstrip` half of `part.strip()`: no longer than the input, and not starting with whitespace |
| PyText.StripEnd | polyaxon/config_manager/config_manager.py:324 | the `rstrip` half of `part.strip()`: no longer than the input, and not ending with whitespace |
| PyText.StripStartSlice | polyaxon/config_manager/config_manager.py:324 | `lstrip` removes a prefix made only of whitespace, and what remains does not start with whitespace |
| PyText.StripEndSlice | polyaxon/config_manager/config_manager.py:324 | `rstrip` removes a suffix made only of whitespace, and what remains does not end with whitespace |
| PyText.Strip | polyaxon/config_manager/config_manager.py:324 | `str.strip()` neither starts nor ends with whitespace |
| PyText.StripSlice | polyaxon/config_manager/config_manager.py:324 | a stripped string is a contiguous slice of the input |
| PyText.StripStripped | polyaxon/config_manager/config_manager.py:324 | stripping a string without surrounding whitespace changes nothing |
| PyText.StripChars | polyaxon/config_manager/config_manager.py:324 | every character of the stripped string occurs in the input |
| PyText.Compact | polyaxon/config_manager/config_manager.py:323-326 | the kept parts are non-empty and stripped, and there are no more of them than input parts |
| PyText.CompactSnoc | polyaxon/config_manager/config_manager.py:323-326 | one more part extends the result by that part, stripped, when it is not empty |
| PyText.CompactClean | polyaxon/config_manager/config_manager.py:323-326 | parts that are already non-empty and stripped are kept as they are |
| PyText.StripParts | polyaxon/config_manager/config_manager.py:322-327 | the appending loop of `parse_list` keeps exactly the stripped, non-empty parts, in order |
| PyText.ParseList | polyaxon/config_manager/config_manager.py:320-327 | `parse_list(v)` is the stripped, non-empty comma-separated segments of `v`, in order |
| PyText.CommaSegments | polyaxon/config_manager/config_manager.py:320-327 | the segments `parse_list` keeps: the stripped, non-empty comma-separated parts; `CommaSegmentsClean` and `CommaSegmentsJoin` state their properties |
| PyText.CommaSegmentsClean | polyaxon/config_manager/config_manager.py:320-327 | no segment is empty, has surrounding whitespace or contains a comma |
| PyText.CommaSegmentsJoin | polyaxon/config_manager/config_manager.py:320-327 | joining clean items with commas and parsing the result gives the items back |
| UriParsing.ParseUriSpec | polyaxon/config_manager/config_manager.py:466-480 | a success is a spec with no `@` or `:` in user or password and no `@` in host, and `user + ":" + password + "@" + host` is the input; a failure is `InvalidUriSpec(input)` |
| UriParsing.ParseFormat | polyaxon/config_manager/config_manager.py:466-480 | every such spec is parsed back from its own text |
| UriParsing.ParseSucceedsIff | polyaxon/config_manager/config_manager.py:466-480 | parsing succeeds exactly on the texts of such specs |
| UriParsing.ParseSucceedsIffCounts | polyaxon/config_manager/config_manager.py:467-478 | parsing succeeds exactly when the text holds one `@` and the part before it holds one `:` |
| UriParsing.HostMayHoldColon | polyaxon/config_manager/config_manager.py:473-480 | `user:pass@db:5432` parses with host `db:5432` |
| UriParsing.AtCountRejected | polyaxon/config_manager/config_manager.py:467-471 | a text without an `@`, or with more than one, is rejected |
| UriParsing.NoColonRejected | polyaxon/config_manager/config_manager.py:474-478 | a text without a `:` is rejected |
| Base64.Symbol | polyaxon/config_manager/config_manager.py:494 | no 6-bit value is written as the padding character |
| Base64.SextetOf | polyaxon/config_manager/config_manager.py:486 | a character read as a 6-bit value is the alphabet symbol of that value |
| Base64.Encode | polyaxon/config_manager/config_manager.py:492-494 | the output has 4 characters for every started group of 3 bytes |
| Base64.EncodeTestVectors | polyaxon/config_manager/config_manager.py:492-494 | `b64encode` gives the test vectors of section 10 of RFC 4648, from "" to "foobar" |
| Base64.DecodeOnce | polyaxon/config_manager/config_manager.py:486 | one strict `b64decode` pass: groups of four characters back to three bytes, canonical padding only, anything else malformed; `DecodeEncode` proves it undoes `Encode` |
| Base64.DecodeEncode | polyaxon/config_manager/config_manager.py:482-494 | decoding undoes encoding |
| Base64.DecodeEncodeTimes | polyaxon/config_manager/config_manager.py:482-494 | `n` decoding passes undo `n` encodings |
| Base64.DecodeTimes | polyaxon/config_manager/config_manager.py:488-490 | `iteration` decoding passes, none when it is not positive (as `range`), failing at the first malformed pass; `DecodeEncodeTimes` proves `n` passes undo `n` encodings |
| Base64.DecodeRepeated | polyaxon/config_manager/config_manager.py:488-490 | the loop applies `iteration` decoding passes (none when it is not positive) and fails at the first malformed pass |
| Scenarios.SecretKeyIsRedacted | polyaxon/config_manager/config_manager.py:42-51 | after a secret `get_string("A")` and a plain `get_int("B")`, the default export holds only `B`, and the export with secrets holds both |
| Scenarios.FailedLookupsAreRecorded | polyaxon/config_manager/config_manager.py:393-400 | a string rejected by the options, and a string rejected by the converter, both fail with their errors and are both recorded |
| Scenarios.UnrecordedLookups | polyaxon/config_manager/config_manager.py:385-406 | an absent optional key gives its default, a value of the wrong type fails, and neither is recorded |

## Left out

- `read_configs` (lines 24-30) builds the mapping with an external reader. That reader is not part of this model. Construction starts directly from a map.
- `json.loads`, `int`, `float`, `strtobool` and `'{}'.format` are library code. They are fields of a `Library` value, which the getters take as a parameter. The first four are arbitrary partial functions on strings. `'{}'.format` is an arbitrary total function from values to strings. Nothing is assumed about what they accept or return.
- ConfigValues.PyEq: floats are compared by bit pattern, not by Python's float `==`. So `0.0` and `-0.0` are unequal here, a NaN equals itself, and a float never equals an integer or a boolean (Python has `1 == 1.0`).
- Resolution.CheckOptions: Python's `==` between floats and between a float and an integer (`1 == 1.0`, `0.0 == -0.0`, a NaN unequal to itself) is not modelled. `ConfigValues.PyEq` compares floats by bit pattern and never equates a float with an integer or a boolean.
- Floating point is out of scope. A float is kept as an opaque 64-bit pattern. Its truthiness is "not ±0.0".
- `_encode` and `_decode` encode and decode UTF-8 around base64. The model works on bytes and leaves the UTF-8 step out.
- Base64.DecodeOnce: Python's `b64decode` silently discards characters outside the alphabet and tolerates some padding variants. The model's decoder is strict about characters and padding: it accepts only alphabet characters in groups of four, with `==` or `=` only at the end of the last group, and treats anything else as malformed. Like Python, it ignores the unused low bits of a padded last group, so `Zh==` decodes to `f`.
- Config.ConfigManager.ParamsStartswith and Config.ConfigManager.ParamsEndswith return sets. The list order, which comes from the dict's insertion order, is not modelled.
- Config.ConfigManager.DecodeIterations: the cached `decode_iterations` value is recomputed on each use, as explained above.
- The exact text of error messages is not modelled. `get_dict` and the list engine name the target type `dict` in their messages, and the model leaves that out too. Each error keeps only its case, key, value and target.
- The unused class constant `_PASS` is not modelled.
- Python's `str.strip()` is modelled on code points with Python's whitespace set. Unicode normalisation is not modelled.
- `polyaxon/api/jobs/serializers.py` (REST serializers over the ORM) and `polyaxon/dockerizer/builders/notebooks.py` (a polling loop over a database and Docker) are not part of this model.
