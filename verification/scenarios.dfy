/**
 * Whole-object behaviour of `ConfigManager` over a sequence of calls: what the
 * export shows after secret and plain lookups, and what a failed lookup leaves
 * behind in the key sets.
 */
module Scenarios {
  import opened Results
  import opened ConfigValues
  import opened Config

  /**
   * After `get_string("A", is_secret=True)` and `get_int("B")`, the default export
   * holds only `B`, and the export with secrets holds both.
   */
  method SecretKeyIsRedacted(lib: Library) returns (plain: set<string>, withSecrets: set<string>)
    ensures plain == {"B"}
    ensures withSecrets == {"A", "B"}
  {
    var m := new ConfigManager(map["A" := VStr("token"), "B" := VInt(3)]);
    var a := m.GetString(lib, "A", isSecret := true);
    var b := m.GetInt(lib, "B");
    assert m.requestedKeys == {"A", "B"} && m.secretKeys == {"A"} && m.localKeys == {};
    var p := m.GetRequestedParams(lib);
    var q := m.GetRequestedParams(lib, includeSecrets := true);
    plain, withSecrets := p.Keys, q.Keys;
  }

  /**
   * A string that is not among the options fails, and one that the converter
   * rejects fails too; in both cases the key has already been recorded.
   */
  method FailedLookupsAreRecorded(lib: Library) returns (optionResult: Result<Value, Error>,
                                                         convertResult: Result<Value, Error>,
                                                         requested: set<string>)
    requires lib.parseInt("many") == None
    ensures optionResult == Err(NotAnOption("X", VStr("c")))
    ensures convertResult == Err(NotConvertible("N", VStr("many"), IntShape))
    ensures requested == {"X", "N"}
  {
    var m := new ConfigManager(map["X" := VStr("c"), "N" := VStr("many")]);
    optionResult := m.GetString(lib, "X", options := [VStr("a"), VStr("b")]);
    convertResult := m.GetInt(lib, "N");
    requested := m.requestedKeys;
  }

  /**
   * A missing optional key gives its default and records nothing; a value of the
   * wrong shape fails and records nothing either.
   */
  method UnrecordedLookups(lib: Library) returns (missing: Result<Value, Error>, mismatch: Result<Value, Error>,
                                                  requested: set<string>)
    ensures missing == Ok(VInt(7))
    ensures mismatch == Err(NotConvertible("F", VList([]), FloatShape))
    ensures requested == {}
  {
    var m := new ConfigManager(map["F" := VList([])]);
    missing := m.GetInt(lib, "absent", isOptional := true, defaultValue := VInt(7));
    mismatch := m.GetFloat(lib, "F");
    requested := m.requestedKeys;
  }
}
