/**
 * The JSON-shaped values the game saves and loads. A dictionary is a map from
 * keys to values; `**kwargs` loading looks keys up in it.
 */
module JsonValue {
  import opened Wrappers

  datatype Value =
    | Int(i: int)
    | Str(s: string)
    | Bool(b: bool)
    | List(items: seq<Value>)
    | Dict(fields: map<string, Value>)

  /** `d[key]` expected to hold an int: a KeyError if absent (a TypeError here if it is not an int). */
  function GetInt(d: map<string, Value>, key: string): (r: Result<int>)
    ensures r.Success? <==> key in d && d[key].Int?
    ensures r.Success? ==> d[key] == Int(r.value)
  {
    if key !in d then Failure(KeyError(key))
    else if d[key].Int? then Success(d[key].i)
    else Failure(TypeError(key))
  }

  function GetStr(d: map<string, Value>, key: string): (r: Result<string>)
    ensures r.Success? <==> key in d && d[key].Str?
    ensures r.Success? ==> d[key] == Str(r.value)
  {
    if key !in d then Failure(KeyError(key))
    else if d[key].Str? then Success(d[key].s)
    else Failure(TypeError(key))
  }

  function GetBool(d: map<string, Value>, key: string): (r: Result<bool>)
    ensures r.Success? <==> key in d && d[key].Bool?
    ensures r.Success? ==> d[key] == Bool(r.value)
  {
    if key !in d then Failure(KeyError(key))
    else if d[key].Bool? then Success(d[key].b)
    else Failure(TypeError(key))
  }

  /**
   * Calling a function whose named parameters are `params` as `f(**d)`
   * succeeds only when `d` has exactly those keys; otherwise a TypeError.
   */
  predicate KwargsMatch(d: map<string, Value>, params: set<string>)
  {
    d.Keys == params
  }
}
