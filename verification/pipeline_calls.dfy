/** What the two `exec_task` functions do with a dictionary of component
    functions: look each one up by key and call it. The components
    themselves are not modelled; a call is recorded with the key it went to
    and its arguments, an argument being either a value given to the task
    or the result of an earlier call. */
module PipelineCalls {
  import opened Wrappers
  import opened Json

  datatype Arg = Given(value: Json) | ResultOf(key: string)

  datatype Call = Call(key: string, args: seq<Arg>)

  /** The calls made, in order, and the exception that ended the task, if
      any. */
  datatype Trace = Trace(calls: seq<Call>, error: Option<Exception>)

  /** The module part of a dotted function path: the module's dotted name,
      the function's name and the file the module is loaded from. */
  datatype FnRef = FnRef(moduleName: string, fn: string, modulePath: string)

  function KeyError(key: string): Exception
  {
    Exception("KeyError", "'" + key + "'")
  }

  /** Unpacking `path.rsplit(".", 1)` into two names when there is no dot. */
  const UnpackError: Exception := Exception("ValueError", "not enough values to unpack (expected 2, got 1)")

  /** `kwargs.get(name, None)`. */
  function KwArg(kwargs: map<string, Json>, name: string): Json
  {
    if name in kwargs then kwargs[name] else Null
  }

  /** Looks each call's key up just before making the call: the first
      missing key raises `KeyError`, and the calls before it have been
      made. */
  function Invoke(keys: set<string>, calls: seq<Call>): (t: Trace)
    ensures |t.calls| <= |calls| && t.calls == calls[..|t.calls|]
    ensures t.error.None? <==> forall i | 0 <= i < |calls| :: calls[i].key in keys
    ensures t.error.None? ==> t.calls == calls
    ensures t.error.Some? ==>
              |t.calls| < |calls| && calls[|t.calls|].key !in keys
              && t.error.value == KeyError(calls[|t.calls|].key)
              && forall i | 0 <= i < |t.calls| :: calls[i].key in keys
  {
    if calls == [] then Trace([], None)
    else if calls[0].key !in keys then Trace([], Some(KeyError(calls[0].key)))
    else
      var t := Invoke(keys, calls[1..]);
      assert forall i | 1 <= i < |calls| :: calls[i] == calls[1..][i - 1];
      Trace([calls[0]] + t.calls, t.error)
  }
}
