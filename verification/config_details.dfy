/** The per-config detail view (frontend/src/components/ConfigDetails.js):
    its terminal buffers keyed by config id, the run-start reset, and the
    reaction to deletion and deactivation replies. */
module ConfigDetails {
  import opened Wrappers
  import opened Strings
  import opened Json
  import TerminalLines

  /** The run whose output a terminal shows. */
  datatype Run = Run(configId: Json, runNumber: Json)

  /** One config's terminal: its display lines and the run it follows, if any. */
  datatype Terminal = Terminal(lines: seq<string>, currentRun: Option<Run>)

  /** The terminal of a config that has none yet. */
  const EmptyTerminal := Terminal([], None)

  /** `state[key] || {lines: [], currentRun: null}`. */
  function TerminalAt(state: map<string, Terminal>, key: string): (t: Terminal)
    ensures key !in state ==> t == EmptyTerminal
  {
    if key in state then state[key] else EmptyTerminal
  }

  /** True when output of run `msgRunNumber` is shown on terminal `prev`: it
      follows no run, or it follows a run with the same number as strings. */
  predicate Accepts(prev: Terminal, msgRunNumber: Json)
  {
    prev.currentRun.None? || ToStr(msgRunNumber) == ToStr(prev.currentRun.value.runNumber)
  }

  /** `data.output || ''`. */
  function OutputText(output: Json): Json
  {
    if Truthy(output) then output else Str("")
  }

  /** The updater passed to `setTerminalState` for an output message of
      config `key` and run `msgRunNumber`. An accepted message whose output
      is a truthy non-string throws, since only strings have `startsWith`. */
  function OutputUpdate(prevState: map<string, Terminal>, key: string, msgRunNumber: Json, output: Json)
    : Result<map<string, Terminal>>
  {
    var prev := TerminalAt(prevState, key);
    if Accepts(prev, msgRunNumber) then
      var text := OutputText(output);
      if text.Str? then Ok(prevState[key := prev.(lines := TerminalLines.Update(prev.lines, text.s))])
      else Raise(Exception("TypeError", "output.startsWith is not a function"))
    else Ok(prevState)
  }

  /** The updater as the source writes it. Its inline copy of the line
      update is statement for statement `updateTerminalLines`, so the model
      calls that method. */
  method OutputUpdater(prevState: map<string, Terminal>, key: string, msgRunNumber: Json, dataOutput: Json)
    returns (r: Result<map<string, Terminal>>)
    ensures r == OutputUpdate(prevState, key, msgRunNumber, dataOutput)
  {
    var prev := TerminalAt(prevState, key);
    if !Accepts(prev, msgRunNumber) {
      return Ok(prevState);
    }
    var text := OutputText(dataOutput);
    if !text.Str? {
      return Raise(Exception("TypeError", "output.startsWith is not a function"));
    }
    var lines := TerminalLines.UpdateTerminalLines(prev.lines, text.s);
    return Ok(prevState[key := prev.(lines := lines)]);
  }

  /** An output message: status `'output'` and a two-element `from`. */
  predicate IsOutputMessage(data: Json)
  {
    Get(data, "status") == Str("output") && Get(data, "from").Arr? && |Get(data, "from").items| == 2
  }

  /** `a ?? b`. */
  function Coalesce(a: Json, b: Json): Json
  {
    if a.Null? || a.Undefined? then b else a
  }

  /** `Array.isArray(data.args) ? data.args[0] : undefined`. */
  function FirstArg(data: Json): Json
  {
    var args := Get(data, "args");
    if args.Arr? && |args.items| > 0 then args.items[0] else Undefined
  }

  /** A reply about a deletion whose id, compared as strings, is this
      view's config. */
  predicate DeletionMatches(data: Json, configId: Json)
  {
    (Get(data, "command") == Str("delete_config")
     || (Get(data, "status") == Str("ok") && !Get(data, "deleted_id").Undefined?))
    && ToStr(Coalesce(Get(data, "deleted_id"), FirstArg(data))) == ToStr(configId)
  }

  /** A reply about a deactivation whose id, compared as strings, is this
      view's config. */
  predicate CloseMatches(data: Json, configId: Json)
  {
    (Get(data, "command") == Str("close")
     || (Get(data, "status") == Str("ok") && !Get(data, "closed_id").Undefined?))
    && ToStr(Coalesce(Get(data, "closed_id"), FirstArg(data))) == ToStr(configId)
  }

  /** A failed deactivation, whichever config it is about. */
  predicate CloseFailed(data: Json)
  {
    Get(data, "status") == Str("error") && Get(data, "command") == Str("close")
  }

  /** `data.message || "Error deactivating config"`. */
  function CloseErrorText(data: Json): Json
  {
    if Truthy(Get(data, "message")) then Get(data, "message") else Str("Error deactivating config")
  }

  /** The run-start effect fires: the run status is `running` with a truthy
      run number, and a config is shown. */
  predicate ResetFires(runStatus: Json, configId: Json)
  {
    Get(runStatus, "status") == Str("running") && Truthy(Get(runStatus, "runNumber")) && Truthy(configId)
  }

  /** The updater of the run-start effect: the shown config's terminal is
      emptied and follows the new run. */
  function ResetUpdate(prevState: map<string, Terminal>, runStatus: Json, configId: Json): map<string, Terminal>
  {
    prevState[ToStr(configId) := Terminal([], Some(Run(configId, Get(runStatus, "runNumber"))))]
  }

  class Component {
    var configId: Json
    var terminalState: map<string, Terminal>
    var configActive: bool
    var deactivating: bool
    var deactivateError: Json

    constructor(configId: Json)
      ensures this.configId == configId && terminalState == map[]
      ensures !configActive && !deactivating && deactivateError == Null
    {
      this.configId := configId;
      terminalState := map[];
      configActive := false;
      deactivating := false;
      deactivateError := Null;
    }

    /** `getCurrentTerminal()`. */
    function CurrentTerminal(): (t: Terminal)
      reads this
      ensures ToStr(configId) !in terminalState ==> t == EmptyTerminal
    {
      TerminalAt(terminalState, ToStr(configId))
    }

    /** `handleTerminalOutput(event)`: a frame that does not parse, or parses
        to null, changes nothing. Otherwise the deletion check, the
        deactivation checks and the terminal update run in that order. The
        out-parameters say which callbacks were called; `thrown` is the
        exception the terminal updater throws, in which case the terminals
        are unchanged. */
    method HandleTerminalOutput(e: Incoming, hasOnConfigDeleted: bool, hasOnConfigsChanged: bool)
      returns (configDeleted: bool, configsChanged: bool, thrown: Option<Exception>)
      modifies this
      ensures configId == old(configId)
      ensures Payload(e).None? ==>
                !configDeleted && !configsChanged && thrown.None?
                && terminalState == old(terminalState) && configActive == old(configActive)
                && deactivating == old(deactivating) && deactivateError == old(deactivateError)
      ensures Payload(e).Some? ==>
                var data := Payload(e).value;
                && configDeleted == (hasOnConfigDeleted && DeletionMatches(data, configId))
                && configsChanged == (hasOnConfigsChanged && CloseMatches(data, configId))
                && configActive == (old(configActive) && !CloseMatches(data, configId))
                && deactivating == (old(deactivating) && !CloseMatches(data, configId) && !CloseFailed(data))
                && deactivateError == (if CloseFailed(data) then CloseErrorText(data)
                                       else if CloseMatches(data, configId) then Null
                                       else old(deactivateError))
                && (!IsOutputMessage(data) ==> terminalState == old(terminalState) && thrown.None?)
                && (IsOutputMessage(data) ==>
                      var from := Get(data, "from").items;
                      var u := OutputUpdate(old(terminalState), ToStr(from[0]), from[1], Get(data, "output"));
                      && (u.Ok? ==> terminalState == u.value && thrown.None?)
                      && (u.Raise? ==> terminalState == old(terminalState) && thrown == Some(u.error)))
    {
      configDeleted, configsChanged, thrown := false, false, None;
      var p := Payload(e);
      if p.None? {
        return;
      }
      var data := p.value;
      if DeletionMatches(data, configId) && hasOnConfigDeleted {
        configDeleted := true;
      }
      if CloseMatches(data, configId) {
        deactivating := false;
        deactivateError := Null;
        configActive := false;
        if hasOnConfigsChanged {
          configsChanged := true;
        }
      }
      if CloseFailed(data) {
        deactivating := false;
        deactivateError := CloseErrorText(data);
      }
      if IsOutputMessage(data) {
        var from := Get(data, "from").items;
        var u := OutputUpdater(terminalState, ToStr(from[0]), from[1], Get(data, "output"));
        if u.Ok? {
          terminalState := u.value;
        } else {
          thrown := Some(u.error);
        }
      }
    }

    /** The run-start effect, run whenever the run status or the shown
        config changes. */
    method OnRunStatus(runStatus: Json)
      modifies this
      ensures configId == old(configId) && configActive == old(configActive)
      ensures deactivating == old(deactivating) && deactivateError == old(deactivateError)
      ensures terminalState == if ResetFires(runStatus, configId) then ResetUpdate(old(terminalState), runStatus, configId)
                               else old(terminalState)
    {
      if ResetFires(runStatus, configId) {
        terminalState := ResetUpdate(terminalState, runStatus, configId);
      }
    }
  }

  /** An output message touches only the terminal of the config it names:
      every other entry, and every other key, is unchanged. */
  lemma OutputTouchesOnlyItsConfig(prevState: map<string, Terminal>, key: string, msgRunNumber: Json, output: Json)
    requires OutputUpdate(prevState, key, msgRunNumber, output).Ok?
    ensures var m := OutputUpdate(prevState, key, msgRunNumber, output).value;
            && (forall k | k != key :: (k in m <==> k in prevState) && (k in m ==> m[k] == prevState[k]))
            && (key in m ==> m[key].currentRun == TerminalAt(prevState, key).currentRun)
  {
  }

  /** Output of another run than the one the terminal follows, compared as
      strings, is dropped: the state is returned as it was, whatever the
      output holds. */
  lemma StaleRunIgnored(prevState: map<string, Terminal>, key: string, msgRunNumber: Json, output: Json)
    requires key in prevState && prevState[key].currentRun.Some?
    requires ToStr(msgRunNumber) != ToStr(prevState[key].currentRun.value.runNumber)
    ensures OutputUpdate(prevState, key, msgRunNumber, output) == Ok(prevState)
  {
  }

  /** Accepted output, from any run when the terminal follows none, updates
      the lines exactly as `updateTerminalLines` does; a missing or other
      falsy output counts as the empty string. */
  lemma AcceptedOutputUpdatesLines(prevState: map<string, Terminal>, key: string, msgRunNumber: Json, output: Json)
    requires Accepts(TerminalAt(prevState, key), msgRunNumber)
    requires output.Str? || !Truthy(output)
    ensures var text := if output.Str? then output.s else "";
            var m := OutputUpdate(prevState, key, msgRunNumber, output);
            && m.Ok? && key in m.value
            && m.value[key].lines == TerminalLines.Update(TerminalAt(prevState, key).lines, text)
            && |m.value[key].lines| <= TerminalLines.MaxLines
  {
    if !output.Str? {
      assert OutputText(output) == Str("");
    }
  }

  /** After the reset for run `rn` of the shown config, its terminal is
      empty; output of that run is shown from an empty buffer, and output of
      any run whose number differs as a string is dropped. */
  lemma ResetThenOutput(prevState: map<string, Terminal>, runStatus: Json, configId: Json, msgRunNumber: Json, output: string)
    requires ResetFires(runStatus, configId)
    ensures var s := ResetUpdate(prevState, runStatus, configId);
            && s[ToStr(configId)].lines == []
            && (forall k | k in prevState && k != ToStr(configId) :: k in s && s[k] == prevState[k])
            && (ToStr(msgRunNumber) != ToStr(Get(runStatus, "runNumber")) ==>
                  OutputUpdate(s, ToStr(configId), msgRunNumber, Str(output)) == Ok(s))
            && (ToStr(msgRunNumber) == ToStr(Get(runStatus, "runNumber")) ==>
                  OutputUpdate(s, ToStr(configId), msgRunNumber, Str(output))
                  == Ok(s[ToStr(configId) := Terminal(TerminalLines.Update([], output), Some(Run(configId, Get(runStatus, "runNumber"))))]))
  {
  }

  /** Ids are compared as strings: a deletion reply naming config 5 by
      number matches the view showing config "5", and one that gives the
      id only in `args` matches as well. */
  lemma DeletionMatchesAsStrings()
    ensures DeletionMatches(Obj(map["status" := Str("ok"), "deleted_id" := Num(5)]), Str("5"))
    ensures DeletionMatches(Obj(map["command" := Str("delete_config"), "args" := Arr([Str("5")])]), Num(5))
    ensures !DeletionMatches(Obj(map["status" := Str("ok"), "deleted_id" := Num(6)]), Str("5"))
  {
    assert IntToDecimal(5) == "5";
    assert IntToDecimal(6) == "6";
  }
}
