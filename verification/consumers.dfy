/** The back end's socket consumer (`KMEConsumer.receive_json` in
    kmengine/consumers.py): validates each decoded request, runs the
    command on its `KernelCLI` and sends replies. The Config and
    Calculation tables are maps held by the consumer; a new row's id is a
    parameter, as the database picks it. */
module Consumers {
  import opened Wrappers
  import opened Strings
  import opened Json
  import opened KernelCli

  /** The value of a string of decimal digits. */
  function DecimalValue(s: string): nat
    requires AllDigits(s)
    decreases |s|
  {
    if s == [] then 0 else 10 * DecimalValue(s[..|s| - 1]) + (s[|s| - 1] as int - '0' as int)
  }

  predicate AllDigits(s: string)
  {
    forall i | 0 <= i < |s| :: '0' <= s[i] <= '9'
  }

  /** Reading back the decimal rendering of a natural number gives it back. */
  lemma {:induction false} DecimalRoundTrip(n: nat)
    ensures AllDigits(NatToDecimal(n)) && DecimalValue(NatToDecimal(n)) == n
  {
    var s := NatToDecimal(n);
    if n >= 10 {
      DecimalRoundTrip(n / 10);
      assert s[..|s| - 1] == NatToDecimal(n / 10);
    }
    assert s[|s| - 1] == Digit(n % 10);
  }

  /** Python `int(v)` of a decoded value: integers as they are, booleans as
      0 and 1, strings of decimal digits with an optional sign; anything else
      raises. */
  function PyInt(v: Json): (r: Result<int>)
    ensures v.Num? ==> r == Ok(v.n)
    ensures v.Str? && v.s != [] && AllDigits(v.s) ==> r == Ok(DecimalValue(v.s))
    ensures v.Str? && r.Raise? ==> r.error.kind == "ValueError"
  {
    match v
    case Num(n) => Ok(n)
    case Bool(b) => Ok(if b then 1 else 0)
    case Str(s) =>
      if s != [] && AllDigits(s) then Ok(DecimalValue(s))
      else if |s| > 1 && (s[0] == '-' || s[0] == '+') && AllDigits(s[1..]) then
        var m: int := DecimalValue(s[1..]);
        Ok(if s[0] == '-' then -m else m)
      else Raise(Exception("ValueError", "invalid literal for int() with base 10: '" + s + "'"))
    case Undefined => Raise(Exception("TypeError", TypeErrorText("NoneType")))
    case Null => Raise(Exception("TypeError", TypeErrorText("NoneType")))
    case Arr(_) => Raise(Exception("TypeError", TypeErrorText("list")))
    case Obj(_) => Raise(Exception("TypeError", TypeErrorText("dict")))
  }

  function TypeErrorText(typeName: string): string
  {
    "int() argument must be a string, a bytes-like object or a real number, not '" + typeName + "'"
  }

  /** `int(str(n)) == n`: an id the front end sends as a string is read back
      as the same integer. */
  lemma PyIntOfDecimal(n: int)
    ensures PyInt(Str(IntToDecimal(n))) == Ok(n)
  {
    if n >= 0 {
      DecimalRoundTrip(n);
    } else {
      NegativeDecimal(n);
    }
  }

  lemma NegativeDecimal(n: int)
    requires n < 0
    ensures PyInt(Str(IntToDecimal(n))) == Ok(n)
  {
    var m: nat := -n;
    var d := NatToDecimal(m);
    DecimalRoundTrip(m);
    var v := DecimalValue(d);
    assert v == m;
    MinusSign(d);
    assert IntToDecimal(n) == "-" + d;
  }

  /** A minus sign in front of decimal digits negates their value. */
  lemma MinusSign(d: string)
    requires d != [] && AllDigits(d)
    ensures PyInt(Str("-" + d)) == Ok(-(DecimalValue(d) as int))
  {
    var s := "-" + d;
    assert s[0] == '-' && s[1..] == d;
  }

  /** A request after validation. */
  datatype Command =
    | UpdateCmd
    | CloseCmd(configId: int)
    | RunCmd(configId: int, indexer: Json, pathOrQuery: Json)
    | ConfigCmd(name: Json, configType: Json, content: Json)
    | Reject(message: string)

  /** `content.get("args", [])`. */
  function ArgsOf(content: Json): Json
    requires content.Obj?
  {
    if "args" in content.fields then content.fields["args"] else Arr([])
  }

  /** `args` as Python's `len` and `[i]` see it, when it has items: a list
      by its elements, a string by its one-character strings. */
  function ArgItems(args: Json): (r: Option<seq<Json>>)
    ensures r.Some? <==> args.Arr? || args.Str?
    ensures args.Arr? ==> r == Some(args.items)
    ensures args.Str? ==> |r.value| == |args.s| && forall i | 0 <= i < |args.s| :: r.value[i] == Str([args.s[i]])
  {
    match args
    case Arr(items) => Some(items)
    case Str(s) => Some(seq(|s|, i requires 0 <= i < |s| => Str([s[i]])))
    case _ => None
  }

  /** The name Python gives the type of a decoded value. */
  function PyTypeName(v: Json): string
  {
    match v
    case Undefined => "NoneType"
    case Null => "NoneType"
    case Bool(_) => "bool"
    case Num(_) => "int"
    case Str(_) => "str"
    case Arr(_) => "list"
    case Obj(_) => "dict"
  }

  const CloseIdRequired: string := "No config_id provided"
  const RunArgsRequired: string := "config_id, indexer and path_or_query required"
  const ConfigArgsRequired: string := "Arguments required: name, type, content"
  const UnknownCommand: string := "Unknown command"

  /** `close`: `int(args[0]) if args else None`, then a truthy id. */
  function ValidateClose(args: seq<Json>): (c: Command)
    ensures args == [] ==> c == Reject(CloseIdRequired)
    ensures c.CloseCmd? ==> args != [] && PyInt(args[0]) == Ok(c.configId) && c.configId != 0
    ensures args != [] && PyInt(args[0]) == Ok(0) ==> c == Reject(CloseIdRequired)
    ensures args != [] && PyInt(args[0]).Ok? && PyInt(args[0]).value != 0 ==> c == CloseCmd(PyInt(args[0]).value)
    ensures args != [] && PyInt(args[0]).Raise? ==> c == Reject(PyInt(args[0]).error.message)
  {
    if args == [] then Reject(CloseIdRequired)
    else match PyInt(args[0])
      case Raise(e) => Reject(e.message)
      case Ok(id) => if id != 0 then CloseCmd(id) else Reject(CloseIdRequired)
  }

  /** `run`: the id is converted first (a bad id raises); then id, indexer
      and path or query must all be truthy. */
  function ValidateRun(args: seq<Json>): (c: Command)
    ensures c.RunCmd? <==>
              |args| >= 3 && PyInt(args[0]).Ok? && PyInt(args[0]).value != 0
              && PyTruthy(args[1]) && PyTruthy(args[2])
    ensures c.RunCmd? ==> c == RunCmd(PyInt(args[0]).value, args[1], args[2])
    ensures (args == [] || PyInt(args[0]).Ok?) && !c.RunCmd? ==> c == Reject(RunArgsRequired)
  {
    var id := if |args| > 0 then PyInt(args[0]) else Ok(0);
    var indexer := if |args| > 1 then args[1] else Null;
    var pathOrQuery := if |args| > 2 then args[2] else Null;
    match id
    case Raise(e) => Reject(e.message)
    case Ok(n) =>
      if n != 0 && PyTruthy(indexer) && PyTruthy(pathOrQuery) then RunCmd(n, indexer, pathOrQuery)
      else Reject(RunArgsRequired)
  }

  /** `config`: at least three arguments. */
  function ValidateConfig(args: seq<Json>): (c: Command)
    ensures |args| < 3 <==> c == Reject(ConfigArgsRequired)
    ensures |args| >= 3 ==> c == ConfigCmd(args[0], args[1], args[2])
  {
    if |args| < 3 then Reject(ConfigArgsRequired) else ConfigCmd(args[0], args[1], args[2])
  }

  /** `close`, `run` or `config` on an `args` value without items. An
      empty or false value reads as no arguments. A dictionary has a length,
      but indexing it with 0 raises `KeyError`, whose text is `0`. None has
      no length; a boolean or an integer has none and cannot be indexed. */
  function ValidateNoItems(command: Json, args: Json): (c: Command)
    requires command in {Str("close"), Str("run"), Str("config")} && ArgItems(args).None?
    ensures c.Reject?
    ensures command == Str("close") && !PyTruthy(args) ==> c == Reject(CloseIdRequired)
    ensures command != Str("close") && !args.Obj? ==>
              c == Reject("object of type '" + PyTypeName(args) + "' has no len()")
    ensures args.Obj? && PyTruthy(args) && (command != Str("config") || |args.fields| >= 3) ==> c == Reject("0")
  {
    if command == Str("close") then
      if !PyTruthy(args) then Reject(CloseIdRequired)
      else if args.Obj? then Reject("0")
      else Reject("'" + PyTypeName(args) + "' object is not subscriptable")
    else if !args.Obj? then Reject("object of type '" + PyTypeName(args) + "' has no len()")
    else if command == Str("run") then
      (if args.fields != map[] then Reject("0") else Reject(RunArgsRequired))
    else if |args.fields| >= 3 then Reject("0")
    else Reject(ConfigArgsRequired)
  }

  /** The validation part of `receive_json`, for a request that is not null. */
  function Validate(content: Json): (c: Command)
    requires content != Null
    ensures !content.Obj? ==> c == Reject("'" + PyTypeName(content) + "' object has no attribute 'get'")
    ensures content.Obj? && Get(content, "command") !in {Str("update"), Str("close"), Str("run"), Str("config")} ==>
              c == Reject(UnknownCommand)
    ensures c.UpdateCmd? <==> content.Obj? && Get(content, "command") == Str("update")
    ensures content.Obj? && ArgItems(ArgsOf(content)).None? ==> !c.CloseCmd? && !c.RunCmd? && !c.ConfigCmd?
  {
    if !content.Obj? then Reject("'" + PyTypeName(content) + "' object has no attribute 'get'")
    else
      var command := Get(content, "command");
      if command == Str("update") then UpdateCmd
      else if command !in {Str("close"), Str("run"), Str("config")} then Reject(UnknownCommand)
      else match ArgItems(ArgsOf(content))
        case None => ValidateNoItems(command, ArgsOf(content))
        case Some(args) =>
          if command == Str("close") then ValidateClose(args)
          else if command == Str("run") then ValidateRun(args)
          else ValidateConfig(args)
  }

  /** A string `args` is indexed character by character: `run` with
      `"1ab"` runs config 1 with indexer `"a"` and query `"b"`, and
      `config` with `"abc"` creates config `"a"` of type `"b"` with content
      `"c"`. */
  lemma StringArgsIndexed()
    ensures Validate(Obj(map["command" := Str("run"), "args" := Str("1ab")])) == RunCmd(1, Str("a"), Str("b"))
    ensures Validate(Obj(map["command" := Str("config"), "args" := Str("abc")]))
            == ConfigCmd(Str("a"), Str("b"), Str("c"))
  {
    var run := Obj(map["command" := Str("run"), "args" := Str("1ab")]);
    var items := ArgItems(Str("1ab")).value;
    assert items == [Str("1"), Str("a"), Str("b")];
    assert AllDigits("1") && DecimalValue("1") == 1;
    assert ArgsOf(run) == Str("1ab");
    var config := Obj(map["command" := Str("config"), "args" := Str("abc")]);
    assert ArgsOf(config) == Str("abc");
    assert ArgItems(Str("abc")).value == [Str("a"), Str("b"), Str("c")];
  }

  /** A falsy `args` of any type, `None` included, closes nothing and asks
      for an id. */
  lemma FalsyCloseArgs(args: Json)
    requires !PyTruthy(args)
    ensures Validate(Obj(map["command" := Str("close"), "args" := args])) == Reject(CloseIdRequired)
  {
    var content := Obj(map["command" := Str("close"), "args" := args]);
    assert ArgsOf(content) == args;
    if args.Str? {
      assert ArgItems(args).value == [];
    }
  }

  /** The `run` request the front end sends for a config: the id as a
      decimal string, the indexer flag and the query. It is accepted with
      the same id, unless the id is 0 or either text is empty. */
  lemma FrontEndRunAccepted(id: int, indexer: string, query: string)
    ensures var c := Validate(Obj(map["command" := Str("run"),
                                      "args" := Arr([Str(IntToDecimal(id)), Str(indexer), Str(query)])]));
            (id != 0 && indexer != [] && query != [] ==> c == RunCmd(id, Str(indexer), Str(query)))
            && (id == 0 || indexer == [] || query == [] ==> c == Reject(RunArgsRequired))
  {
    PyIntOfDecimal(id);
  }

  /** The commands the front end also sends for its config list, its
      scripts and its reports are unknown to this consumer. */
  lemma FrontEndOnlyCommandsUnknown(command: string, args: seq<Json>)
    requires command in {"list_configs", "delete_config", "list_scripts", "delete_script",
                         "list_calculations", "config_creation_info"}
    ensures Validate(Obj(map["command" := Str(command), "args" := Arr(args)])) == Reject(UnknownCommand)
  {
  }

  function Frame(status: string, key: string, value: Json): Json
  {
    Obj(map["status" := Str(status), key := value])
  }

  function OutputFrame(configId: int, calcId: int, text: string): Json
  {
    Obj(map["status" := Str("output"), "from" := Arr([Num(configId), Num(calcId)]), "output" := Str(text)])
  }

  /** One output frame per forwarded text, in order. */
  function OutputFrames(configId: int, calcId: int, texts: seq<string>): (r: seq<Json>)
    ensures |r| == |texts|
    ensures forall i | 0 <= i < |texts| :: r[i] == OutputFrame(configId, calcId, texts[i])
  {
    if texts == [] then [] else [OutputFrame(configId, calcId, texts[0])] + OutputFrames(configId, calcId, texts[1..])
  }

  const MissingConfig: string := "Config matching query does not exist."

  /** The reply that ends a run: "Execution finished" when a status came
      back, otherwise an error carrying the exception's text. */
  function FinalReply(r: Result<string>): (j: Json)
    ensures Get(j, "status") == Str(if r.Ok? then "ok" else "error")
    ensures r.Raise? ==> Get(j, "message") == Str(r.error.message)
  {
    if r.Ok? then Frame("ok", "message", Str("Execution finished"))
    else Frame("error", "message", Str(r.error.message))
  }

  /** What a request ran: nothing, or a pipeline run with its result and
      the texts it forwarded. */
  datatype Outcome = NoRun | Ran(r: Result<string>, outputs: seq<string>)

  class Consumer {
    const cli: KernelCli
    var configs: map<int, string>       // Config rows: id -> content
    var calculations: map<int, string>  // Calculation rows: id -> status
    var replies: seq<Json>

    ghost predicate Valid()
      reads this, cli
    {
      cli.Valid()
    }

    constructor()
      ensures Valid() && fresh(cli) && configs == map[] && calculations == map[] && replies == []
      ensures cli.pipelines == map[] && cli.live == {}
    {
      cli := new KernelCli();
      configs := map[];
      calculations := map[];
      replies := [];
    }

    /** `disconnect`: every kernel is shut down and forgotten. */
    method Disconnect()
      requires Valid()
      modifies cli
      ensures Valid() && cli.pipelines == map[] && cli.live == {}
    {
      cli.ShutdownAllKernels();
    }

    /** `update`: replies with the pipelines whose kernels are alive. */
    method HandleUpdate()
      requires Valid()
      modifies this, cli
      ensures Valid() && configs == old(configs) && calculations == old(calculations)
      ensures cli.pipelines == old(cli.pipelines) && cli.live == old(cli.live)
      ensures exists good: seq<int> ::
                replies == old(replies) + [Frame("ok", "pipelines", Arr(Nums(good)))]
                && (forall p :: p in good <==> p in cli.pipelines && cli.pipelines[p] in cli.live)
    {
      var good, bad := cli.Update();
      replies := replies + [Frame("ok", "pipelines", Arr(Nums(good)))];
    }

    /** `close` with a truthy id: replies with the kernel manager's message. */
    method HandleClose(id: int)
      requires Valid()
      modifies this, cli
      ensures Valid() && configs == old(configs) && calculations == old(calculations)
      ensures cli.pipelines == old(cli.pipelines)
      ensures id !in cli.pipelines ==>
                replies == old(replies) + [Frame("ok", "message", Str("No pipeline " + IntToDecimal(id) + " running\n"))]
                && cli.live == old(cli.live)
      ensures id in cli.pipelines ==>
                replies == old(replies) + [Frame("ok", "message", Str("Pipeline " + IntToDecimal(id) + " closed\n"))]
                && cli.live == old(cli.live) - {cli.pipelines[id]}
    {
      var msg := cli.ClosePipeline(id);
      replies := replies + [Frame("ok", "message", Str(msg))];
    }

    /** `config` with three arguments: stores a new row, whose content is
        the text of the third argument, and replies with its id. */
    method HandleConfig(name: Json, body: Json, newConfigId: int)
      modifies this
      ensures configs == old(configs)[newConfigId := PyStr(body)] && calculations == old(calculations)
      ensures replies == old(replies) + [Obj(map[
                "status" := Str("ok"),
                "message" := Str("Config '" + PyStr(name) + "' created"),
                "config_id" := Num(newConfigId)])]
    {
      configs := configs[newConfigId := PyStr(body)];
      replies := replies + [Obj(map["status" := Str("ok"), "message" := Str("Config '" + PyStr(name) + "' created"),
                                    "config_id" := Num(newConfigId)])];
    }

    /** `run` with truthy arguments: looks the config up, records a running
        calculation, runs the pipeline while forwarding its output, then
        records the status and replies. An exception from the run leaves
        the calculation running and becomes an error reply. */
    method HandleRun(id: int, indexer: Json, pathOrQuery: Json, calcId: int, msgs: seq<IopubMsg>)
      returns (r: Result<string>, outputs: seq<string>)
      requires Valid() && calcId !in calculations
      modifies this, cli
      ensures Valid() && configs == old(configs)
      ensures id !in configs ==>
                r == Raise(Exception("DoesNotExist", MissingConfig)) && outputs == []
                && replies == old(replies) + [Frame("error", "message", Str(MissingConfig))]
                && calculations == old(calculations)
                && cli.pipelines == old(cli.pipelines) && cli.live == old(cli.live)
      ensures id in configs ==>
                replies == old(replies) + OutputFrames(id, calcId, outputs)
                           + [FinalReply(r)]
                && calculations == old(calculations)[calcId := if r.Ok? then r.value else "running"]
      ensures id in configs && id in old(cli.pipelines) && old(cli.pipelines[id]) !in old(cli.live) ==>
                r == Raise(MissingKernel(old(cli.pipelines[id]))) && outputs == []
                && replies == old(replies) + [Frame("error", "message",
                                                    Str(MissingKernel(old(cli.pipelines[id])).message))]
                && calculations[calcId] == "running"
      ensures r.Ok? ==> r.value == "ok" || r.value == "fail"
    {
      if id !in configs {
        r := Raise(Exception("DoesNotExist", MissingConfig));
        outputs := [];
        replies := replies + [Frame("error", "message", Str(MissingConfig))];
        return;
      }
      r, outputs := RunConfig(id, indexer, pathOrQuery, calcId, msgs);
    }

    /** The part of `run` after the config is found. */
    method RunConfig(id: int, indexer: Json, pathOrQuery: Json, calcId: int, msgs: seq<IopubMsg>)
      returns (r: Result<string>, outputs: seq<string>)
      requires Valid() && id in configs
      modifies this, cli
      ensures Valid() && configs == old(configs)
      ensures replies == old(replies) + OutputFrames(id, calcId, outputs)
                         + [FinalReply(r)]
      ensures calculations == old(calculations)[calcId := if r.Ok? then r.value else "running"]
      ensures id in old(cli.pipelines) && old(cli.pipelines[id]) !in old(cli.live) ==>
                r == Raise(MissingKernel(old(cli.pipelines[id]))) && outputs == []
      ensures r.Ok? ==> r.value == "ok" || r.value == "fail"
    {
      calculations := calculations[calcId := "running"];
      r, outputs := Execute(id, configs[id], indexer, pathOrQuery, msgs);
      replies := replies + OutputFrames(id, calcId, outputs);
      Finish(calcId, r);
    }

    /** After the run: a status is recorded and "Execution finished"
        replied; an exception is replied with its message. */
    method Finish(calcId: int, r: Result<string>)
      modifies this
      ensures configs == old(configs)
      ensures calculations == if r.Ok? then old(calculations)[calcId := r.value] else old(calculations)
      ensures replies == old(replies) + [FinalReply(r)]
    {
      match r
      case Ok(status) =>
        calculations := calculations[calcId := status];
        replies := replies + [Frame("ok", "message", Str("Execution finished"))];
      case Raise(e) =>
        replies := replies + [Frame("error", "message", Str(e.message))];
    }

    /** The run itself, in the kernel manager; only its status is kept. */
    method Execute(id: int, content: string, indexer: Json, pathOrQuery: Json, msgs: seq<IopubMsg>)
      returns (r: Result<string>, outputs: seq<string>)
      requires Valid()
      modifies cli
      ensures Valid()
      ensures r.Ok? ==> r.value == "ok" || r.value == "fail"
      ensures id in old(cli.pipelines) && old(cli.pipelines[id]) !in old(cli.live) ==>
                r == Raise(MissingKernel(old(cli.pipelines[id]))) && outputs == []
    {
      var code;
      r, code, outputs := cli.RunPipeline(id, content, indexer, pathOrQuery, msgs);
    }

    /** `receive_json(content)`. `calcId` and `newConfigId` are the ids the
        database gives a new Calculation or Config row; `msgs` is what the
        kernel publishes while a run executes; `outcome` is what the request
        ran. Every request gets exactly one final reply, after any output
        frames, and each command changes only what its handler changes. */
    method ReceiveJson(content: Json, calcId: int, newConfigId: int, msgs: seq<IopubMsg>)
      returns (outcome: Outcome)
      requires Valid() && calcId !in calculations
      modifies this, cli
      ensures Valid()
      ensures outcome.Ran? <==> content != Null && Validate(content).RunCmd?
      ensures content == Null ==>
                replies == old(replies) + [Frame("error", "message", Str("No data received"))]
                && configs == old(configs) && calculations == old(calculations)
                && cli.pipelines == old(cli.pipelines) && cli.live == old(cli.live)
      ensures content != Null && Validate(content).Reject? ==>
                replies == old(replies) + [Frame("error", "message", Str(Validate(content).message))]
                && configs == old(configs) && calculations == old(calculations)
                && cli.pipelines == old(cli.pipelines) && cli.live == old(cli.live)
      ensures content != Null && Validate(content).UpdateCmd? ==>
                configs == old(configs) && calculations == old(calculations)
                && cli.pipelines == old(cli.pipelines) && cli.live == old(cli.live)
                && exists good: seq<int> ::
                     replies == old(replies) + [Frame("ok", "pipelines", Arr(Nums(good)))]
                     && (forall p :: p in good <==> p in cli.pipelines && cli.pipelines[p] in cli.live)
      ensures content != Null && Validate(content).CloseCmd? ==>
                var id := Validate(content).configId;
                configs == old(configs) && calculations == old(calculations)
                && cli.pipelines == old(cli.pipelines)
                && (id !in cli.pipelines ==>
                      replies == old(replies) + [Frame("ok", "message", Str("No pipeline " + IntToDecimal(id) + " running\n"))]
                      && cli.live == old(cli.live))
                && (id in cli.pipelines ==>
                      replies == old(replies) + [Frame("ok", "message", Str("Pipeline " + IntToDecimal(id) + " closed\n"))]
                      && cli.live == old(cli.live) - {cli.pipelines[id]})
      ensures content != Null && Validate(content).ConfigCmd? ==>
                var c := Validate(content);
                configs == old(configs)[newConfigId := PyStr(c.content)] && calculations == old(calculations)
                && cli.pipelines == old(cli.pipelines) && cli.live == old(cli.live)
                && replies == old(replies) + [Obj(map[
                     "status" := Str("ok"),
                     "message" := Str("Config '" + PyStr(c.name) + "' created"),
                     "config_id" := Num(newConfigId)])]
      ensures content != Null && Validate(content).RunCmd? && Validate(content).configId !in old(configs) ==>
                outcome == Ran(Raise(Exception("DoesNotExist", MissingConfig)), [])
                && replies == old(replies) + [Frame("error", "message", Str(MissingConfig))]
                && configs == old(configs) && calculations == old(calculations)
                && cli.pipelines == old(cli.pipelines) && cli.live == old(cli.live)
      ensures content != Null && Validate(content).RunCmd? && Validate(content).configId in old(configs) ==>
                var id := Validate(content).configId;
                configs == old(configs)
                && replies == old(replies) + OutputFrames(id, calcId, outcome.outputs) + [FinalReply(outcome.r)]
                && calculations == old(calculations)[calcId := if outcome.r.Ok? then outcome.r.value else "running"]
                && (outcome.r.Ok? ==> outcome.r.value == "ok" || outcome.r.value == "fail")
                && (id in old(cli.pipelines) && old(cli.pipelines[id]) !in old(cli.live) ==>
                      outcome == Ran(Raise(MissingKernel(old(cli.pipelines[id]))), []))
    {
      outcome := NoRun;
      if content == Null {
        replies := replies + [Frame("error", "message", Str("No data received"))];
        return;
      }
      match Validate(content)
      case Reject(message) =>
        replies := replies + [Frame("error", "message", Str(message))];
      case UpdateCmd =>
        HandleUpdate();
      case CloseCmd(id) =>
        HandleClose(id);
      case ConfigCmd(name, _, body) =>
        HandleConfig(name, body, newConfigId);
      case RunCmd(id, indexer, pathOrQuery) =>
        var r, outputs := HandleRun(id, indexer, pathOrQuery, calcId, msgs);
        outcome := Ran(r, outputs);
    }
  }

  /** The credited pipelines, as JSON numbers. */
  function Nums(ids: seq<int>): (r: seq<Json>)
    ensures |r| == |ids| && forall i | 0 <= i < |ids| :: r[i] == Num(ids[i])
  {
    if ids == [] then [] else [Num(ids[0])] + Nums(ids[1..])
  }
}
