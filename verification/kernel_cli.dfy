/** The kernel bookkeeping of the back end's socket consumer (`KernelCLI` in
    kmengine/consumers.py). The Jupyter kernel manager is abstracted to the
    set of kernel ids it holds (`live`) and a counter that hands out fresh
    ids; the iopub messages a kernel publishes while one execution runs are
    an input sequence, each tagged with whether its parent is that
    execution. */
module KernelCli {
  import opened Wrappers
  import opened Strings
  import opened Json

  type KernelId = nat

  /** One iopub message, by `msg_type`; `ours` says whether its parent
      header's `msg_id` is the execution's. */
  datatype IopubMsg =
    | ExecuteResult(ours: bool, text: string)
    | Stream(ours: bool, text: string)
    | ErrorMsg(ours: bool, traceback: seq<string>)
    | Status(ours: bool, executionState: string)
    | OtherMsg(ours: bool)

  const InitialImports: string := "Done some initial imports.\n"
  const ImportLine: string := "from fnuser import get_fn, exec_task"
  const ErrorHeader: string := "❌ Error:\n"

  /** The flag `exec_task` gets: `indexer == "true"`. */
  function IndexerFlag(indexer: Json): (r: string)
    ensures r == "True" <==> indexer == Str("true")
    ensures r == "True" || r == "False"
  {
    if indexer == Str("true") then "True" else "False"
  }

  /** The keyword argument `exec_task` gets: the path to index or the query. */
  function LoaderArg(indexer: Json, pathOrQuery: Json): (r: string)
    ensures indexer == Str("true") ==> r == "path='" + PyStr(pathOrQuery) + "'"
    ensures indexer != Str("true") ==> r == "query='" + PyStr(pathOrQuery) + "'"
  {
    (if indexer == Str("true") then "path='" else "query='") + PyStr(pathOrQuery) + "'"
  }

  /** The code sent to the kernel for a run, without the import line a
      first run puts in front: bind the config, resolve every stage's
      function, call `exec_task`. */
  function PipelineCode(content: string, indexer: Json, pathOrQuery: Json): string
  {
    "\ncode = " + content + "\nfn_dict = {k: get_fn(v['path']) for k, v in code.items()}\n"
    + "exec_task(fn_dict, " + IndexerFlag(indexer) + ", " + LoaderArg(indexer, pathOrQuery) + ")\n"
  }

  /** `text.split("\r")[-1]`. */
  function LastPiece(text: string): string
  {
    var parts := Split(text, "\r");
    parts[|parts| - 1]
  }

  /** What one message makes the run pass to `on_output`, if anything:
      results and stream text of this execution (stream text with a
      carriage return cut to its last piece), and its errors with their
      traceback lines. */
  function Forwarded(m: IopubMsg): (r: Option<string>)
    ensures r.Some? ==> m.ours
    ensures m.ours && (m.ExecuteResult? || m.Stream? || m.ErrorMsg?) <==> r.Some?
    ensures m.ours && m.Stream? && '\r' !in m.text ==> r == Some(m.text)
  {
    if !m.ours then None
    else match m
      case ExecuteResult(_, text) => Some(text)
      case Stream(_, text) => Some(if '\r' in text then "\r" + LastPiece(text) else text)
      case ErrorMsg(_, traceback) => Some(ErrorHeader + Join(traceback, "\n"))
      case Status(_, _) => None
      case OtherMsg(_) => None
  }

  /** Stream text holding a carriage return is forwarded as one carriage
      return followed by what the text holds after its last one. */
  lemma StreamCarriageReturn(text: string)
    requires '\r' in text
    ensures Forwarded(Stream(true, text)).Some?
    ensures var t := Forwarded(Stream(true, text)).value;
            |t| >= 1 && t[0] == '\r' && '\r' !in t[1..] && EndsWith(text, t)
  {
    var parts := Split(text, "\r");
    SplitOnChar(text, '\r');
    JoinSplit(text, "\r");
    var last := parts[|parts| - 1];
    var init := parts[..|parts| - 1];
    assert parts == init + [last];
    SuffixAfterLast(init, last);
  }

  lemma SuffixAfterLast(init: seq<string>, last: string)
    requires |init| > 0
    ensures EndsWith(Join(init + [last], "\r"), "\r" + last) && ("\r" + last)[1..] == last
  {
    JoinAppend(init, last, "\r");
    var a := Join(init, "\r");
    ConcatAssoc(a, "\r", last);
    EndsWithAppended(a, "\r" + last);
  }

  lemma EndsWithAppended(a: string, t: string)
    ensures EndsWith(a + t, t)
  {
    assert (a + t)[|a|..] == t;
  }

  /** The execution's own idle status, which ends the run's loop. */
  predicate IsIdle(m: IopubMsg)
  {
    m.ours && m.Status? && m.executionState == "idle"
  }

  /** Position of the first idle status of the execution, if any. */
  function FirstIdle(msgs: seq<IopubMsg>): (r: Option<nat>)
    ensures r.Some? ==> r.value < |msgs| && IsIdle(msgs[r.value])
                        && forall j | 0 <= j < r.value :: !IsIdle(msgs[j])
    ensures r.None? ==> forall j | 0 <= j < |msgs| :: !IsIdle(msgs[j])
  {
    if msgs == [] then None
    else if IsIdle(msgs[0]) then Some(0)
    else
      var rest := FirstIdle(msgs[1..]);
      if rest.None? then None else Some(rest.value + 1)
  }

  /** Everything the messages make the run forward, in order. */
  function OutputsOf(msgs: seq<IopubMsg>): seq<string>
    decreases |msgs|
  {
    if msgs == [] then []
    else
      OutputsOf(msgs[..|msgs| - 1])
      + (match Forwarded(msgs[|msgs| - 1]) case Some(t) => [t] case None => [])
  }

  predicate SawError(msgs: seq<IopubMsg>)
  {
    exists j | 0 <= j < |msgs| :: msgs[j].ours && msgs[j].ErrorMsg?
  }

  /** A run that reports "fail" has forwarded an error report. */
  lemma {:induction false} ErrorReported(msgs: seq<IopubMsg>)
    requires SawError(msgs)
    ensures exists t | t in OutputsOf(msgs) :: StartsWith(t, ErrorHeader)
    decreases |msgs|
  {
    var n := |msgs|;
    var last := msgs[n - 1];
    assert msgs[..n - 1] + [last] == msgs;
    if last.ours && last.ErrorMsg? {
      var t := Forwarded(last).value;
      assert t == ErrorHeader + Join(last.traceback, "\n");
      assert t[..|ErrorHeader|] == ErrorHeader;
      assert t in OutputsOf(msgs);
    } else {
      var j :| 0 <= j < n && msgs[j].ours && msgs[j].ErrorMsg?;
      assert msgs[..n - 1][j] == msgs[j];
      ErrorReported(msgs[..n - 1]);
      var t :| t in OutputsOf(msgs[..n - 1]) && StartsWith(t, ErrorHeader);
      assert t in OutputsOf(msgs);
    }
  }

  /** Messages of other executions are never forwarded. */
  lemma {:induction false} ForeignMessagesIgnored(msgs: seq<IopubMsg>)
    requires forall j | 0 <= j < |msgs| :: !msgs[j].ours
    ensures OutputsOf(msgs) == []
    decreases |msgs|
  {
    if msgs != [] {
      ForeignMessagesIgnored(msgs[..|msgs| - 1]);
    }
  }

  /** The run's `while True` loop over the iopub channel: forward each
      message of the execution, note any error, stop at its idle status.
      `finished` is false when the messages run out first (the real call
      then raises `queue.Empty` after its timeout). */
  method Drain(msgs: seq<IopubMsg>) returns (finished: bool, status: string, outputs: seq<string>)
    ensures finished <==> FirstIdle(msgs).Some?
    ensures var n := if finished then FirstIdle(msgs).value else |msgs|;
            outputs == OutputsOf(msgs[..n])
            && status == (if SawError(msgs[..n]) then "fail" else "ok")
  {
    status := "ok";
    outputs := [];
    finished := false;
    var i := 0;
    while i < |msgs| && !finished
      invariant 0 <= i <= |msgs|
      invariant !finished ==> forall j | 0 <= j < i :: !IsIdle(msgs[j])
      invariant finished ==> 0 < i && IsIdle(msgs[i - 1]) && forall j | 0 <= j < i - 1 :: !IsIdle(msgs[j])
      invariant var n := if finished then i - 1 else i;
                outputs == OutputsOf(msgs[..n]) && status == (if SawError(msgs[..n]) then "fail" else "ok")
    {
      DrainStep(msgs, i);
      status, outputs, finished := HandleMessage(msgs[i], status, outputs);
      i := i + 1;
    }
    if finished {
      FirstIdleAt(msgs, i - 1);
    } else {
      assert msgs[..i] == msgs;
      assert FirstIdle(msgs).None?;
    }
  }

  /** The body of the run's loop for one message: forward it, note an
      error, and say whether it is the execution's idle status. */
  method HandleMessage(m: IopubMsg, status0: string, outputs0: seq<string>)
    returns (status: string, outputs: seq<string>, idle: bool)
    ensures outputs == outputs0 + (if Forwarded(m).Some? then [Forwarded(m).value] else [])
    ensures status == if m.ours && m.ErrorMsg? then "fail" else status0
    ensures idle == IsIdle(m)
  {
    status, outputs, idle := status0, outputs0, false;
    if m.ours {
      match m
      case ExecuteResult(_, text) =>
        outputs := outputs + [text];
      case Stream(_, text) =>
        if '\r' in text {
          outputs := outputs + ["\r" + LastPiece(text)];
        } else {
          outputs := outputs + [text];
        }
      case ErrorMsg(_, traceback) =>
        status := "fail";
        outputs := outputs + [ErrorHeader + Join(traceback, "\n")];
      case Status(_, state) =>
        if state == "idle" {
          idle := true;
        }
      case OtherMsg(_) =>
    }
  }

  /** One more message forwards what `Forwarded` says and notes an error
      of the execution. */
  lemma DrainStep(msgs: seq<IopubMsg>, i: nat)
    requires i < |msgs|
    ensures OutputsOf(msgs[..i + 1])
            == OutputsOf(msgs[..i]) + (if Forwarded(msgs[i]).Some? then [Forwarded(msgs[i]).value] else [])
    ensures SawError(msgs[..i + 1]) <==> SawError(msgs[..i]) || (msgs[i].ours && msgs[i].ErrorMsg?)
  {
    assert msgs[..i + 1][..i] == msgs[..i];
    assert msgs[..i + 1][i] == msgs[i];
    if SawError(msgs[..i]) {
      var j :| 0 <= j < i && msgs[..i][j].ours && msgs[..i][j].ErrorMsg?;
      assert msgs[..i + 1][j] == msgs[..i][j];
    }
  }

  /** The run's wait on the iopub channel: "fail" or "ok" once the
      execution goes idle, `queue.Empty` when the messages run out first. */
  method Await(msgs: seq<IopubMsg>) returns (r: Result<string>, outputs: seq<string>)
    ensures FirstIdle(msgs).Some? ==>
              var n := FirstIdle(msgs).value;
              r == Ok(if SawError(msgs[..n]) then "fail" else "ok") && outputs == OutputsOf(msgs[..n])
    ensures FirstIdle(msgs).None? ==> r == Raise(Exception("Empty", "")) && outputs == OutputsOf(msgs)
  {
    var finished, status;
    finished, status, outputs := Drain(msgs);
    if !finished {
      assert msgs[..|msgs|] == msgs;
      r := Raise(Exception("Empty", ""));
      return;
    }
    r := Ok(status);
  }

  /** `str(e)` of the `KeyError` the kernel manager's `get_kernel` raises
      for a kernel it no longer holds. */
  function MissingKernel(kernelId: KernelId): (e: Exception)
    ensures e.kind == "KeyError" && EndsWith(e.message, IntToDecimal(kernelId) + "'")
  {
    Exception("KeyError", "'Kernel with id not found: " + IntToDecimal(kernelId) + "'")
  }

  /** The run on a recorded kernel: a `KeyError` naming the kernel when the
      manager no longer holds it, otherwise the wait on the iopub channel. */
  method Attempt(kernelId: KernelId, alive: bool, msgs: seq<IopubMsg>) returns (r: Result<string>, outputs: seq<string>)
    ensures !alive ==> r == Raise(MissingKernel(kernelId)) && outputs == []
    ensures alive && FirstIdle(msgs).Some? ==>
              var n := FirstIdle(msgs).value;
              r == Ok(if SawError(msgs[..n]) then "fail" else "ok") && outputs == OutputsOf(msgs[..n])
    ensures alive && FirstIdle(msgs).None? ==> r == Raise(Exception("Empty", "")) && outputs == OutputsOf(msgs)
  {
    if !alive {
      return Raise(MissingKernel(kernelId)), [];
    }
    r, outputs := Await(msgs);
  }

  lemma FirstIdleAt(msgs: seq<IopubMsg>, i: nat)
    requires i < |msgs| && IsIdle(msgs[i]) && forall j | 0 <= j < i :: !IsIdle(msgs[j])
    ensures FirstIdle(msgs) == Some(i)
  {
  }

  /** `order` lists the keys of `pipelines` once each. */
  ghost predicate KeyOrder(order: seq<int>, pipelines: map<int, KernelId>)
  {
    (forall j | 0 <= j < |order| :: order[j] in pipelines) && (forall p | p in pipelines :: p in order)
    && (forall i, j | 0 <= i < j < |order| :: order[i] != order[j])
  }

  lemma OrderCoversKeys(order: seq<int>, pipelines: map<int, KernelId>)
    requires KeyOrder(order, pipelines)
    ensures (set j | 0 <= j < |order| :: order[j]) == pipelines.Keys
  {
    var keys := set j | 0 <= j < |order| :: order[j];
    forall q | q in pipelines ensures q in keys {
      var j :| 0 <= j < |order| && order[j] == q;
    }
    assert keys <= pipelines.Keys;
  }

  /** The loop of `update()` over the pipelines in dict order, against a
      copy of the live kernel ids: a pipeline whose kernel is still in the
      copy is good and takes the kernel out of the copy; any other is bad.
      `badList` lists the bad set. */
  method SortPipelines(order: seq<int>, pipelines: map<int, KernelId>, live: set<KernelId>)
    returns (good: seq<int>, bad: set<int>, badList: seq<int>)
    requires KeyOrder(order, pipelines)
    ensures (set p | p in good) + bad == pipelines.Keys && (set p | p in good) * bad == {}
    ensures forall j | 0 <= j < |good| :: good[j] in pipelines && pipelines[good[j]] in live
    ensures forall j, l | 0 <= j < l < |good| :: pipelines[good[j]] != pipelines[good[l]]
    ensures forall q :: q in bad <==> q in badList
    ensures forall j | 0 <= j < |badList| :: badList[j] in pipelines
    ensures Injective(pipelines) ==> forall p | p in bad :: pipelines[p] !in live
  {
    var kernels := live;
    good := [];
    bad := {};
    badList := [];
    for i := 0 to |order|
      invariant SortedUpTo(order, pipelines, live, i, good, bad, badList, kernels)
    {
      var p := order[i];
      var k := pipelines[p];
      if k !in kernels {
        SortBadStep(order, pipelines, live, i, good, bad, badList, kernels);
        bad := bad + {p};
        badList := badList + [p];
      } else {
        SortGoodStep(order, pipelines, live, i, good, bad, badList, kernels);
        kernels := kernels - {k};
        good := good + [p];
      }
    }
    OrderCoversKeys(order, pipelines);
  }

  /** What the loop above knows after `i` pipelines. */
  ghost predicate SortedUpTo(order: seq<int>, pipelines: map<int, KernelId>, live: set<KernelId>, i: nat,
                             good: seq<int>, bad: set<int>, badList: seq<int>, kernels: set<KernelId>)
  {
    i <= |order| && KeyOrder(order, pipelines)
    && kernels <= live
    && (set p | p in good) + bad == (set j | 0 <= j < i :: order[j])
    && (set p | p in good) * bad == {}
    && (forall j | 0 <= j < |good| :: good[j] in pipelines && pipelines[good[j]] in live
                                      && pipelines[good[j]] !in kernels)
    && (forall j, l | 0 <= j < l < |good| :: pipelines[good[j]] != pipelines[good[l]])
    && (forall p | p in bad :: p in pipelines && pipelines[p] !in kernels)
    && (forall q :: q in bad <==> q in badList)
    && (forall j | 0 <= j < |badList| :: badList[j] in pipelines)
    && (Injective(pipelines) ==>
          forall j | i <= j < |order| :: (pipelines[order[j]] in kernels <==> pipelines[order[j]] in live))
    && (Injective(pipelines) ==> forall p | p in bad :: pipelines[p] !in live)
  }

  lemma SortBadStep(order: seq<int>, pipelines: map<int, KernelId>, live: set<KernelId>, i: nat,
                    good: seq<int>, bad: set<int>, badList: seq<int>, kernels: set<KernelId>)
    requires i < |order| && SortedUpTo(order, pipelines, live, i, good, bad, badList, kernels)
    requires pipelines[order[i]] !in kernels
    ensures SortedUpTo(order, pipelines, live, i + 1, good, bad + {order[i]}, badList + [order[i]], kernels)
  {
    var p := order[i];
    assert p !in (set j | 0 <= j < i :: order[j]);
    assert (set j | 0 <= j < i + 1 :: order[j]) == (set j | 0 <= j < i :: order[j]) + {p};
  }

  lemma SortGoodStep(order: seq<int>, pipelines: map<int, KernelId>, live: set<KernelId>, i: nat,
                     good: seq<int>, bad: set<int>, badList: seq<int>, kernels: set<KernelId>)
    requires i < |order| && SortedUpTo(order, pipelines, live, i, good, bad, badList, kernels)
    requires pipelines[order[i]] in kernels
    ensures SortedUpTo(order, pipelines, live, i + 1, good + [order[i]], bad, badList,
                       kernels - {pipelines[order[i]]})
  {
    var p := order[i];
    assert p !in (set j | 0 <= j < i :: order[j]);
    assert (set j | 0 <= j < i + 1 :: order[j]) == (set j | 0 <= j < i :: order[j]) + {p};
    assert (set q | q in good + [p]) == (set q | q in good) + {p};
  }

  lemma BadKernels(pipelines: map<int, KernelId>, bad: set<int>, badList: seq<int>)
    requires forall q :: q in bad <==> q in badList
    requires forall j | 0 <= j < |badList| :: badList[j] in pipelines
    ensures forall p | p in bad :: p in pipelines
    ensures (set p | p in bad :: pipelines[p]) == (set j | 0 <= j < |badList| :: pipelines[badList[j]])
  {
    var fromSet := set p | p in bad :: pipelines[p];
    var fromList := set j | 0 <= j < |badList| :: pipelines[badList[j]];
    forall p | p in bad ensures pipelines[p] in fromList {
      assert p in badList;
      var j :| 0 <= j < |badList| && badList[j] == p;
    }
    forall j | 0 <= j < |badList| ensures pipelines[badList[j]] in fromSet {
      var q := badList[j];
      assert q in badList;
      assert q in bad;
    }
    assert fromSet <= fromList && fromList <= fromSet;
  }

  predicate Injective(m: map<int, KernelId>)
  {
    forall p, q | p in m && q in m && p != q :: m[p] != m[q]
  }

  class KernelCli {
    var pipelines: map<int, KernelId>   // config id -> kernel id
    var order: seq<int>                 // the dict's keys, in insertion order
    var live: set<KernelId>             // the kernels the manager holds
    var nextKernel: nat                 // every id handed out so far is below

    /** `order` lists the keys of `pipelines` once each. */
    ghost predicate Keyed()
      reads this
    {
      KeyOrder(order, pipelines)
    }

    /** Kernel ids are fresh when handed out, so no two configs share one. */
    ghost predicate Valid()
      reads this
    {
      Keyed()
      && (forall p | p in pipelines :: pipelines[p] < nextKernel)
      && (forall k | k in live :: k < nextKernel)
      && Injective(pipelines)
    }

    constructor()
      ensures Valid() && pipelines == map[] && order == [] && live == {}
    {
      pipelines := map[];
      order := [];
      live := {};
      nextKernel := 0;
    }

    /** `close_pipeline(config_id)`: shuts the config's kernel down when the
        manager still holds it; the config keeps its entry. */
    method ClosePipeline(configId: int) returns (msg: string)
      modifies this
      ensures pipelines == old(pipelines) && order == old(order) && nextKernel == old(nextKernel)
      ensures configId !in pipelines ==>
                msg == "No pipeline " + IntToDecimal(configId) + " running\n" && live == old(live)
      ensures configId in pipelines ==>
                msg == "Pipeline " + IntToDecimal(configId) + " closed\n"
                && live == old(live) - {pipelines[configId]}
    {
      if configId !in pipelines {
        return "No pipeline " + IntToDecimal(configId) + " running\n";
      }
      var kernelId := pipelines[configId];
      if kernelId in live {
        live := live - {kernelId};
      }
      msg := "Pipeline " + IntToDecimal(configId) + " closed\n";
    }

    /** `update()`: walks the pipelines in dict order against a copy of the
        live kernel ids, crediting each live kernel to the first pipeline
        that names it and removing it from the copy; the other pipelines
        are closed. Returns the credited pipelines (in dict order) and the
        closed ones. */
    method Update() returns (good: seq<int>, bad: set<int>)
      requires Keyed()
      modifies this
      ensures pipelines == old(pipelines) && order == old(order) && nextKernel == old(nextKernel)
      ensures (set p | p in good) + bad == pipelines.Keys && (set p | p in good) * bad == {}
      ensures forall j | 0 <= j < |good| :: good[j] in pipelines && pipelines[good[j]] in old(live)
      ensures forall j, l | 0 <= j < l < |good| :: pipelines[good[j]] != pipelines[good[l]]
      ensures Injective(pipelines) ==>
                forall p | p in pipelines :: (p in good <==> pipelines[p] in old(live))
      ensures live == old(live) - (set p | p in bad :: pipelines[p])
      ensures Injective(pipelines) ==> live == old(live)
    {
      var badList;
      good, bad, badList := SortPipelines(order, pipelines, live);
      BadKernels(pipelines, bad, badList);
      CloseAll(badList);
    }

    /** `for p in bad_pipelines: self.close_pipeline(p)`, visiting the set
        in the order given by `badList`; closing one pipeline does not
        affect closing another, so any order gives the same state. */
    method CloseAll(badList: seq<int>)
      requires forall j | 0 <= j < |badList| :: badList[j] in pipelines
      modifies this
      ensures pipelines == old(pipelines) && order == old(order) && nextKernel == old(nextKernel)
      ensures live == old(live) - (set j | 0 <= j < |badList| :: pipelines[badList[j]])
    {
      for i := 0 to |badList|
        invariant pipelines == old(pipelines) && order == old(order) && nextKernel == old(nextKernel)
        invariant live == old(live) - (set j | 0 <= j < i :: pipelines[badList[j]])
      {
        var _ := ClosePipeline(badList[i]);
        assert (set j | 0 <= j < i + 1 :: pipelines[badList[j]])
               == (set j | 0 <= j < i :: pipelines[badList[j]]) + {pipelines[badList[i]]};
      }
    }

    /** `run_pipeline(...)`: a config's first run starts a kernel, records
        it, reports the initial imports and puts the import line in front
        of the code; later runs reuse the recorded kernel, which fails with
        a `KeyError` once that kernel is gone. The result is "fail" when the
        execution reported an error before going idle, "ok" otherwise. */
    method RunPipeline(configId: int, content: string, indexer: Json, pathOrQuery: Json, msgs: seq<IopubMsg>)
      returns (r: Result<string>, code: string, outputs: seq<string>)
      requires Valid()
      modifies this
      ensures Valid()
      ensures configId in old(pipelines) ==>
                pipelines == old(pipelines) && order == old(order) && live == old(live)
                && code == PipelineCode(content, indexer, pathOrQuery)
      ensures configId !in old(pipelines) ==>
                old(nextKernel) !in old(live) && pipelines == old(pipelines)[configId := old(nextKernel)]
                && order == old(order) + [configId] && live == old(live) + {old(nextKernel)}
                && code == ImportLine + PipelineCode(content, indexer, pathOrQuery)
      ensures var prefix := if configId in old(pipelines) then [] else [InitialImports];
              var kernelId := pipelines[configId];
              (kernelId !in live ==>
                 r == Raise(MissingKernel(kernelId)) && outputs == prefix)
              && (kernelId in live && FirstIdle(msgs).Some? ==>
                    var n := FirstIdle(msgs).value;
                    r == Ok(if SawError(msgs[..n]) then "fail" else "ok")
                    && outputs == prefix + OutputsOf(msgs[..n]))
              && (kernelId in live && FirstIdle(msgs).None? ==>
                    r == Raise(Exception("Empty", "")) && outputs == prefix + OutputsOf(msgs))
    {
      code := PipelineCode(content, indexer, pathOrQuery);
      outputs := [];
      var kernelId;
      if configId !in pipelines {
        kernelId := StartKernel(configId);
        code := ImportLine + code;
        outputs := outputs + [InitialImports];
      } else {
        kernelId := pipelines[configId];
      }
      assert kernelId == pipelines[configId];
      var forwarded;
      r, forwarded := Attempt(kernelId, kernelId in live, msgs);
      outputs := outputs + forwarded;
    }

    /** The first run of a config: a new kernel is started and recorded
        for it, after every pipeline already known. */
    method StartKernel(configId: int) returns (kernelId: KernelId)
      requires Valid() && configId !in pipelines
      modifies this
      ensures Valid()
      ensures kernelId == old(nextKernel) && kernelId !in old(live) && nextKernel == old(nextKernel) + 1
      ensures pipelines == old(pipelines)[configId := kernelId] && order == old(order) + [configId]
              && live == old(live) + {kernelId}
    {
      kernelId := nextKernel;
      nextKernel := nextKernel + 1;
      live := live + {kernelId};
      pipelines := pipelines[configId := kernelId];
      order := order + [configId];
    }

    /** `shutdown_all_kernels()`: forgets every pipeline and shuts every
        kernel down. */
    method ShutdownAllKernels()
      modifies this
      ensures pipelines == map[] && order == [] && live == {} && nextKernel == old(nextKernel)
      ensures Valid()
    {
      pipelines := map[];
      order := [];
      live := {};
    }
  }

  /** Because closing keeps the config's entry, a config that was run and
      then closed cannot run again: the second run reuses the shut-down
      kernel and fails with a `KeyError` before sending any code. */
  method RunAfterClose(msgs: seq<IopubMsg>) returns (first: Result<string>, second: Result<string>)
    requires FirstIdle(msgs).Some?
    ensures first.Ok?
    ensures second.Raise? && second.error.kind == "KeyError"
  {
    var cli := new KernelCli();
    var code, outputs;
    first, code, outputs := cli.RunPipeline(1, "{}", Str("false"), Str("q"), msgs);
    var closed := cli.ClosePipeline(1);
    second, code, outputs := cli.RunPipeline(1, "{}", Str("false"), Str("q"), msgs);
  }
}
