/** The application shell (frontend/src/components/App.js): the run status
    of every config and the list of configs currently running, kept up to
    date from run reports on the socket and from the run and stop buttons. */
module App {
  import opened Wrappers
  import opened Strings
  import opened Json
  import ConfigDetails

  /** `{status, runNumber}` of one config. */
  datatype RunStatus = RunStatus(status: string, runNumber: Json)

  const Idle := RunStatus("idle", Null)

  /** The run status as the detail view receives it. */
  function ToJson(rs: RunStatus): Json
  {
    Obj(map["status" := Str(rs.status), "runNumber" := rs.runNumber])
  }

  /** `getRunStatus(configId)`: the stored status, idle when there is none. */
  function RunStatusOf(m: map<string, RunStatus>, configId: Json): (rs: RunStatus)
    ensures ToStr(configId) in m ==> rs == m[ToStr(configId)]
    ensures ToStr(configId) !in m ==> rs == Idle
  {
    if ToStr(configId) in m then m[ToStr(configId)] else Idle
  }

  /** `prev.filter(id => String(id) !== key)`. */
  function WithoutKey(ids: seq<Json>, key: string): (r: seq<Json>)
  {
    if ids == [] then []
    else (if ToStr(ids[0]) != key then [ids[0]] else []) + WithoutKey(ids[1..], key)
  }

  /** `prev.includes(id) ? prev : [...prev, id]`. */
  function WithId(ids: seq<Json>, id: Json): seq<Json>
  {
    if id in ids then ids else ids + [id]
  }

  /** `prev.filter(e => e !== id)`. */
  function WithoutId(ids: seq<Json>, id: Json): seq<Json>
  {
    if ids == [] then []
    else (if ids[0] != id then [ids[0]] else []) + WithoutId(ids[1..], id)
  }

  /** `prev.includes(id) ? prev.filter(e => e !== id) : prev`. */
  function StopUpdate(ids: seq<Json>, id: Json): seq<Json>
  {
    if id in ids then WithoutId(ids, id) else ids
  }

  /** A run report: status ok or error, with an array `from`. Output
      messages are not run reports. */
  predicate IsRunReport(data: Json)
  {
    (Get(data, "status") == Str("ok") || Get(data, "status") == Str("error")) && Get(data, "from").Arr?
  }

  /** `data.from[i]`, undefined past the end. */
  function FromAt(data: Json, i: nat): Json
    requires Get(data, "from").Arr?
  {
    var from := Get(data, "from").items;
    if i < |from| then from[i] else Undefined
  }

  predicate NoDuplicates(ids: seq<Json>)
  {
    forall i, j | 0 <= i < j < |ids| :: ids[i] != ids[j]
  }

  /** Every status that App itself stores as running carries no run number. */
  predicate RunningWithoutNumber(m: map<string, RunStatus>)
  {
    forall k | k in m && m[k].status == "running" :: m[k].runNumber == Null
  }

  class Component {
    var runStatusMap: map<string, RunStatus>
    var runningConfigIds: seq<Json>
    var hasSocket: bool   // `wsRef.current` is set
    var sent: seq<Outgoing>

    constructor(hasSocket: bool)
      ensures runStatusMap == map[] && runningConfigIds == [] && sent == []
      ensures this.hasSocket == hasSocket
    {
      runStatusMap := map[];
      runningConfigIds := [];
      this.hasSocket := hasSocket;
      sent := [];
    }

    /** `getRunStatus(configId)`. */
    function GetRunStatus(configId: Json): (rs: RunStatus)
      reads this
      ensures ToStr(configId) !in runStatusMap ==> rs == Idle
    {
      RunStatusOf(runStatusMap, configId)
    }

    /** `handleMessage(event)`: a run report stores the reported status and
        run number for `String(from[0])`, whatever run that config is on,
        and drops that config from the running list. Every other frame,
        output included, changes nothing. */
    method HandleMessage(e: Incoming)
      modifies this
      ensures RunningWithoutNumber(old(runStatusMap)) ==> RunningWithoutNumber(runStatusMap)
      ensures hasSocket == old(hasSocket) && sent == old(sent)
      ensures Payload(e).Some? && IsRunReport(Payload(e).value) ==>
                var data := Payload(e).value;
                && runStatusMap == old(runStatusMap)[ToStr(FromAt(data, 0)) :=
                                                      RunStatus(Get(data, "status").s, FromAt(data, 1))]
                && runningConfigIds == WithoutKey(old(runningConfigIds), ToStr(FromAt(data, 0)))
      ensures !(Payload(e).Some? && IsRunReport(Payload(e).value)) ==>
                runStatusMap == old(runStatusMap) && runningConfigIds == old(runningConfigIds)
    {
      var p := Payload(e);
      if p.Some? && IsRunReport(p.value) {
        var data := p.value;
        var configId := ToStr(FromAt(data, 0));
        var runNumber := FromAt(data, 1);
        runStatusMap := runStatusMap[configId := RunStatus(Get(data, "status").s, runNumber)];
        runningConfigIds := WithoutKey(runningConfigIds, configId);
      }
    }

    /** `runConfig(configId, indexer, query)`: when a socket exists
        (`wsRef.current` is set, whatever its state) and the id is truthy,
        the config is marked running with no run number, added to the
        running list if absent, and a `run` command is sent. */
    method RunConfig(configId: Json, indexer: Json, query: Json)
      modifies this
      ensures RunningWithoutNumber(old(runStatusMap)) ==> RunningWithoutNumber(runStatusMap)
      ensures hasSocket == old(hasSocket)
      ensures !hasSocket || !Truthy(configId) ==>
                runStatusMap == old(runStatusMap) && runningConfigIds == old(runningConfigIds) && sent == old(sent)
      ensures hasSocket && Truthy(configId) ==>
                && runStatusMap == old(runStatusMap)[ToStr(configId) := RunStatus("running", Null)]
                && runningConfigIds == WithId(old(runningConfigIds), configId)
                && sent == old(sent) + [Outgoing("run", [Str(ToStr(configId)), indexer, query])]
    {
      if !hasSocket || !Truthy(configId) {
        return;
      }
      runStatusMap := runStatusMap[ToStr(configId) := RunStatus("running", Null)];
      runningConfigIds := WithId(runningConfigIds, configId);
      sent := sent + [Outgoing("run", [Str(ToStr(configId)), indexer, query])];
    }

    /** `updateStopConfig(configId)`: a truthy id becomes idle with no run
        number and leaves the running list. */
    method UpdateStopConfig(configId: Json)
      modifies this
      ensures RunningWithoutNumber(old(runStatusMap)) ==> RunningWithoutNumber(runStatusMap)
      ensures hasSocket == old(hasSocket) && sent == old(sent)
      ensures !Truthy(configId) ==> runStatusMap == old(runStatusMap) && runningConfigIds == old(runningConfigIds)
      ensures Truthy(configId) ==>
                runStatusMap == old(runStatusMap)[ToStr(configId) := Idle]
                && runningConfigIds == StopUpdate(old(runningConfigIds), configId)
    {
      if !Truthy(configId) {
        return;
      }
      runStatusMap := runStatusMap[ToStr(configId) := Idle];
      runningConfigIds := StopUpdate(runningConfigIds, configId);
    }
  }

  /** The running list after a report keeps exactly the ids whose string
      form is not the reported one, in their order. */
  lemma {:induction false} WithoutKeyKeeps(ids: seq<Json>, key: string)
    ensures forall x :: x in WithoutKey(ids, key) <==> x in ids && ToStr(x) != key
    ensures |WithoutKey(ids, key)| <= |ids|
    ensures NoDuplicates(ids) ==> NoDuplicates(WithoutKey(ids, key))
  {
    if ids != [] {
      WithoutKeyKeeps(ids[1..], key);
      var r := WithoutKey(ids[1..], key);
      if NoDuplicates(ids) {
        assert NoDuplicates(ids[1..]);
        if ToStr(ids[0]) != key {
          assert ids[0] !in ids[1..];
          NoDuplicatesCons(ids[0], r);
        }
      }
    }
  }

  lemma NoDuplicatesCons(x: Json, r: seq<Json>)
    requires x !in r && NoDuplicates(r)
    ensures NoDuplicates([x] + r)
  {
    var s := [x] + r;
    forall i, j | 0 <= i < j < |s| ensures s[i] != s[j] {
      if i == 0 {
        assert s[j] == r[j - 1];
      } else {
        assert s[i] == r[i - 1] && s[j] == r[j - 1];
      }
    }
  }

  /** Starting a run adds the id once: the list stays free of duplicates
      and holds the id afterwards. */
  lemma WithIdAdds(ids: seq<Json>, id: Json)
    ensures forall x :: x in WithId(ids, id) <==> x in ids || x == id
    ensures NoDuplicates(ids) ==> NoDuplicates(WithId(ids, id))
    ensures id in ids ==> WithId(ids, id) == ids
  {
  }

  /** Stopping a run removes exactly that id, by strict equality. */
  lemma {:induction false} StopRemoves(ids: seq<Json>, id: Json)
    ensures forall x :: x in StopUpdate(ids, id) <==> x in ids && x != id
    ensures NoDuplicates(ids) ==> NoDuplicates(StopUpdate(ids, id))
  {
    WithoutIdKeeps(ids, id);
  }

  lemma {:induction false} WithoutIdKeeps(ids: seq<Json>, id: Json)
    ensures forall x :: x in WithoutId(ids, id) <==> x in ids && x != id
    ensures NoDuplicates(ids) ==> NoDuplicates(WithoutId(ids, id))
  {
    if ids != [] {
      WithoutIdKeeps(ids[1..], id);
      var r := WithoutId(ids[1..], id);
      if NoDuplicates(ids) && ids[0] != id {
        assert ids[0] !in ids[1..];
        forall i, j | 0 <= i < j < |[ids[0]] + r|
          ensures ([ids[0]] + r)[i] != ([ids[0]] + r)[j]
        {
          if i == 0 {
            assert ([ids[0]] + r)[j] in r;
          } else {
            assert ([ids[0]] + r)[i] == r[i - 1] && ([ids[0]] + r)[j] == r[j - 1];
          }
        }
      }
      if NoDuplicates(ids) {
        assert NoDuplicates(ids[1..]);
      }
    }
  }

  /** So the detail view's run-start reset, which needs a running status
      with a truthy run number, never fires for a status App hands it: a
      terminal is never emptied when a run starts from this shell. */
  lemma ResetNeverFiresFromApp(m: map<string, RunStatus>, selected: Json)
    requires RunningWithoutNumber(m)
    ensures !ConfigDetails.ResetFires(ToJson(RunStatusOf(m, selected)), selected)
  {
    var rs := RunStatusOf(m, selected);
    if rs.status == "running" {
      assert rs.runNumber == Null;
    }
  }
}
