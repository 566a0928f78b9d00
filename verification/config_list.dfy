/** The config list in the side bar (frontend/src/components/ConfigList.js):
    on each reply to `list_configs` it keeps the configs, reports them, and
    selects the first config that was not there before. */
module ConfigList {
  import opened Wrappers
  import opened Json

  /** `configs.map(cfg => cfg.id)`, or None when reading `id` of a null or
      undefined element throws. */
  function IdsOf(configs: seq<Json>): (r: Option<seq<Json>>)
    ensures r.Some? <==> forall i | 0 <= i < |configs| :: !configs[i].Null? && !configs[i].Undefined?
    ensures r.Some? ==> |r.value| == |configs|
                        && forall i | 0 <= i < |configs| :: r.value[i] == Get(configs[i], "id")
  {
    if configs == [] then Some([])
    else if configs[0].Null? || configs[0].Undefined? then None
    else
      var rest := IdsOf(configs[1..]);
      if rest.None? then None else Some([Get(configs[0], "id")] + rest.value)
  }

  /** `newIds.filter(id => !prevIds.includes(id))`. */
  function AddedIds(newIds: seq<Json>, prevIds: seq<Json>): seq<Json>
  {
    if newIds == [] then []
    else (if newIds[0] !in prevIds then [newIds[0]] else []) + AddedIds(newIds[1..], prevIds)
  }

  /** The added ids are exactly the new ids that were not there before. */
  lemma {:induction false} AddedIdsExact(newIds: seq<Json>, prevIds: seq<Json>)
    ensures forall x :: x in AddedIds(newIds, prevIds) <==> x in newIds && x !in prevIds
  {
    if newIds != [] {
      AddedIdsExact(newIds[1..], prevIds);
      assert newIds == [newIds[0]] + newIds[1..];
    }
  }

  /** The first added id is the first id of the new list, in its order,
      that was not there before. */
  lemma {:induction false} FirstAddedId(newIds: seq<Json>, prevIds: seq<Json>)
    requires AddedIds(newIds, prevIds) != []
    ensures exists i | 0 <= i < |newIds| ::
              AddedIds(newIds, prevIds)[0] == newIds[i] && newIds[i] !in prevIds
              && forall j | 0 <= j < i :: newIds[j] in prevIds
  {
    if newIds[0] in prevIds {
      FirstAddedId(newIds[1..], prevIds);
      var i :| 0 <= i < |newIds[1..]| && AddedIds(newIds[1..], prevIds)[0] == newIds[1..][i]
               && newIds[1..][i] !in prevIds && forall j | 0 <= j < i :: newIds[1..][j] in prevIds;
      assert AddedIds(newIds, prevIds)[0] == newIds[i + 1];
      forall j | 0 <= j < i + 1
        ensures newIds[j] in prevIds
      {
        if j > 0 {
          assert newIds[j] == newIds[1..][j - 1];
        }
      }
    } else {
      assert AddedIds(newIds, prevIds)[0] == newIds[0];
    }
  }

  /** Nothing is added when every new id was there before; in particular a
      reload right after a reply, which compares the list with itself,
      selects nothing. */
  lemma {:induction false} NothingAdded(newIds: seq<Json>, prevIds: seq<Json>)
    requires forall x | x in newIds :: x in prevIds
    ensures AddedIds(newIds, prevIds) == []
  {
    if newIds != [] {
      assert newIds[0] in newIds;
      NothingAdded(newIds[1..], prevIds);
    }
  }

  /** A list reply: status ok with an array of configs. */
  predicate IsListReply(data: Json)
  {
    Get(data, "status") == Str("ok") && Get(data, "configs").Arr?
  }

  class Component {
    var configs: seq<Json>
    var loading: bool
    var prevConfigIds: seq<Json>
    var sent: seq<Outgoing>

    /** Every config held has an id that can be read. */
    predicate Valid()
      reads this
    {
      IdsOf(configs).Some?
    }

    constructor()
      ensures Valid() && configs == [] && loading && prevConfigIds == [] && sent == []
    {
      configs := [];
      loading := true;
      prevConfigIds := [];
      sent := [];
    }

    /** The fetch effect, on mount and on each reload: the previous ids
        become those of the configs held, and `list_configs` is sent when
        the socket is open (a connecting socket sends it on open). */
    method Fetch(socketOpen: bool)
      requires Valid()
      modifies this
      ensures Valid() && configs == old(configs) && loading == old(loading)
      ensures prevConfigIds == IdsOf(configs).value
      ensures sent == old(sent) + (if socketOpen then [Outgoing("list_configs", [])] else [])
    {
      prevConfigIds := IdsOf(configs).value;
      if socketOpen {
        sent := sent + [Outgoing("list_configs", [])];
      }
    }

    /** `handleMessage(event)`: a list reply whose configs all have a
        readable id replaces the configs, ends loading, is reported to
        `onConfigsLoaded`, selects the first added id through `onSelect`
        when there is one, and becomes the previous ids. Every other frame
        changes nothing. */
    method HandleMessage(e: Incoming, hasOnConfigsLoaded: bool, hasOnSelect: bool)
      returns (loaded: Option<seq<Json>>, selected: Option<Json>)
      requires Valid()
      modifies this
      ensures Valid() && sent == old(sent)
      ensures !Handled(e) ==>
                configs == old(configs) && loading == old(loading) && prevConfigIds == old(prevConfigIds)
                && loaded.None? && selected.None?
      ensures Handled(e) ==>
                var newConfigs := Get(Payload(e).value, "configs").items;
                var newIds := IdsOf(newConfigs).value;
                var added := AddedIds(newIds, old(prevConfigIds));
                && configs == newConfigs && !loading && prevConfigIds == newIds
                && loaded == (if hasOnConfigsLoaded then Some(newConfigs) else None)
                && selected == (if hasOnSelect && added != [] then Some(added[0]) else None)
    {
      loaded, selected := None, None;
      var p := Payload(e);
      if p.None? || !IsListReply(p.value) {
        return;
      }
      var newConfigs := Get(p.value, "configs").items;
      var ids := IdsOf(newConfigs);
      if ids.None? {
        return;
      }
      var newConfigIds := ids.value;
      var addedIds := AddedIds(newConfigIds, prevConfigIds);
      configs := newConfigs;
      loading := false;
      if hasOnConfigsLoaded {
        loaded := Some(newConfigs);
      }
      if |addedIds| > 0 && hasOnSelect {
        selected := Some(addedIds[0]);
      }
      prevConfigIds := newConfigIds;
    }
  }

  /** The frames the list handler acts on. */
  predicate Handled(e: Incoming)
  {
    Payload(e).Some? && IsListReply(Payload(e).value) && IdsOf(Get(Payload(e).value, "configs").items).Some?
  }
}
