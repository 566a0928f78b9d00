/** The popup that lists the user's scripts and deletes them one by one
    (frontend/src/components/ScriptsListPopup.js). The socket's message
    listeners that belong to this popup are kept in registration order;
    a frame is delivered to each of them in turn, and each one removes
    itself after its first frame. */
module ScriptsListPopup {
  import opened Json
  import Strings

  const ParseErrorText: string := "Ошибка при разборе ответа сервера"
  const ListErrorText: string := "Ошибка при получении списка скриптов"
  const DeleteErrorText: string := "Ошибка при удалении скрипта"

  /** `deleteStatus[file]`: "pending", "error" or "ok". */
  datatype DeleteStatus = Pending | Failed | Deleted

  /** A listener this popup has added: the one for the script list, or the
      one for the deletion of `file`. */
  datatype Listener = ListListener | DeleteListener(file: Json)

  /** The popup's state, as a value. `deleteStatus` is keyed by `String(file)`,
      the key `{[file]: ...}` gives. */
  datatype Popup = Popup(
    visibleFiles: seq<Json>,
    loading: bool,
    error: Json,
    deleteStatus: map<string, DeleteStatus>,
    deleteError: Json)

  /** `files.filter(f => f !== file)`. */
  function Without(files: seq<Json>, file: Json): (r: seq<Json>)
    ensures |r| <= |files|
  {
    if files == [] then []
    else (if files[0] == file then [] else [files[0]]) + Without(files[1..], file)
  }

  /** The filter removes exactly `file`, and a list without it is kept as
      it is. */
  lemma {:induction false} WithoutRemovesExactly(files: seq<Json>, file: Json)
    ensures forall x :: x in Without(files, file) <==> x in files && x != file
    ensures file !in files ==> Without(files, file) == files
  {
    if files != [] {
      WithoutRemovesExactly(files[1..], file);
      assert files == [files[0]] + files[1..];
    }
  }

  /** Removing a file keeps the other files in their order: filtering
      distributes over concatenation. */
  lemma {:induction false} WithoutKeepsOrder(a: seq<Json>, b: seq<Json>, file: Json)
    ensures Without(a + b, file) == Without(a, file) + Without(b, file)
  {
    if a == [] {
      assert a + b == b;
    } else {
      WithoutKeepsOrder(a[1..], b, file);
      WithoutHead(a + b, file);
      assert (a + b)[0] == a[0] && (a + b)[1..] == a[1..] + b;
      Strings.ConcatAssoc(if a[0] == file then [] else [a[0]], Without(a[1..], file), Without(b, file));
    }
  }

  lemma WithoutHead(s: seq<Json>, file: Json)
    requires s != []
    ensures Without(s, file) == (if s[0] == file then [] else [s[0]]) + Without(s[1..], file)
  {
  }

  /** What a frame means to a deletion listener. */
  datatype DeleteReply = Ignored | DeleteOk | DeleteFailed(message: Json)

  /** The deletion listener's reading of a frame: a frame that does not
      parse (or is `null`) is a failure; an ok or error status with a string
      message is a success or a failure; anything else is ignored. */
  function DeleteReplyOf(e: Incoming): (r: DeleteReply)
    ensures Payload(e).None? ==> r == DeleteFailed(Str(ParseErrorText))
    ensures r == DeleteOk <==>
              Payload(e).Some? && Get(e.data, "status") == Str("ok") && Get(e.data, "message").Str?
    ensures r.Ignored? <==>
              Payload(e).Some? && !(Get(e.data, "message").Str?
                                    && Get(e.data, "status") in {Str("ok"), Str("error")})
    ensures r.DeleteFailed? && Payload(e).Some? ==>
              r.message == (if Get(e.data, "message") == Str("") then Str(DeleteErrorText) else Get(e.data, "message"))
  {
    match Payload(e)
    case None => DeleteFailed(Str(ParseErrorText))
    case Some(data) =>
      var status := Get(data, "status");
      var message := Get(data, "message");
      if (status == Str("ok") || status == Str("error")) && message.Str? then
        if status == Str("ok") then DeleteOk
        else DeleteFailed(if Truthy(message) then message else Str(DeleteErrorText))
      else Ignored
  }

  /** `handleDeleteScript(event)` for `file`, on the state values. */
  function DeleteUpdate(p: Popup, file: Json, e: Incoming): (r: Popup)
    ensures r.loading == p.loading && r.error == p.error
  {
    match DeleteReplyOf(e)
    case Ignored => p
    case DeleteOk =>
      p.(deleteStatus := p.deleteStatus[ToStr(file) := Deleted],
         visibleFiles := Without(p.visibleFiles, file))
    case DeleteFailed(message) =>
      p.(deleteStatus := p.deleteStatus[ToStr(file) := Failed], deleteError := message)
  }

  /** `handleListScripts(event)`, on the state values. */
  function ListUpdate(p: Popup, e: Incoming): (r: Popup)
    ensures r.deleteStatus == p.deleteStatus && r.deleteError == p.deleteError
    ensures Payload(e).None? ==> r == p.(error := Str(ParseErrorText), loading := false)
    ensures Payload(e).Some? && Get(e.data, "status") == Str("ok") && Get(e.data, "visible").Arr? ==>
              r == p.(visibleFiles := Get(e.data, "visible").items, loading := false)
    ensures Payload(e).Some? && Get(e.data, "status") == Str("ok") && !Get(e.data, "visible").Arr? ==> r == p
    ensures Payload(e).Some? && Get(e.data, "status") == Str("error") ==>
              r == p.(error := if Truthy(Get(e.data, "message")) then Get(e.data, "message") else Str(ListErrorText),
                      loading := false)
    ensures Payload(e).Some? && Get(e.data, "status") != Str("ok") && Get(e.data, "status") != Str("error") ==>
              r == p
  {
    match Payload(e)
    case None => p.(error := Str(ParseErrorText), loading := false)
    case Some(data) =>
      if Get(data, "status") == Str("ok") && IsArray(Get(data, "visible")) then
        p.(visibleFiles := Get(data, "visible").items, loading := false)
      else if Get(data, "status") == Str("error") then
        p.(error := if Truthy(Get(data, "message")) then Get(data, "message") else Str(ListErrorText),
           loading := false)
      else p
  }

  /** One listener's effect. */
  function Deliver(p: Popup, l: Listener, e: Incoming): Popup
  {
    match l
    case ListListener => ListUpdate(p, e)
    case DeleteListener(file) => DeleteUpdate(p, file, e)
  }

  /** One frame delivered to the listeners `ls`, first to last. */
  function DeliverAll(p: Popup, ls: seq<Listener>, e: Incoming): Popup
    decreases |ls|
  {
    if ls == [] then p else Deliver(DeliverAll(p, ls[..|ls| - 1], e), ls[|ls| - 1], e)
  }

  /** The keys of the files that listeners `ls` are deleting. */
  function DeletingKeys(ls: seq<Listener>): (keys: set<string>)
    ensures forall f :: DeleteListener(f) in ls ==> ToStr(f) in keys
  {
    set l | l in ls && l.DeleteListener? :: ToStr(l.file)
  }

  /** A frame changes the deletion status of no file other than those with
      a deletion listener, and adds no other key. */
  lemma {:induction false} OtherStatusesUnchanged(p: Popup, ls: seq<Listener>, e: Incoming)
    ensures forall k | k !in DeletingKeys(ls) ::
              (k in DeliverAll(p, ls, e).deleteStatus <==> k in p.deleteStatus)
              && (k in p.deleteStatus ==> DeliverAll(p, ls, e).deleteStatus[k] == p.deleteStatus[k])
    decreases |ls|
  {
    if ls != [] {
      var init := ls[..|ls| - 1];
      OtherStatusesUnchanged(p, init, e);
      assert DeletingKeys(init) <= DeletingKeys(ls) by {
        forall l | l in init ensures l in ls { }
      }
    }
  }

  /** A deletion that succeeds marks the file deleted and removes every
      occurrence of it from the list, leaving the rest in order. */
  lemma DeleteOkRemovesFile(p: Popup, file: Json, e: Incoming)
    requires DeleteReplyOf(e) == DeleteOk
    ensures ToStr(file) in DeliverAll(p, [DeleteListener(file)], e).deleteStatus
    ensures DeliverAll(p, [DeleteListener(file)], e).deleteStatus[ToStr(file)] == Deleted
    ensures DeliverAll(p, [DeleteListener(file)], e).visibleFiles == Without(p.visibleFiles, file)
    ensures DeliverAll(p, [DeleteListener(file)], e).deleteError == p.deleteError
  {
    assert [DeleteListener(file)][..0] == [];
  }

  /** A deletion that fails marks the file failed, reports the message and
      keeps the list. */
  lemma DeleteFailedKeepsFile(p: Popup, file: Json, e: Incoming)
    requires DeleteReplyOf(e).DeleteFailed?
    ensures ToStr(file) in DeliverAll(p, [DeleteListener(file)], e).deleteStatus
    ensures DeliverAll(p, [DeleteListener(file)], e).deleteStatus[ToStr(file)] == Failed
    ensures DeliverAll(p, [DeleteListener(file)], e).visibleFiles == p.visibleFiles
    ensures DeliverAll(p, [DeleteListener(file)], e).deleteError == DeleteReplyOf(e).message
  {
    assert [DeleteListener(file)][..0] == [];
  }

  /** An ignored frame still uses up the listener: a pending file stays
      pending with no listener left to settle it. */
  lemma IgnoredFrameLeavesPending(p: Popup, file: Json, e: Incoming)
    requires ToStr(file) in p.deleteStatus && p.deleteStatus[ToStr(file)] == Pending
    requires DeleteReplyOf(e).Ignored?
    ensures DeliverAll(p, [DeleteListener(file)], e) == p
  {
    assert [DeleteListener(file)][..0] == [];
  }

  /** The replies carry no file name, so while two deletions wait, the
      first success reply settles both: both files are marked deleted and
      both leave the list. */
  lemma OneReplySettlesBoth(p: Popup, f: Json, g: Json, e: Incoming)
    requires DeleteReplyOf(e) == DeleteOk
    ensures var r := DeliverAll(p, [DeleteListener(f), DeleteListener(g)], e);
            ToStr(f) in r.deleteStatus && r.deleteStatus[ToStr(f)] == Deleted
            && ToStr(g) in r.deleteStatus && r.deleteStatus[ToStr(g)] == Deleted
            && f !in r.visibleFiles && g !in r.visibleFiles
  {
    var ls := [DeleteListener(f), DeleteListener(g)];
    assert ls[..1] == [DeleteListener(f)];
    assert ls[..1][..0] == [];
    var mid := DeliverAll(p, ls[..1], e);
    assert mid.deleteStatus[ToStr(f)] == Deleted;
    assert DeliverAll(p, ls, e) == DeleteUpdate(mid, g, e);
    assert mid == Deliver(DeliverAll(p, [], e), DeleteListener(f), e);
    assert mid == DeleteUpdate(p, f, e);
    assert mid.visibleFiles == Without(p.visibleFiles, f);
    WithoutRemovesExactly(p.visibleFiles, f);
    assert f !in mid.visibleFiles;
    WithoutRemovesExactly(mid.visibleFiles, g);
    assert DeliverAll(p, ls, e).visibleFiles == Without(mid.visibleFiles, g);
  }

  /** The "delete" button of `file` is disabled while its deletion waits. */
  predicate DeleteDisabled(deleteStatus: map<string, DeleteStatus>, file: Json)
  {
    ToStr(file) in deleteStatus && deleteStatus[ToStr(file)] == Pending
  }

  /** `ls` without the list listener. */
  function WithoutListListener(ls: seq<Listener>): (r: seq<Listener>)
    ensures ListListener !in r
    ensures forall l | l != ListListener :: l in r <==> l in ls
  {
    if ls == [] then []
    else (if ls[0] == ListListener then [] else [ls[0]]) + WithoutListListener(ls[1..])
  }

  class Component {
    var visibleFiles: seq<Json>
    var loading: bool
    var error: Json
    var deleteStatus: map<string, DeleteStatus>
    var deleteError: Json
    var listeners: seq<Listener>
    var sent: seq<Outgoing>

    constructor()
      ensures visibleFiles == [] && loading && error == Null && deleteStatus == map[] && deleteError == Null
      ensures listeners == [] && sent == []
    {
      visibleFiles := [];
      loading := true;
      error := Null;
      deleteStatus := map[];
      deleteError := Null;
      listeners := [];
      sent := [];
    }

    function Snapshot(): Popup
      reads this
    {
      Popup(visibleFiles, loading, error, deleteStatus, deleteError)
    }

    /** The list effect, run again whenever `open` or the socket changes:
        the previous run's list listener is removed; then, when open with
        an open socket, `list_scripts` is sent and a new list listener
        added. */
    method OnOpenChange(open: bool, socketOpen: bool)
      modifies this
      ensures !open || !socketOpen ==>
                listeners == WithoutListListener(old(listeners)) && Snapshot() == old(Snapshot())
                && sent == old(sent)
      ensures open && socketOpen ==>
                listeners == WithoutListListener(old(listeners)) + [ListListener]
                && loading && error == Null
                && visibleFiles == old(visibleFiles) && deleteStatus == old(deleteStatus)
                && deleteError == old(deleteError)
                && sent == old(sent) + [Outgoing("list_scripts", [])]
    {
      listeners := WithoutListListener(listeners);
      if !open || !socketOpen {
        return;
      }
      loading := true;
      error := Null;
      sent := sent + [Outgoing("list_scripts", [])];
      listeners := listeners + [ListListener];
    }

    /** `handleDelete(file)`: nothing without an open socket; otherwise the
        file is marked pending, the deletion error cleared, `delete_script`
        sent and a deletion listener for the file added. */
    method HandleDelete(file: Json, socketOpen: bool)
      modifies this
      ensures !socketOpen ==> Snapshot() == old(Snapshot()) && listeners == old(listeners) && sent == old(sent)
      ensures socketOpen ==>
                deleteStatus == old(deleteStatus)[ToStr(file) := Pending] && deleteError == Null
                && visibleFiles == old(visibleFiles) && loading == old(loading) && error == old(error)
                && sent == old(sent) + [Outgoing("delete_script", [file])]
                && listeners == old(listeners) + [DeleteListener(file)]
    {
      if !socketOpen {
        return;
      }
      deleteStatus := deleteStatus[ToStr(file) := Pending];
      deleteError := Null;
      sent := sent + [Outgoing("delete_script", [file])];
      listeners := listeners + [DeleteListener(file)];
    }

    /** A frame arrives: each listener handles it in registration order
        and removes itself, so none is left afterwards. */
    method OnMessage(e: Incoming)
      modifies this
      ensures Snapshot() == DeliverAll(old(Snapshot()), old(listeners), e)
      ensures listeners == [] && sent == old(sent)
    {
      var ls := listeners;
      for i := 0 to |ls|
        invariant Snapshot() == DeliverAll(old(Snapshot()), ls[..i], e)
        invariant sent == old(sent)
      {
        assert ls[..i + 1][..i] == ls[..i];
        match ls[i]
        case ListListener =>
          var p := ListUpdate(Snapshot(), e);
          visibleFiles, loading, error := p.visibleFiles, p.loading, p.error;
        case DeleteListener(file) =>
          var reply := DeleteReplyOf(e);
          if reply == DeleteOk {
            deleteStatus := deleteStatus[ToStr(file) := Deleted];
            visibleFiles := Without(visibleFiles, file);
          } else if reply.DeleteFailed? {
            deleteStatus := deleteStatus[ToStr(file) := Failed];
            deleteError := reply.message;
          }
      }
      assert ls[..|ls|] == ls;
      listeners := [];
    }
  }
}
