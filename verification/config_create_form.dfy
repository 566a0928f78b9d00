/** The form that creates a calculation config
    (frontend/src/components/ConfigCreateForm.js). The form is a map from
    field name to value, as the source's object is; it starts with the
    keys `name` and the four component names. */
module ConfigCreateForm {
  import opened Json

  /** The four pipeline stages a config names a script for, in order. */
  const Components: seq<string> := ["indexer", "retriever", "augmenter", "generator"]

  const CreateErrorText: string := "Error creating config"

  /** The form before any reply or edit. */
  function InitialForm(): (form: map<string, Json>)
    ensures form.Keys == {"name"} + set c | c in Components
    ensures forall k | k in form :: form[k] == Str("")
  {
    map["name" := Str(""), "indexer" := Str(""), "retriever" := Str(""),
        "augmenter" := Str(""), "generator" := Str("")]
  }

  /** `form[c]`, undefined when the field is absent. */
  function Field(form: map<string, Json>, c: string): Json
  {
    if c in form then form[c] else Undefined
  }

  /** A reply that carries defaults: ok, with a truthy registry and a
      truthy default config. */
  predicate CarriesDefaults(data: Json)
  {
    Get(data, "status") == Str("ok") && Truthy(Get(data, "registry")) && Truthy(Get(data, "default_config"))
  }

  /** `default_config[c]?.path || ""`. */
  function DefaultPath(defaultConfig: Json, c: string): (r: Json)
    ensures Truthy(r) || r == Str("")
    ensures Truthy(Get(Get(defaultConfig, c), "path")) ==> r == Get(Get(defaultConfig, c), "path")
  {
    var path := Get(Get(defaultConfig, c), "path");
    if Truthy(path) then path else Str("")
  }

  /** `{...prev, ...Object.fromEntries(COMPONENTS.map(c => [c, default path]))}`:
      every component field takes its default path, every other field
      (the name among them) is kept. */
  function WithDefaults(form: map<string, Json>, defaultConfig: Json): (r: map<string, Json>)
    ensures r.Keys == form.Keys + set c | c in Components
    ensures forall c | c in Components :: r[c] == DefaultPath(defaultConfig, c)
    ensures forall k | k in form && k !in Components :: r[k] == form[k]
  {
    map k | k in form.Keys + (set c | c in Components) ::
      if k in Components then DefaultPath(defaultConfig, k) else form[k]
  }

  /** Defaults applied twice are the defaults applied once. */
  lemma WithDefaultsIdempotent(form: map<string, Json>, dc: Json)
    ensures WithDefaults(WithDefaults(form, dc), dc) == WithDefaults(form, dc)
  {
    var once := WithDefaults(form, dc);
    var twice := WithDefaults(once, dc);
    assert twice.Keys == once.Keys;
    forall k | k in twice ensures twice[k] == once[k] {
      if k in Components {
        assert twice[k] == DefaultPath(dc, k) == once[k];
      }
    }
  }

  /** The defaults override whatever the user chose for a component. */
  lemma DefaultsOverride(form: map<string, Json>, dc: Json, c: string, v: Json)
    requires c in Components
    ensures WithDefaults(form[c := v], dc) == WithDefaults(form, dc)
  {
    var once := WithDefaults(form, dc);
    var overridden := WithDefaults(form[c := v], dc);
    assert overridden.Keys == once.Keys;
    forall k | k in overridden ensures overridden[k] == once[k] {
      if k in Components {
        assert overridden[k] == DefaultPath(dc, k) == once[k];
      }
    }
  }

  /** The reply to a submission, as the response listener reads it: a
      frame that does not parse, or has any other status, is ignored. */
  datatype Response = NoResponse | Created | CreateFailed(message: Json)

  function ResponseOf(e: Incoming): (r: Response)
    ensures r.Created? <==> Payload(e).Some? && Get(e.data, "status") == Str("ok")
    ensures r.CreateFailed? <==> Payload(e).Some? && Get(e.data, "status") == Str("error")
    ensures r.CreateFailed? ==> Truthy(r.message)
  {
    match Payload(e)
    case None => NoResponse
    case Some(data) =>
      if Get(data, "status") == Str("ok") then Created
      else if Get(data, "status") == Str("error") then
        CreateFailed(if Truthy(Get(data, "message")) then Get(data, "message") else Str(CreateErrorText))
      else NoResponse
  }

  /** The `config` command for a form and its config value. */
  function ConfigMessage(form: map<string, Json>, configJson: Json): Outgoing
  {
    Outgoing("config", [Field(form, "name"), Str("calculation"), configJson])
  }

  /** The config value a form describes: exactly the four component keys,
      each `{path: form[c], settings: {}}`. */
  predicate IsConfigJson(configJson: Json, form: map<string, Json>)
  {
    configJson.Obj?
    && configJson.fields.Keys == (set c | c in Components)
    && forall c | c in Components ::
         configJson.fields[c] == Obj(map["path" := Field(form, c), "settings" := Obj(map[])])
  }

  /** The `config` command for a form: its name, the type "calculation" and
      its config value. */
  predicate IsConfigMessage(m: Outgoing, form: map<string, Json>)
  {
    m.command == "config" && |m.args| == 3
    && m.args[0] == Field(form, "name") && m.args[1] == Str("calculation")
    && IsConfigJson(m.args[2], form)
  }

  /** `configJson`, built by the `forEach` over the components. */
  method BuildConfigJson(form: map<string, Json>) returns (configJson: Json)
    ensures IsConfigJson(configJson, form)
  {
    var fields: map<string, Json> := map[];
    for i := 0 to |Components|
      invariant fields.Keys == set j | 0 <= j < i :: Components[j]
      invariant forall j | 0 <= j < i ::
                  fields[Components[j]] == Obj(map["path" := Field(form, Components[j]), "settings" := Obj(map[])])
    {
      var c := Components[i];
      fields := fields[c := Obj(map["path" := Field(form, c), "settings" := Obj(map[])])];
    }
    assert forall c | c in Components :: exists j | 0 <= j < |Components| :: Components[j] == c;
    configJson := Obj(fields);
  }

  /** The socket the form is given: none, still connecting, open, or
      closing or closed. */
  datatype Socket = NoSocket | Connecting | Open | Closed

  class Component {
    var loading: bool
    var registry: Json
    var defaultConfig: Json
    var form: map<string, Json>
    var error: Json
    var submitting: bool
    var defaultsListening: bool   // the mount-time listener for defaults
    var openListening: bool       // the mount-time one-shot `open` listener
    var responseListeners: nat    // live listeners added by submissions
    var sent: seq<Outgoing>

    constructor()
      ensures loading && registry == Obj(map[]) && defaultConfig == Obj(map[]) && form == InitialForm()
      ensures error == Null && !submitting && !defaultsListening && !openListening
      ensures responseListeners == 0 && sent == []
    {
      loading := true;
      registry := Obj(map[]);
      defaultConfig := Obj(map[]);
      form := InitialForm();
      error := Null;
      submitting := false;
      defaultsListening := false;
      openListening := false;
      responseListeners := 0;
      sent := [];
    }

    /** The mount effect. Without a socket it does nothing. Otherwise it
        asks for the creation info at once when the socket is open, or on
        its `open` event when it is still connecting, and listens for the
        defaults from then on. */
    method Mount(socket: Socket)
      modifies this
      ensures socket == NoSocket ==> defaultsListening == old(defaultsListening) && openListening == old(openListening)
      ensures socket != NoSocket ==> defaultsListening
      ensures openListening == (if socket == Connecting then true else old(openListening))
      ensures sent == old(sent) + (if socket == Open then [Outgoing("config_creation_info", [])] else [])
      ensures loading == old(loading) && registry == old(registry) && defaultConfig == old(defaultConfig)
      ensures form == old(form) && error == old(error) && submitting == old(submitting)
      ensures responseListeners == old(responseListeners)
    {
      if socket == NoSocket {
        return;
      }
      if socket == Open {
        sent := sent + [Outgoing("config_creation_info", [])];
      } else if socket == Connecting {
        openListening := true;
      }
      defaultsListening := true;
    }

    /** The socket opens: a pending `open` listener sends the request for
        the creation info, once. */
    method OnOpen()
      modifies this
      ensures !openListening
      ensures sent == old(sent) + (if old(openListening) then [Outgoing("config_creation_info", [])] else [])
      ensures loading == old(loading) && registry == old(registry) && defaultConfig == old(defaultConfig)
      ensures form == old(form) && error == old(error) && submitting == old(submitting)
      ensures defaultsListening == old(defaultsListening) && responseListeners == old(responseListeners)
    {
      if openListening {
        sent := sent + [Outgoing("config_creation_info", [])];
        openListening := false;
      }
    }

    /** The mount effect's cleanup removes the defaults listener and, while
        the socket is still connecting, the `open` listener; the cleanup a
        submission returns is never called, so its listener stays. */
    method Unmount(socket: Socket)
      modifies this
      ensures !defaultsListening
      ensures openListening == (old(openListening) && socket != Connecting)
      ensures loading == old(loading) && registry == old(registry) && defaultConfig == old(defaultConfig)
      ensures form == old(form) && error == old(error) && submitting == old(submitting)
      ensures responseListeners == old(responseListeners) && sent == old(sent)
    {
      if socket == Connecting {
        openListening := false;
      }
      defaultsListening := false;
    }

    /** `handleChange(e)`: only the named field changes. */
    method HandleChange(name: string, value: string)
      modifies this
      ensures form == old(form)[name := Str(value)]
      ensures forall k | k in old(form) && k != name :: form[k] == old(form)[k]
      ensures submitting == old(submitting) && sent == old(sent) && error == old(error)
      ensures loading == old(loading) && registry == old(registry) && defaultConfig == old(defaultConfig)
      ensures defaultsListening == old(defaultsListening) && openListening == old(openListening)
      ensures responseListeners == old(responseListeners)
    {
      form := form[name := Str(value)];
    }

    /** `handleSubmit`: clears the error, marks the form submitting, adds a
        response listener and sends the `config` command, but only when the
        socket is open. */
    method HandleSubmit(socketOpen: bool)
      modifies this
      ensures error == Null && submitting && form == old(form)
      ensures loading == old(loading) && registry == old(registry) && defaultConfig == old(defaultConfig)
      ensures defaultsListening == old(defaultsListening) && openListening == old(openListening)
      ensures responseListeners == old(responseListeners) + 1
      ensures !socketOpen ==> sent == old(sent)
      ensures socketOpen ==> |sent| == |old(sent)| + 1 && sent[..|old(sent)|] == old(sent)
                             && IsConfigMessage(sent[|sent| - 1], form)
    {
      error := Null;
      submitting := true;
      var configJson := BuildConfigJson(form);
      var message := ConfigMessage(form, configJson);
      responseListeners := responseListeners + 1;
      if socketOpen {
        sent := sent + [message];
        assert sent[..|old(sent)|] == old(sent);
      }
    }

    /** A frame arrives. The defaults listener (added first) reads it, then
        the response listeners do. */
    method OnMessage(e: Incoming, hasOnCreated: bool, hasOnClose: bool)
      returns (createdCalls: nat, closeCalls: nat)
      modifies this
      ensures defaultsListening == old(defaultsListening) && openListening == old(openListening) && sent == old(sent)
      ensures old(defaultsListening) && Payload(e).Some? && CarriesDefaults(e.data) ==>
                form == WithDefaults(old(form), Get(e.data, "default_config"))
                && registry == Get(e.data, "registry") && defaultConfig == Get(e.data, "default_config")
                && !loading
      ensures !(old(defaultsListening) && Payload(e).Some? && CarriesDefaults(e.data)) ==>
                form == old(form) && registry == old(registry) && defaultConfig == old(defaultConfig)
                && loading == old(loading)
      ensures old(responseListeners) == 0 || ResponseOf(e).NoResponse? ==>
                responseListeners == old(responseListeners) && submitting == old(submitting)
                && error == old(error) && createdCalls == 0 && closeCalls == 0
      ensures old(responseListeners) > 0 && ResponseOf(e).Created? ==>
                responseListeners == 0 && !submitting && error == old(error)
                && createdCalls == (if hasOnCreated then old(responseListeners) else 0)
                && closeCalls == (if hasOnClose then old(responseListeners) else 0)
      ensures old(responseListeners) > 0 && ResponseOf(e).CreateFailed? ==>
                responseListeners == 0 && !submitting && error == ResponseOf(e).message
                && createdCalls == 0 && closeCalls == 0
    {
      if defaultsListening {
        HandleDefaults(e);
      }
      createdCalls, closeCalls := HandleResponse(e, hasOnCreated, hasOnClose);
    }

    /** The defaults listener: a reply carrying defaults stores the registry
        and the default config, fills the component fields and ends loading;
        anything else, a frame that does not parse included, is ignored. */
    method HandleDefaults(e: Incoming)
      modifies this
      ensures defaultsListening == old(defaultsListening) && openListening == old(openListening) && sent == old(sent)
      ensures responseListeners == old(responseListeners) && submitting == old(submitting) && error == old(error)
      ensures Payload(e).Some? && CarriesDefaults(e.data) ==>
                form == WithDefaults(old(form), Get(e.data, "default_config"))
                && registry == Get(e.data, "registry") && defaultConfig == Get(e.data, "default_config")
                && !loading
      ensures !(Payload(e).Some? && CarriesDefaults(e.data)) ==>
                form == old(form) && registry == old(registry) && defaultConfig == old(defaultConfig)
                && loading == old(loading)
    {
      var p := Payload(e);
      if p.Some? && CarriesDefaults(p.value) {
        registry := Get(p.value, "registry");
        defaultConfig := Get(p.value, "default_config");
        form := WithDefaults(form, defaultConfig);
        loading := false;
      }
    }

    /** The response listeners, all alike: a success removes them all,
        clears `submitting` and calls `onCreated` and `onClose` once per
        listener; an error sets the error and removes them all; anything
        else leaves them waiting. */
    method HandleResponse(e: Incoming, hasOnCreated: bool, hasOnClose: bool)
      returns (createdCalls: nat, closeCalls: nat)
      modifies this
      ensures defaultsListening == old(defaultsListening) && openListening == old(openListening) && sent == old(sent)
      ensures form == old(form) && registry == old(registry) && defaultConfig == old(defaultConfig)
      ensures loading == old(loading)
      ensures old(responseListeners) == 0 || ResponseOf(e).NoResponse? ==>
                responseListeners == old(responseListeners) && submitting == old(submitting)
                && error == old(error) && createdCalls == 0 && closeCalls == 0
      ensures old(responseListeners) > 0 && ResponseOf(e).Created? ==>
                responseListeners == 0 && !submitting && error == old(error)
                && createdCalls == (if hasOnCreated then old(responseListeners) else 0)
                && closeCalls == (if hasOnClose then old(responseListeners) else 0)
      ensures old(responseListeners) > 0 && ResponseOf(e).CreateFailed? ==>
                responseListeners == 0 && !submitting && error == ResponseOf(e).message
                && createdCalls == 0 && closeCalls == 0
    {
      createdCalls, closeCalls := 0, 0;
      if responseListeners > 0 {
        match ResponseOf(e)
        case NoResponse =>
        case Created =>
          createdCalls := if hasOnCreated then responseListeners else 0;
          closeCalls := if hasOnClose then responseListeners else 0;
          submitting := false;
          responseListeners := 0;
        case CreateFailed(message) =>
          error := message;
          submitting := false;
          responseListeners := 0;
      }
    }
  }

  /** Mounted on a socket that is still connecting, the form asks for the
      creation info exactly once, when the socket opens. */
  method MountWhileConnecting() returns (sentBefore: seq<Outgoing>, sentAfter: seq<Outgoing>)
    ensures sentBefore == [] && sentAfter == [Outgoing("config_creation_info", [])]
  {
    var f := new Component();
    f.Mount(Connecting);
    sentBefore := f.sent;
    f.OnOpen();
    f.OnOpen();
    sentAfter := f.sent;
  }

  /** Without a socket the form never listens and never leaves its loading
      state, so the submit form is not shown. */
  method MountWithoutSocket() returns (loading: bool, listening: bool)
    ensures loading && !listening
  {
    var f := new Component();
    f.Mount(NoSocket);
    loading, listening := f.loading, f.defaultsListening || f.openListening || f.responseListeners > 0;
  }
}
