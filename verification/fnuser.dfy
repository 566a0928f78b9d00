/** fnuser.py at the repository root: the module the pipeline kernel
    imports `get_fn` and `exec_task` from. Its `get_fn` cuts the path at
    its last dot with no `^.` handling; its `exec_task` nests the three
    query components in one expression. */
module FnUser {
  import opened Wrappers
  import opened Strings
  import opened Json
  import opened PipelineCalls
  import UtilsFnUser
  import ConfigCreateForm

  /** `get_fn(path)` up to loading the module. */
  function GetFn(path: string): (r: Result<FnRef>)
    ensures r.Raise? <==> '.' !in path
    ensures r.Raise? ==> r.error == UnpackError
    ensures r.Ok? ==> r.value.moduleName + "." + r.value.fn == path && '.' !in r.value.fn
    ensures r.Ok? ==> r.value.modulePath == UtilsFnUser.ModulePath(r.value.moduleName)
  {
    match RSplitOnce(path, '.')
    case None => Raise(UnpackError)
    case Some((moduleName, fn)) => Ok(FnRef(moduleName, fn, UtilsFnUser.ModulePath(moduleName)))
  }

  /** On a path without `^.` both `get_fn`s agree. */
  lemma GetFnAgrees(path: string)
    requires forall i :: !OccursAt(path, UtilsFnUser.Caret, i)
    ensures UtilsFnUser.GetFn(path) == GetFn(path)
  {
    UtilsFnUser.CollapseWithoutCaret(path);
  }

  /** `exec_task(fn_dict, indexer, **kwargs)` with the keys `key1`,
      `key2`, `key3` for the generator, augmenter and retriever.
      `fn_dict[g](fn_dict[a](query, fn_dict[r](query)))` looks up the
      generator, then the augmenter, then the retriever, and only then
      calls the retriever, the augmenter and the generator; the generator
      gets the augmenter's result as its only argument. */
  function NestedQuery(keys: set<string>, generator: string, augmenter: string, retriever: string,
                       query: Json): (t: Trace)
    ensures t.error.None? <==> generator in keys && augmenter in keys && retriever in keys
    ensures t.error.Some? ==> t.calls == []
    ensures t.error.None? ==>
              t.calls == [Call(retriever, [Given(query)]),
                          Call(augmenter, [Given(query), ResultOf(retriever)]),
                          Call(generator, [ResultOf(augmenter)])]
  {
    if generator !in keys then Trace([], Some(KeyError(generator)))
    else if augmenter !in keys then Trace([], Some(KeyError(augmenter)))
    else if retriever !in keys then Trace([], Some(KeyError(retriever)))
    else Trace([Call(retriever, [Given(query)]),
                Call(augmenter, [Given(query), ResultOf(retriever)]),
                Call(generator, [ResultOf(augmenter)])], None)
  }

  function IndexerTask(keys: set<string>, kwargs: map<string, Json>): (t: Trace)
    ensures t.error.None? <==> "indexer" in keys
    ensures t.error.None? ==> t.calls == [Call("indexer", [Given(KwArg(kwargs, "path"))])]
    ensures t.error.Some? ==> t.calls == [] && t.error.value == KeyError("indexer")
  {
    Invoke(keys, [Call("indexer", [Given(KwArg(kwargs, "path"))])])
  }

  /** `exec_task` as written: the query branch looks the retriever up
      under the key "retreiver". */
  function ExecTaskAsWritten(keys: set<string>, indexer: bool, kwargs: map<string, Json>): (t: Trace)
    ensures t.error.Some? ==> t.calls == []
    ensures indexer ==> (t.error.None? <==> "indexer" in keys)
    ensures indexer && t.error.None? ==> t.calls == [Call("indexer", [Given(KwArg(kwargs, "path"))])]
    ensures !indexer ==> (t.error.None? <==> {"generator", "augmenter", "retreiver"} <= keys)
    ensures !indexer && t.error.None? ==>
              var q := KwArg(kwargs, "query");
              t.calls == [Call("retreiver", [Given(q)]),
                          Call("augmenter", [Given(q), ResultOf("retreiver")]),
                          Call("generator", [ResultOf("augmenter")])]
  {
    if indexer then IndexerTask(keys, kwargs)
    else NestedQuery(keys, "generator", "augmenter", "retreiver", KwArg(kwargs, "query"))
  }

  /** `exec_task` with the retriever looked up under "retriever", the key
      every config carries. */
  function ExecTask(keys: set<string>, indexer: bool, kwargs: map<string, Json>): (t: Trace)
    ensures t.error.Some? ==> t.calls == []
    ensures indexer ==> (t.error.None? <==> "indexer" in keys)
    ensures indexer && t.error.None? ==> t.calls == [Call("indexer", [Given(KwArg(kwargs, "path"))])]
    ensures !indexer ==> (t.error.None? <==> {"generator", "augmenter", "retriever"} <= keys)
    ensures !indexer && t.error.None? ==>
              var q := KwArg(kwargs, "query");
              t.calls == [Call("retriever", [Given(q)]),
                          Call("augmenter", [Given(q), ResultOf("retriever")]),
                          Call("generator", [ResultOf("augmenter")])]
  {
    if indexer then IndexerTask(keys, kwargs)
    else NestedQuery(keys, "generator", "augmenter", "retriever", KwArg(kwargs, "query"))
  }

  /** The function dictionary the kernel builds has exactly the keys of
      the config, which the config form always writes as the four
      component names. */
  function ConfigKeys(): set<string>
  {
    set c | c in ConfigCreateForm.Components
  }

  /** As written, a query run over any config the form creates calls no
      component and fails with `KeyError: 'retreiver'`. */
  lemma QueryRunFailsAsWritten(kwargs: map<string, Json>)
    ensures ExecTaskAsWritten(ConfigKeys(), false, kwargs) == Trace([], Some(KeyError("retreiver")))
  {
    assert "retreiver" !in ConfigKeys();
    assert "generator" in ConfigKeys() && "augmenter" in ConfigKeys();
  }

  /** With the intended key the same run calls retriever, augmenter and
      generator in that order, each fed the previous result; and indexing
      works the same in both. */
  lemma QueryRunCompletes(kwargs: map<string, Json>)
    ensures var q := KwArg(kwargs, "query");
            ExecTask(ConfigKeys(), false, kwargs)
            == Trace([Call("retriever", [Given(q)]),
                      Call("augmenter", [Given(q), ResultOf("retriever")]),
                      Call("generator", [ResultOf("augmenter")])], None)
    ensures ExecTask(ConfigKeys(), true, kwargs) == ExecTaskAsWritten(ConfigKeys(), true, kwargs)
    ensures ExecTask(ConfigKeys(), true, kwargs).error.None?
  {
    assert "retriever" in ConfigKeys() && "indexer" in ConfigKeys();
    assert "generator" in ConfigKeys() && "augmenter" in ConfigKeys();
  }
}
