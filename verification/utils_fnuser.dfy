/** The string part of utils/fnuser.py: `get_fn` turns a dotted function
    path, optionally led by `^.` markers, into a module name, a function
    name and a module file; `exec_task` awaits the components in pipeline
    order. Loading the module and awaiting the calls are left to the
    interpreter. */
module UtilsFnUser {
  import opened Wrappers
  import opened Strings
  import opened Json
  import opened PipelineCalls

  const Caret: string := "^."

  /** The number of `^.` markers `get_fn` counts: one less than the pieces
      of the path split on them. */
  function CaretCount(path: string): nat
  {
    |Split(path, Caret)| - 1
  }

  /** The path after `^.` collapsing: the text after the last marker, with
      as many leading dotted components dropped as there were markers. */
  function Collapse(path: string): string
  {
    var parts := Split(path, Caret);
    var count := CaretCount(path);
    var pathParts := Split(parts[|parts| - 1], ".");
    Join(if count <= |pathParts| then pathParts[count..] else [], ".")
  }

  /** `module_name.replace(".", "/") + ".py"`: the module name with every
      dot turned into a slash, then the `.py` suffix. */
  function ModulePath(moduleName: string): (p: string)
    ensures EndsWith(p, ".py")
    ensures |p| == |moduleName| + 3 && p[|moduleName|..] == ".py"
    ensures forall i | 0 <= i < |moduleName| :: p[i] == (if moduleName[i] == '.' then '/' else moduleName[i])
  {
    ReplaceCharByChar(moduleName, '.', '/');
    ReplaceChar(moduleName, '.', "/") + ".py"
  }

  /** `get_fn(path)` up to loading the module: the collapsed path is cut at
      its last dot; without a dot the unpacking raises. */
  function GetFn(path: string): (r: Result<FnRef>)
    ensures r.Raise? <==> '.' !in Collapse(path)
    ensures r.Raise? ==> r.error == UnpackError
    ensures r.Ok? ==> r.value.moduleName + "." + r.value.fn == Collapse(path) && '.' !in r.value.fn
    ensures r.Ok? ==> r.value.modulePath == ModulePath(r.value.moduleName)
  {
    match RSplitOnce(Collapse(path), '.')
    case None => Raise(UnpackError)
    case Some((moduleName, fn)) => Ok(FnRef(moduleName, fn, ModulePath(moduleName)))
  }

  /** A path without `^.` is not changed by collapsing. */
  lemma CollapseWithoutCaret(path: string)
    requires forall i :: !OccursAt(path, Caret, i)
    ensures CaretCount(path) == 0 && Collapse(path) == path
  {
    SplitNoOccurrence(path, Caret);
    var pathParts := Split(path, ".");
    assert pathParts[0..] == pathParts;
    JoinSplit(path, ".");
  }

  function Repeat(s: string, k: nat): string
  {
    if k == 0 then [] else s + Repeat(s, k - 1)
  }

  /** `k` markers in front of a path without markers split off as `k`
      empty pieces. */
  lemma {:induction false} SplitCarets(k: nat, rest: string)
    requires forall i :: !OccursAt(rest, Caret, i)
    ensures Split(Repeat(Caret, k) + rest, Caret) == seq(k, _ => "") + [rest]
  {
    if k == 0 {
      SplitNoOccurrence(rest, Caret);
      assert Repeat(Caret, 0) + rest == rest;
    } else {
      SplitCarets(k - 1, rest);
      assert Repeat(Caret, k) + rest == Caret + (Repeat(Caret, k - 1) + rest);
      SplitLeadingSep(Repeat(Caret, k - 1) + rest, Caret);
      assert seq(k, _ => "") == [""] + seq(k - 1, _ => "");
    }
  }

  /** `k` leading markers are counted, and drop the first `k` dotted
      components of what follows them. */
  lemma LeadingCaretsDropComponents(k: nat, rest: string)
    requires forall i :: !OccursAt(rest, Caret, i)
    ensures CaretCount(Repeat(Caret, k) + rest) == k
    ensures var pathParts := Split(rest, ".");
            Collapse(Repeat(Caret, k) + rest) == Join(if k <= |pathParts| then pathParts[k..] else [], ".")
  {
    SplitCarets(k, rest);
  }

  /** `exec_task(fn_dict, indexer, **kwargs)`: the indexer alone with the
      `path` keyword argument, or retriever, augmenter and generator in
      turn, each given the query and the previous result. */
  function ExecTask(keys: set<string>, indexer: bool, kwargs: map<string, Json>): (t: Trace)
    ensures indexer ==> t.calls == [] || t.calls == [Call("indexer", [Given(KwArg(kwargs, "path"))])]
    ensures !indexer ==> forall i | 0 <= i < |t.calls| :: t.calls[i].key != "indexer"
  {
    if indexer then Invoke(keys, [Call("indexer", [Given(KwArg(kwargs, "path"))])])
    else
      var query := Given(KwArg(kwargs, "query"));
      Invoke(keys, [Call("retriever", [query]),
                    Call("augmenter", [query, ResultOf("retriever")]),
                    Call("generator", [query, ResultOf("augmenter")])])
  }

  /** With all four components present the task completes: the indexer
      is called alone, or the three query components are called in
      pipeline order, each with the query and the augmenter and generator
      with the result of the stage before them. */
  lemma ExecTaskCompletes(keys: set<string>, indexer: bool, kwargs: map<string, Json>)
    requires {"indexer", "retriever", "augmenter", "generator"} <= keys
    ensures var t := ExecTask(keys, indexer, kwargs);
            t.error.None?
            && (indexer ==> t.calls == [Call("indexer", [Given(KwArg(kwargs, "path"))])])
            && (!indexer ==>
                  var q := Given(KwArg(kwargs, "query"));
                  t.calls == [Call("retriever", [q]),
                              Call("augmenter", [q, ResultOf("retriever")]),
                              Call("generator", [q, ResultOf("augmenter")])])
  {
  }
}
