/** utils/import_getter.py: the import statements at the top level of a
    parsed module, one record per imported name, and their rendering as
    source lines. Reading and parsing the file is left out; the module's
    top-level statements arrive as a list of nodes. */
module ImportGetter {
  import opened Wrappers
  import opened Strings

  /** One imported name and its `as` name. */
  datatype Alias = Alias(name: string, asname: Option<string>)

  /** A top-level statement: `import ...`, `from M import ...` (the module
      is absent for `from . import x`; `level` counts the leading dots),
      or anything else. */
  datatype Node =
    | ImportNode(names: seq<Alias>)
    | ImportFromNode(moduleName: Option<string>, level: nat, names: seq<Alias>)
    | OtherNode

  /** The `Import` named tuple: module and name split on dots. */
  datatype Import = Import(moduleParts: seq<string>, name: seq<string>, alias: Option<string>)

  /** `node.module.split('.')` on a relative import without a module. */
  const NoModuleError: Exception := Exception("AttributeError", "'NoneType' object has no attribute 'split'")

  /** The records one statement yields. */
  function NodeImports(node: Node): (r: Result<seq<Import>>)
    ensures node.OtherNode? ==> r == Ok([])
    ensures r.Raise? <==> node.ImportFromNode? && node.moduleName.None?
    ensures r.Ok? && !node.OtherNode? ==>
              |r.value| == |node.names|
              && forall i | 0 <= i < |node.names| ::
                   r.value[i].name == Split(node.names[i].name, ".")
                   && r.value[i].alias == node.names[i].asname
                   && r.value[i].moduleParts == (if node.ImportNode? then [] else Split(node.moduleName.value, "."))
  {
    match node
    case OtherNode => Ok([])
    case ImportNode(names) => Ok(Records([], names))
    case ImportFromNode(moduleName, _, names) =>
      if moduleName.None? then Raise(NoModuleError) else Ok(Records(Split(moduleName.value, "."), names))
  }

  function Records(moduleName: seq<string>, names: seq<Alias>): (r: seq<Import>)
    ensures |r| == |names|
    ensures forall i | 0 <= i < |names| ::
              r[i] == Import(moduleName, Split(names[i].name, "."), names[i].asname)
  {
    if names == [] then []
    else [Import(moduleName, Split(names[0].name, "."), names[0].asname)] + Records(moduleName, names[1..])
  }

  /** `list(get_imports(path))`: the records of the statements in order;
      the first relative import without a module raises. */
  function Imports(nodes: seq<Node>): Result<seq<Import>>
  {
    if nodes == [] then Ok([]) else Both(NodeImports(nodes[0]), Imports(nodes[1..]))
  }

  /** Two collections one after the other: the first error wins, otherwise
      the records follow each other. */
  function Both(x: Result<seq<Import>>, y: Result<seq<Import>>): (r: Result<seq<Import>>)
    ensures r.Ok? <==> x.Ok? && y.Ok?
    ensures x.Raise? ==> r == x
    ensures x.Ok? && y.Raise? ==> r == y
    ensures r.Ok? ==> r.value == x.value + y.value
  {
    match x
    case Raise(e) => Raise(e)
    case Ok(u) =>
      match y
      case Raise(e) => Raise(e)
      case Ok(v) => Ok(u + v)
  }

  lemma BothAssoc(x: Result<seq<Import>>, y: Result<seq<Import>>, z: Result<seq<Import>>)
    ensures Both(x, Both(y, z)) == Both(Both(x, y), z)
  {
    if x.Ok? && y.Ok? && z.Ok? {
      assert x.value + (y.value + z.value) == (x.value + y.value) + z.value;
    }
  }

  /** How many names the import statements bring in. */
  function NameCount(nodes: seq<Node>): nat
  {
    if nodes == [] then 0
    else (if nodes[0].OtherNode? then 0 else |nodes[0].names|) + NameCount(nodes[1..])
  }

  /** Exactly one record per imported name. */
  lemma {:induction false} ImportsCount(nodes: seq<Node>)
    ensures Imports(nodes).Ok? ==> |Imports(nodes).value| == NameCount(nodes)
  {
    if nodes != [] {
      ImportsCount(nodes[1..]);
    }
  }

  /** Statements other than imports contribute nothing. */
  lemma {:induction false} OtherNodesIgnored(before: seq<Node>, after: seq<Node>)
    ensures Imports(before + [OtherNode] + after) == Imports(before + after)
  {
    if before == [] {
      assert (before + [OtherNode] + after)[1..] == after;
      assert before + after == after;
      match Imports(after)
      case Raise(_) =>
      case Ok(rest) => assert [] + rest == rest;
    } else {
      OtherNodesIgnored(before[1..], after);
      assert (before + [OtherNode] + after)[1..] == before[1..] + [OtherNode] + after;
      assert (before + after)[1..] == before[1..] + after;
    }
  }

  /** The leading dots of a relative import are dropped. */
  lemma RelativeLevelDropped(moduleName: string, level: nat, names: seq<Alias>)
    ensures NodeImports(ImportFromNode(Some(moduleName), level, names))
            == NodeImports(ImportFromNode(Some(moduleName), 0, names))
  {
  }

  /** `get_imports`, as the loop over top-level statements. */
  method GetImports(nodes: seq<Node>) returns (r: Result<seq<Import>>)
    ensures r == Imports(nodes)
  {
    var acc: seq<Import> := [];
    for k := 0 to |nodes|
      invariant Imports(nodes[..k]) == Ok(acc)
    {
      assert nodes[..k + 1] == nodes[..k] + [nodes[k]];
      ImportsConcat(nodes[..k], [nodes[k]]);
      ImportsSingle(nodes[k]);
      match nodes[k]
      case OtherNode =>
        assert acc + [] == acc;
      case ImportNode(names) =>
        acc := AppendRecords(acc, [], names);
      case ImportFromNode(m, _, names) =>
        if m.None? {
          assert nodes == nodes[..k] + nodes[k..];
          ImportsConcat(nodes[..k], nodes[k..]);
          return Raise(NoModuleError);
        }
        acc := AppendRecords(acc, Split(m.value, "."), names);
    }
    assert nodes[..|nodes|] == nodes;
    return Ok(acc);
  }

  lemma ImportsSingle(n: Node)
    ensures Imports([n]) == NodeImports(n)
  {
    assert [n][1..] == [];
    match NodeImports(n)
    case Raise(_) =>
    case Ok(x) => assert x + [] == x;
  }

  /** Collecting over two lists of statements: the first error wins,
      otherwise the records follow each other. */
  lemma {:induction false} ImportsConcat(a: seq<Node>, b: seq<Node>)
    ensures Imports(a + b) == Both(Imports(a), Imports(b))
  {
    if a == [] {
      assert a + b == b;
      assert Both(Ok([]), Imports(b)) == Imports(b) by {
        if Imports(b).Ok? {
          assert [] + Imports(b).value == Imports(b).value;
        }
      }
    } else {
      ImportsConcat(a[1..], b);
      assert (a + b)[0] == a[0] && (a + b)[1..] == a[1..] + b;
      BothAssoc(NodeImports(a[0]), Imports(a[1..]), Imports(b));
    }
  }

  /** The loop over one statement's names. */
  method AppendRecords(acc: seq<Import>, moduleParts: seq<string>, names: seq<Alias>) returns (r: seq<Import>)
    ensures r == acc + Records(moduleParts, names)
  {
    r := acc;
    assert names[0..] == names;
    for j := 0 to |names|
      invariant r + Records(moduleParts, names[j..]) == acc + Records(moduleParts, names)
    {
      RecordsStep(moduleParts, names, j, r);
      r := r + [Import(moduleParts, Split(names[j].name, "."), names[j].asname)];
    }
    assert r + [] == r;
  }

  /** The loop's invariant across one name. */
  lemma RecordsStep(moduleParts: seq<string>, names: seq<Alias>, j: nat, r: seq<Import>)
    requires j < |names|
    ensures r + Records(moduleParts, names[j..])
            == (r + [Import(moduleParts, Split(names[j].name, "."), names[j].asname)])
               + Records(moduleParts, names[j + 1..])
  {
    assert names[j..][1..] == names[j + 1..];
  }

  /** One record as a source line. */
  function Render(imp: Import): string
  {
    var modulePath := Join(imp.moduleParts, ".");
    var namePath := Join(imp.name, ".");
    var line := if modulePath != [] then "from " + modulePath + " import " + namePath else "import " + namePath;
    if imp.alias.Some? && imp.alias.value != [] then line + " as " + imp.alias.value else line
  }

  function RenderAll(imps: seq<Import>): (lines: seq<string>)
    ensures |lines| == |imps| && forall i | 0 <= i < |imps| :: lines[i] == Render(imps[i])
  {
    if imps == [] then [] else [Render(imps[0])] + RenderAll(imps[1..])
  }

  /** `get_imports_as_string(path)`: the rendered lines joined by newlines. */
  method GetImportsAsString(nodes: seq<Node>) returns (r: Result<string>)
    ensures Imports(nodes).Raise? ==> r == Raise(Imports(nodes).error)
    ensures Imports(nodes).Ok? ==> r == Ok(Join(RenderAll(Imports(nodes).value), "\n"))
  {
    var imps := GetImports(nodes);
    if imps.Raise? {
      return Raise(imps.error);
    }
    var lines := RenderLines(imps.value);
    return Ok(Join(lines, "\n"));
  }

  /** The loop of `get_imports_as_string`: one line appended per record. */
  method RenderLines(imps: seq<Import>) returns (lines: seq<string>)
    ensures lines == RenderAll(imps)
  {
    lines := [];
    for i := 0 to |imps|
      invariant lines == RenderAll(imps[..i])
    {
      assert imps[..i + 1] == imps[..i] + [imps[i]];
      RenderAllAppend(imps[..i], imps[i]);
      lines := lines + [Render(imps[i])];
    }
    assert imps[..|imps|] == imps;
  }

  lemma {:induction false} RenderAllAppend(imps: seq<Import>, imp: Import)
    ensures RenderAll(imps + [imp]) == RenderAll(imps) + [Render(imp)]
  {
    if imps != [] {
      RenderAllAppend(imps[1..], imp);
      assert (imps + [imp])[1..] == imps[1..] + [imp];
    }
  }

  /** A single-name statement renders as the statement itself: `import N`
      or `from M import N`, then ` as A` when it has an alias. */
  lemma RenderReproducesStatement(moduleName: Option<string>, name: string, asname: Option<string>)
    requires moduleName.Some? ==> moduleName.value != []
    ensures var node := if moduleName.None? then ImportNode([Alias(name, asname)])
                        else ImportFromNode(moduleName, 0, [Alias(name, asname)]);
            var tail := if asname.Some? && asname.value != [] then " as " + asname.value else "";
            NodeImports(node).Ok? && |NodeImports(node).value| == 1
            && Render(NodeImports(node).value[0])
               == (if moduleName.None? then "import " + name else "from " + moduleName.value + " import " + name) + tail
  {
    JoinSplit(name, ".");
    if moduleName.Some? {
      JoinSplit(moduleName.value, ".");
    }
  }

  /** The text splits back into one line per record, as long as no name
      holds a newline. */
  lemma LinesSplitBack(imps: seq<Import>)
    requires imps != []
    requires forall i | 0 <= i < |imps| :: '\n' !in Render(imps[i])
    ensures Split(Join(RenderAll(imps), "\n"), "\n") == RenderAll(imps)
  {
    SplitJoin(RenderAll(imps), '\n');
  }
}
