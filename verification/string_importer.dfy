/** utils/string_importer_utils.py: an import hook that serves Python
    modules from strings held in nested dictionaries. A value is either a
    module's source or a package: a dictionary of submodules, in insertion
    order, whose "__init__" entry is the package's own source. Compiling
    and executing the source is left to the interpreter. */
module StringImporter {
  import opened Wrappers
  import opened Strings

  datatype ModValue = Source(code: string) | Package(children: seq<(string, ModValue)>)

  /** `f"{prefix}.{k}" if prefix else k` */
  function Qualify(prefix: string, k: string): string
  {
    if prefix != [] then prefix + "." + k else k
  }

  /** `collect_module_names(mods, prefix)`, where `mods` is the entry list
      of a dictionary. The dictionary is wrapped as a package so that the
      recursion can be measured on the value it descends into. */
  function Collect(mods: seq<(string, ModValue)>, prefix: string): seq<string>
  {
    EntriesFrom(Package(mods), 0, prefix)
  }

  /** The outer loop from entry `i` on. */
  function EntriesFrom(p: ModValue, i: nat, prefix: string): seq<string>
    requires p.Package?
    decreases p, 0, |p.children| - i
  {
    if i >= |p.children| then []
    else EntryNames(p.children[i].0, p.children[i].1, prefix) + EntriesFrom(p, i + 1, prefix)
  }

  /** The names one entry contributes: its own, then those of its
      submodules other than "__init__", each collected as a one-entry
      dictionary under the entry's name. */
  function EntryNames(k: string, v: ModValue, prefix: string): seq<string>
    decreases v, 1, 0
  {
    var full := Qualify(prefix, k);
    [full] + (if v.Package? then ChildrenFrom(v, 0, full) else [])
  }

  /** The inner loop over a package's keys from `i` on. */
  function ChildrenFrom(p: ModValue, i: nat, full: string): seq<string>
    requires p.Package?
    decreases p, 0, |p.children| - i
  {
    if i >= |p.children| then []
    else
      (if p.children[i].0 != "__init__" then EntryNames(p.children[i].0, p.children[i].1, full) else [])
      + ChildrenFrom(p, i + 1, full)
  }

  /** A one-entry dictionary collects exactly that entry's names. */
  lemma CollectSingle(k: string, v: ModValue, prefix: string)
    ensures Collect([(k, v)], prefix) == EntryNames(k, v, prefix)
  {
    assert EntriesFrom(Package([(k, v)]), 1, prefix) == [];
  }

  /** The size of a value: one per module and package. */
  function Size(v: ModValue): nat
    decreases v, 1, 0
  {
    1 + (if v.Package? then SizeFrom(v, 0) else 0)
  }

  function SizeFrom(p: ModValue, i: nat): nat
    requires p.Package?
    decreases p, 0, |p.children| - i
  {
    if i >= |p.children| then 0 else Size(p.children[i].1) + SizeFrom(p, i + 1)
  }

  lemma {:induction false} SizeFromBound(p: ModValue, i: nat, j: nat)
    requires p.Package? && i <= j < |p.children|
    ensures Size(p.children[j].1) <= SizeFrom(p, i)
    decreases j - i
  {
    if i < j {
      SizeFromBound(p, i + 1, j);
    }
  }

  /** `collect_module_names`, with its two loops and its recursive call on
      a one-entry dictionary. */
  method CollectModuleNames(mods: seq<(string, ModValue)>, prefix: string) returns (names: seq<string>)
    ensures names == Collect(mods, prefix)
    decreases SizeFrom(Package(mods), 0), 1
  {
    names := [];
    for i := 0 to |mods|
      invariant names + EntriesFrom(Package(mods), i, prefix) == Collect(mods, prefix)
    {
      SizeFromBound(Package(mods), 0, i);
      var own := CollectEntry(mods[i].0, mods[i].1, prefix);
      EntriesStep(Package(mods), i, prefix);
      Regroup(names, own, EntriesFrom(Package(mods), i + 1, prefix));
      names := names + own;
    }
  }

  /** One pass of the outer loop: the entry's own name, then the inner
      loop over a package's keys. */
  method CollectEntry(k: string, v: ModValue, prefix: string) returns (own: seq<string>)
    ensures own == EntryNames(k, v, prefix)
    decreases Size(v), 0
  {
    var full := Qualify(prefix, k);
    own := [full];
    if v.Package? {
      ghost var target := EntryNames(k, v, prefix);
      assert own + ChildrenFrom(v, 0, full) == target;
      for j := 0 to |v.children|
        invariant own + ChildrenFrom(v, j, full) == target
      {
        var subk := v.children[j].0;
        if subk != "__init__" {
          ChildSmaller(v, j);
          var sub := CollectModuleNames([v.children[j]], full);
          ChildKept(v, j, full, own, sub);
          own := own + sub;
        } else {
          ChildSkipped(v, j, full);
        }
      }
    }
  }

  /** A submodule other than "__init__" contributes what collecting it
      as a one-entry dictionary gives. */
  lemma ChildKept(v: ModValue, j: nat, full: string, own: seq<string>, sub: seq<string>)
    requires v.Package? && j < |v.children| && v.children[j].0 != "__init__"
    requires sub == Collect([v.children[j]], full)
    ensures own + ChildrenFrom(v, j, full) == (own + sub) + ChildrenFrom(v, j + 1, full)
  {
    ChildrenStep(v, j, full);
    CollectSingle(v.children[j].0, v.children[j].1, full);
    Regroup(own, sub, ChildrenFrom(v, j + 1, full));
  }

  /** The "__init__" entry contributes nothing. */
  lemma ChildSkipped(v: ModValue, j: nat, full: string)
    requires v.Package? && j < |v.children| && v.children[j].0 == "__init__"
    ensures ChildrenFrom(v, j, full) == ChildrenFrom(v, j + 1, full)
  {
    ChildrenStep(v, j, full);
  }

  /** A one-entry dictionary made of a package's child is smaller than
      the package. */
  lemma ChildSmaller(v: ModValue, j: nat)
    requires v.Package? && j < |v.children|
    ensures SizeFrom(Package([v.children[j]]), 0) < Size(v)
  {
    SizeFromBound(v, 0, j);
    assert SizeFrom(Package([v.children[j]]), 1) == 0;
  }

  lemma EntriesStep(p: ModValue, i: nat, prefix: string)
    requires p.Package? && i < |p.children|
    ensures EntriesFrom(p, i, prefix)
            == EntryNames(p.children[i].0, p.children[i].1, prefix) + EntriesFrom(p, i + 1, prefix)
  {
  }

  lemma ChildrenStep(p: ModValue, i: nat, full: string)
    requires p.Package? && i < |p.children|
    ensures ChildrenFrom(p, i, full)
            == (if p.children[i].0 != "__init__" then EntryNames(p.children[i].0, p.children[i].1, full) else [])
               + ChildrenFrom(p, i + 1, full)
  {
  }

  lemma Regroup(a: seq<string>, b: seq<string>, c: seq<string>)
    ensures a + (b + c) == (a + b) + c
  {
  }

  /** Every top-level key is listed as itself under an empty prefix, and
      every submodule of a package other than "__init__" as
      `parent.child`. */
  lemma {:induction false} TopLevelListed(mods: seq<(string, ModValue)>, i: nat)
    requires i < |mods|
    ensures mods[i].0 in Collect(mods, "")
  {
    EntriesHold(Package(mods), 0, i, "");
  }

  lemma {:induction false} EntriesHold(p: ModValue, i: nat, j: nat, prefix: string)
    requires p.Package? && i <= j < |p.children|
    ensures Qualify(prefix, p.children[j].0) in EntriesFrom(p, i, prefix)
    decreases j - i
  {
    if i < j {
      EntriesHold(p, i + 1, j, prefix);
    }
  }

  lemma {:induction false} ChildListed(k: string, v: ModValue, prefix: string, j: nat)
    requires v.Package? && j < |v.children| && v.children[j].0 != "__init__"
    ensures Qualify(Qualify(prefix, k), v.children[j].0) in EntryNames(k, v, prefix)
  {
    ChildrenHold(v, 0, j, Qualify(prefix, k));
  }

  lemma {:induction false} ChildrenHold(p: ModValue, i: nat, j: nat, full: string)
    requires p.Package? && i <= j < |p.children| && p.children[j].0 != "__init__"
    ensures Qualify(full, p.children[j].0) in ChildrenFrom(p, i, full)
    decreases j - i
  {
    if i < j {
      ChildrenHold(p, i + 1, j, full);
    }
  }

  /** A package's name comes first in its block, and every name after it
      in the block is one of its submodules: it starts with the package's
      name and a dot. */
  lemma {:induction false} ParentFirst(k: string, v: ModValue, prefix: string)
    requires Qualify(prefix, k) != []
    ensures var names := EntryNames(k, v, prefix);
            names[0] == Qualify(prefix, k)
            && forall i | 1 <= i < |names| :: StartsWith(names[i], Qualify(prefix, k) + ".")
    decreases v, 1, 0
  {
    if v.Package? {
      ChildrenUnder(v, 0, Qualify(prefix, k));
    }
  }

  lemma {:induction false} ChildrenUnder(p: ModValue, i: nat, full: string)
    requires p.Package? && full != []
    ensures forall n | n in ChildrenFrom(p, i, full) :: StartsWith(n, full + ".")
    decreases p, 0, |p.children| - i
  {
    if i < |p.children| {
      ChildrenUnder(p, i + 1, full);
      var ck := p.children[i].0;
      if ck != "__init__" {
        var child := Qualify(full, ck);
        ParentFirst(ck, p.children[i].1, full);
        var block := EntryNames(ck, p.children[i].1, full);
        forall n | n in block ensures StartsWith(n, full + ".")
        {
          var m :| 0 <= m < |block| && block[m] == n;
          assert child[..|full| + 1] == full + ".";
          if m > 0 {
            assert StartsWith(n, child + ".");
            assert n[..|full| + 1] == (child + ".")[..|full| + 1];
          }
        }
      }
    }
  }

  /** The inner loop reads only the entries from `i` on. */
  lemma {:induction false} ChildrenFromSuffix(p: ModValue, i: nat, q: ModValue, j: nat, full: string)
    requires p.Package? && q.Package? && i <= |p.children| && j <= |q.children|
    requires p.children[i..] == q.children[j..]
    ensures ChildrenFrom(p, i, full) == ChildrenFrom(q, j, full)
    decreases |p.children| - i
  {
    if i < |p.children| {
      assert p.children[i] == p.children[i..][0] == q.children[j];
      assert p.children[i + 1..] == p.children[i..][1..];
      assert q.children[j + 1..] == q.children[j..][1..];
      ChildrenFromSuffix(p, i + 1, q, j + 1, full);
    }
  }

  /** An "__init__" entry contributes no name, wherever it stands in the
      package. */
  lemma {:induction false} InitContributesNothing(before: seq<(string, ModValue)>, init: ModValue,
                                                  after: seq<(string, ModValue)>, full: string)
    ensures ChildrenFrom(Package(before + [("__init__", init)] + after), 0, full)
            == ChildrenFrom(Package(before + after), 0, full)
    decreases |before|
  {
    var p := Package(before + [("__init__", init)] + after);
    var q := Package(before + after);
    if before == [] {
      assert p.children[1..] == q.children[0..];
      ChildrenFromSuffix(p, 1, q, 0, full);
    } else {
      InitContributesNothing(before[1..], init, after, full);
      var p1 := Package(before[1..] + [("__init__", init)] + after);
      var q1 := Package(before[1..] + after);
      assert p.children[1..] == p1.children[0..];
      assert q.children[1..] == q1.children[0..];
      ChildrenFromSuffix(p, 1, p1, 0, full);
      ChildrenFromSuffix(q, 1, q1, 0, full);
    }
  }

  /** `importlib` spec for a string module. */
  datatype Spec = Spec(name: string, origin: string)

  /** The dictionary built from keyword arguments: a later key replaces an
      earlier one. */
  function ToMap(mods: seq<(string, ModValue)>): (m: map<string, ModValue>)
    ensures m.Keys == set e | e in mods :: e.0
  {
    if mods == [] then map[]
    else
      var m := ToMap(mods[..|mods| - 1])[mods[|mods| - 1].0 := mods[|mods| - 1].1];
      assert forall e | e in mods :: e in mods[..|mods| - 1] || e == mods[|mods| - 1];
      m
  }

  /** A `StringImporter` together with its `Loader`: both hold the same
      dictionary, which `exec_module` extends. */
  class Importer {
    var modules: map<string, ModValue>

    constructor(mods: seq<(string, ModValue)>)
      ensures modules == ToMap(mods)
    {
      modules := ToMap(mods);
    }

    /** `find_spec(fullname, path)`. */
    function FindSpec(fullname: string): (r: Option<Spec>)
      reads this
      ensures r.Some? <==> fullname in modules
      ensures r.Some? ==> r.value == Spec(fullname, "<string>")
    {
      if fullname in modules then Some(Spec(fullname, "<string>")) else None
    }

    /** `Loader.is_package(module_name)`; an unknown name raises `KeyError`. */
    function IsPackage(name: string): (r: Result<bool>)
      reads this
      ensures name in modules <==> r.Ok?
      ensures r.Ok? ==> (r.value <==> modules[name].Package?)
      ensures r.Raise? ==> r.error == Exception("KeyError", "'" + name + "'")
    {
      if name in modules then Ok(modules[name].Package?) else Raise(Exception("KeyError", "'" + name + "'"))
    }

    /** `Loader.exec_module(module)`: an unknown name raises `ImportError`;
        otherwise the module is entered in `sys.modules`, and a package's
        entries, "__init__" included, are registered under dotted names. */
    method ExecModule(name: string, sys: ImportSystem) returns (r: Result<()>)
      modifies this, sys
      ensures old(name !in modules) ==>
                r == Raise(Exception("ImportError", name)) && modules == old(modules)
                && sys.sysModules == old(sys.sysModules) && sys.metaPath == old(sys.metaPath)
      ensures old(name in modules) ==>
                r == Ok(()) && sys.sysModules == old(sys.sysModules) + {name} && sys.metaPath == old(sys.metaPath)
      ensures old(name in modules && modules[name].Source?) ==> modules == old(modules)
      ensures old(name in modules && modules[name].Package?) ==>
                modules == old(modules) + ToMap(Registered(name, old(modules[name]).children))
    {
      if name !in modules {
        return Raise(Exception("ImportError", name));
      }
      sys.sysModules := sys.sysModules + {name};
      var v := modules[name];
      if v.Package? {
        RegisterEntries(name, v.children);
      }
      return Ok(());
    }

    /** The loop that enters a package's entries under dotted names. */
    method RegisterEntries(name: string, children: seq<(string, ModValue)>)
      modifies this
      ensures modules == old(modules) + ToMap(Registered(name, children))
    {
      for j := 0 to |children|
        invariant modules == old(modules) + ToMap(Registered(name, children[..j]))
      {
        RegisteredStep(old(modules), name, children, j);
        modules := modules[name + "." + children[j].0 := children[j].1];
      }
      assert children[..|children|] == children;
    }
  }

  lemma RegisteredStep(before: map<string, ModValue>, name: string, children: seq<(string, ModValue)>, j: nat)
    requires j < |children|
    ensures before + ToMap(Registered(name, children[..j + 1]))
            == (before + ToMap(Registered(name, children[..j])))[name + "." + children[j].0 := children[j].1]
  {
    assert children[..j + 1] == children[..j] + [children[j]];
    RegisteredAppend(name, children[..j], children[j]);
    var s := Registered(name, children[..j + 1]);
    assert s[..|s| - 1] == Registered(name, children[..j]);
  }

  /** The entries of a package under their dotted names. */
  function Registered(name: string, children: seq<(string, ModValue)>): (r: seq<(string, ModValue)>)
    ensures |r| == |children|
    ensures forall j | 0 <= j < |children| :: r[j] == (name + "." + children[j].0, children[j].1)
  {
    if children == [] then [] else [(name + "." + children[0].0, children[0].1)] + Registered(name, children[1..])
  }

  lemma RegisteredAppend(name: string, children: seq<(string, ModValue)>, c: (string, ModValue))
    ensures Registered(name, children + [c]) == Registered(name, children) + [(name + "." + c.0, c.1)]
  {
  }

  /** After a package is executed, every one of its entries can be found
      under its dotted name. */
  lemma ExecutedPackageFindsChildren(before: map<string, ModValue>, name: string,
                                     children: seq<(string, ModValue)>, c: (string, ModValue))
    requires c in children
    ensures name + "." + c.0 in before + ToMap(Registered(name, children))
  {
    var j :| 0 <= j < |children| && children[j] == c;
    assert Registered(name, children)[j] == (name + "." + c.0, c.1);
  }

  /** An entry on `sys.meta_path`: a string importer or some other finder. */
  datatype Finder = StringFinder(imp: Importer) | OtherFinder(id: nat)

  /** The importers on a path. */
  function Importers(path: seq<Finder>): set<Importer>
  {
    set f | f in path && f.StringFinder? :: f.imp
  }

  /** A string importer that serves one of the names is dropped. */
  predicate Owns(f: Finder, names: seq<string>)
    reads if f.StringFinder? then {f.imp} else {}
  {
    f.StringFinder? && exists n | n in names :: n in f.imp.modules
  }

  /** The list comprehension that rebuilds `sys.meta_path`. */
  function Kept(path: seq<Finder>, names: seq<string>): (r: seq<Finder>)
    reads Importers(path)
    ensures forall f | f in r :: f in path && !Owns(f, names)
    ensures forall f | f in path && !Owns(f, names) :: f in r
    ensures |r| <= |path|
  {
    if path == [] then []
    else
      assert Importers(path[1..]) <= Importers(path);
      (if Owns(path[0], names) then [] else [path[0]]) + Kept(path[1..], names)
  }

  /** With no importer serving any of the names, `sys.meta_path` keeps
      every finder in its order. */
  lemma {:induction false} KeptAll(path: seq<Finder>, names: seq<string>)
    requires forall f | f in path :: !Owns(f, names)
    ensures Kept(path, names) == path
  {
    if path != [] {
      KeptAll(path[1..], names);
    }
  }

  /** Finders that are not string importers always stay, in order. */
  lemma {:induction false} OthersKeepOrder(path: seq<Finder>, names: seq<string>)
    ensures Others(Kept(path, names)) == Others(path)
  {
    if path != [] {
      OthersKeepOrder(path[1..], names);
      OthersAppend(if Owns(path[0], names) then [] else [path[0]], Kept(path[1..], names));
      OthersAppend([path[0]], path[1..]);
      assert [path[0]] + path[1..] == path;
    }
  }

  function Others(path: seq<Finder>): seq<Finder>
  {
    if path == [] then [] else (if path[0].OtherFinder? then [path[0]] else []) + Others(path[1..])
  }

  lemma {:induction false} OthersAppend(a: seq<Finder>, b: seq<Finder>)
    ensures Others(a + b) == Others(a) + Others(b)
  {
    if a != [] {
      OthersAppend(a[1..], b);
      assert (a + b)[1..] == a[1..] + b;
    } else {
      assert a + b == b;
    }
  }

  /** The interpreter's import state: the names in `sys.modules` and the
      finders on `sys.meta_path`. */
  class ImportSystem {
    var sysModules: set<string>
    var metaPath: seq<Finder>

    constructor(sysModules: set<string>, metaPath: seq<Finder>)
      ensures this.sysModules == sysModules && this.metaPath == metaPath
    {
      this.sysModules := sysModules;
      this.metaPath := metaPath;
    }

    /** `reload_string_modules(modules)`: forgets every collected name,
        drops the string importers that serve one of them, and appends a
        new importer for `mods`. */
    method ReloadStringModules(mods: seq<(string, ModValue)>) returns (imp: Importer)
      modifies this
      ensures fresh(imp) && imp.modules == ToMap(mods)
      ensures sysModules == old(sysModules) - (set n | n in Collect(mods, ""))
      ensures metaPath == Kept(old(metaPath), Collect(mods, "")) + [StringFinder(imp)]
    {
      var names := CollectModuleNames(mods, "");
      for i := 0 to |names|
        invariant sysModules == old(sysModules) - (set n | n in names[..i])
        invariant metaPath == old(metaPath)
      {
        assert names[..i + 1] == names[..i] + [names[i]];
        if names[i] in sysModules {
          sysModules := sysModules - {names[i]};
        }
      }
      assert names[..|names|] == names;
      var kept := Kept(metaPath, names);
      assert kept == Kept(old(metaPath), Collect(mods, ""));
      ghost var imps := Importers(metaPath);
      imp := new Importer(mods);
      assert imp !in imps;
      assert unchanged(imps);
      assert kept == Kept(old(metaPath), Collect(mods, ""));
      metaPath := kept + [StringFinder(imp)];
    }
  }
}
