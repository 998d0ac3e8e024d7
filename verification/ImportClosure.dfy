module ImportClosure {
  // `_env_reads`: the environment variables a script reads, following its local imports.
  //
  // The traversal is depth-first with one `seen` set shared by all nested calls, in which a module
  // visited before contributes nothing. It is proved to return exactly the direct reads of the modules
  // reachable through imports.

  import opened EnvAliases

  datatype Node =
    | Subscript(base: Expr, key: string)   // `base["key"]`
    | GetCall(base: Expr, key: string)     // `base.get("key")`
    | Getenv(key: string)                  // `....getenv("key")`
    | Import(files: seq<string>)           // any import form, as file names

  /** A script: whether it parses, its assignments, and its nodes in the order they are visited. */
  datatype Script = Script(parses: bool, assigns: seq<Assign>, nodes: seq<Node>)

  type Tree = map<string, Script>

  predicate ReadsEnviron(base: Expr, aliases: set<string>) {
    base == Environ || (base.Name? && base.id in aliases)
  }

  function ReadOf(n: Node, aliases: set<string>): set<string> {
    match n
    case Subscript(base, key) => if ReadsEnviron(base, aliases) then {key} else {}
    case GetCall(base, key) => if ReadsEnviron(base, aliases) then {key} else {}
    case Getenv(key) => {key}
    case Import(_) => {}
  }

  ghost predicate ReadBy(nodes: seq<Node>, aliases: set<string>, v: string) {
    exists n | n in nodes :: v in ReadOf(n, aliases)
  }

  /** The expression is the environment, a name spelled like it, or a name the script binds to it. */
  ghost predicate IsEnviron(s: Script, base: Expr) {
    || base == Environ || base == Name("environ")
    || (base.Name? && exists aliases :: Least(s.assigns, aliases) && base.id in aliases)
  }

  /** The variables a script reads itself: `getenv("v")`, `base["v"]` and `base.get("v")`. */
  ghost predicate DirectRead(s: Script, v: string) {
    s.parses &&
    (Getenv(v) in s.nodes || exists base :: IsEnviron(s, base) && (Subscript(base, v) in s.nodes || GetCall(base, v) in s.nodes))
  }

  lemma {:induction false} ReadsEnvironExactly(s: Script, base: Expr, aliases: set<string>)
    requires Least(s.assigns, aliases)
    ensures ReadsEnviron(base, aliases + {"environ"}) <==> IsEnviron(s, base)
  {
    if base.Name? && exists other :: Least(s.assigns, other) && base.id in other {
      var other :| Least(s.assigns, other) && base.id in other;
      OrderIrrelevant(s.assigns, s.assigns, aliases, other);
    }
  }

  /** What the walk finds in the nodes of a script is what the script reads. */
  lemma {:induction false} ReadByExactly(s: Script, aliases: set<string>, v: string)
    requires s.parses && Least(s.assigns, aliases)
    ensures ReadBy(s.nodes, aliases + {"environ"}, v) <==> DirectRead(s, v)
  {
    forall base ensures ReadsEnviron(base, aliases + {"environ"}) <==> IsEnviron(s, base) {
      ReadsEnvironExactly(s, base, aliases);
    }
    if ReadBy(s.nodes, aliases + {"environ"}, v) {
      var n :| n in s.nodes && v in ReadOf(n, aliases + {"environ"});
      match n {
        case Subscript(base, key) => assert IsEnviron(s, base) && Subscript(base, v) in s.nodes;
        case GetCall(base, key) => assert IsEnviron(s, base) && GetCall(base, v) in s.nodes;
        case _ =>
      }
    }
    if DirectRead(s, v) {
      if Getenv(v) in s.nodes {
        assert v in ReadOf(Getenv(v), aliases + {"environ"});
      } else {
        var base :| IsEnviron(s, base) && (Subscript(base, v) in s.nodes || GetCall(base, v) in s.nodes);
        assert v in ReadOf(Subscript(base, v), aliases + {"environ"}) && v in ReadOf(GetCall(base, v), aliases + {"environ"});
      }
    }
  }

  ghost predicate Imports(s: Script, file: string) {
    s.parses && exists n | n in s.nodes :: n.Import? && file in n.files
  }

  /** `path` leads from one existing script to another, each importing the next. */
  ghost predicate Path(t: Tree, path: seq<string>) {
    && path != [] && (forall f | f in path :: f in t)
    && forall i | 0 <= i < |path| - 1 :: Imports(t[path[i]], path[i + 1])
  }

  ghost predicate Reachable(t: Tree, from: string, to: string) {
    exists path :: Path(t, path) && path[0] == from && path[|path| - 1] == to
  }

  lemma {:induction false} ReachableSelf(t: Tree, f: string)
    requires f in t
    ensures Reachable(t, f, f)
  {
    assert Path(t, [f]);
  }

  lemma {:induction false} ReachableStep(t: Tree, f: string, g: string, h: string)
    requires f in t && Imports(t[f], g) && Reachable(t, g, h)
    ensures Reachable(t, f, h)
  {
    var path :| Path(t, path) && path[0] == g && path[|path| - 1] == h;
    assert Path(t, [f] + path);
  }

  /** Every existing script imported by a script in `from` is in `to`. */
  ghost predicate Covered(t: Tree, from: set<string>, to: set<string>) {
    forall f, g | f in from && f in t && g in t && Imports(t[f], g) :: g in to
  }

  ghost predicate AnyRead(t: Tree, files: set<string>, v: string) {
    exists f | f in files && f in t :: DirectRead(t[f], v)
  }

  /** Everything one call adds to the set is reachable from its script. */
  ghost predicate Within(t: Tree, from: string, files: set<string>) {
    forall f | f in files :: f in t && Reachable(t, from, f)
  }

  ghost predicate ImportedBy(nodes: seq<Node>, file: string) {
    exists n | n in nodes :: n.Import? && file in n.files
  }

  lemma {:induction false} AnyReadUnion(t: Tree, a: set<string>, b: set<string>, c: set<string>, v: string)
    requires c == a + b
    ensures AnyRead(t, c, v) <==> AnyRead(t, a, v) || AnyRead(t, b, v)
  {
  }

  class Reader {
    const tree: Tree
    var seen: set<string>

    constructor (tree: Tree)
      ensures this.tree == tree && seen == {}
    {
      this.tree := tree;
      seen := {};
    }

    /** A script already seen, or missing, contributes nothing. */
    method EnvReads(file: string) returns (found: set<string>)
      requires seen <= tree.Keys
      modifies this`seen
      ensures old(seen) <= seen <= tree.Keys
      ensures file in tree ==> file in seen
      ensures Covered(tree, seen - old(seen), seen)
      ensures Within(tree, file, seen - old(seen))
      ensures forall v :: v in found <==> AnyRead(tree, seen - old(seen), v)
      decreases tree.Keys - seen, 1
    {
      if file in seen || file !in tree { return {}; }
      seen := seen + {file};
      ReachableSelf(tree, file);
      assert seen - old(seen) == {file};
      var script := tree[file];
      if !script.parses { return {}; }
      var aliases := EnvironAliases(script.assigns);
      ghost var start := seen;
      found := {};
      for i := 0 to |script.nodes|
        invariant start <= seen <= tree.Keys
        invariant Covered(tree, seen - start, seen) && Within(tree, file, seen - start)
        invariant forall g | ImportedBy(script.nodes[..i], g) && g in tree :: g in seen
        invariant forall v :: v in found <==> ReadBy(script.nodes[..i], aliases + {"environ"}, v) || AnyRead(tree, seen - start, v)
      {
        var node := script.nodes[i];
        assert script.nodes[..i + 1] == script.nodes[..i] + [node];
        ghost var before, sofar := seen, found;
        found := found + ReadOf(node, aliases + {"environ"});
        if node.Import? {
          var more := ReadImports(file, node);
          found := found + more;
          forall v { AnyReadUnion(tree, before - start, seen - before, seen - start, v); }
        }
      }
      assert script.nodes[..|script.nodes|] == script.nodes;
      forall v { ReadByExactly(script, aliases, v); }
      forall v { AnyReadUnion(tree, {file}, seen - start, seen - old(seen), v); }
    }

    method ReadImports(file: string, node: Node) returns (found: set<string>)
      requires seen <= tree.Keys && file in tree && tree[file].parses && node in tree[file].nodes && node.Import?
      modifies this`seen
      ensures old(seen) <= seen <= tree.Keys
      ensures forall g | g in node.files && g in tree :: g in seen
      ensures Covered(tree, seen - old(seen), seen)
      ensures Within(tree, file, seen - old(seen))
      ensures forall v :: v in found <==> AnyRead(tree, seen - old(seen), v)
      decreases tree.Keys - seen, 2
    {
      found := {};
      ghost var start := seen;
      for k := 0 to |node.files|
        invariant start <= seen <= tree.Keys
        invariant forall g | g in node.files[..k] && g in tree :: g in seen
        invariant Covered(tree, seen - start, seen) && Within(tree, file, seen - start)
        invariant forall v :: v in found <==> AnyRead(tree, seen - start, v)
      {
        assert node.files[..k + 1] == node.files[..k] + [node.files[k]];
        ghost var before := seen;
        var more := EnvReads(node.files[k]);
        assert Imports(tree[file], node.files[k]);
        forall f | f in seen - before ensures Reachable(tree, file, f) {
          ReachableStep(tree, file, node.files[k], f);
        }
        found := found + more;
        forall v { AnyReadUnion(tree, before - start, seen - before, seen - start, v); }
      }
      assert node.files[..|node.files|] == node.files;
    }
  }

  lemma {:induction false} PathStays(t: Tree, path: seq<string>, seen: set<string>)
    requires Path(t, path) && path[0] in seen && Covered(t, seen, seen)
    ensures path[|path| - 1] in seen
    decreases path
  {
    if |path| > 1 {
      assert Imports(t[path[0]], path[1]);
      PathStays(t, path[1..], seen);
    }
  }

  /** From a fresh set, the answer is the direct reads of every script reachable through imports. */
  method ReadsOfScript(tree: Tree, file: string) returns (found: set<string>)
    ensures file in tree ==>
              forall v :: v in found <==> exists f | f in tree && Reachable(tree, file, f) :: DirectRead(tree[f], v)
    ensures file !in tree ==> found == {}
  {
    var reader := new Reader(tree);
    found := reader.EnvReads(file);
    if file in tree {
      forall f | f in tree && Reachable(tree, file, f) ensures f in reader.seen {
        var path :| Path(tree, path) && path[0] == file && path[|path| - 1] == f;
        PathStays(tree, path, reader.seen);
      }
    }
  }
}
