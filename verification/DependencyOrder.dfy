/** descriptorsInDependencyOrder of tools/protogen/main.go, on any finite import graph. */
module DependencyOrder {

  type Path = string

  /** The imports of every file, in order. */
  type Graph = map<Path, seq<Path>>

  /** Every import of a file descriptor is a file descriptor. */
  predicate Closed(g: Graph) {
    forall p, i :: p in g && 0 <= i < |g[p]| ==> g[p][i] in g
  }

  /** The variables the visit closure updates. */
  datatype Visit = Visit(visited: set<Path>, ordered: seq<Path>)

  function VisitFile(g: Graph, file: Path, v: Visit): (r: Visit)
    requires Closed(g) && file in g && v.visited <= g.Keys
    ensures v.visited <= r.visited <= g.Keys
    decreases g.Keys - v.visited, 0
  {
    if file in v.visited then v
    else
      var r := VisitImports(g, g[file], 0, v.(visited := v.visited + {file}));
      r.(ordered := r.ordered + [file])
  }

  function VisitImports(g: Graph, imports: seq<Path>, index: nat, v: Visit): (r: Visit)
    requires Closed(g) && v.visited <= g.Keys && index <= |imports|
    requires forall i :: 0 <= i < |imports| ==> imports[i] in g
    ensures v.visited <= r.visited <= g.Keys
    decreases g.Keys - v.visited, |imports| - index
  {
    if index == |imports| then v
    else VisitImports(g, imports, index + 1, VisitFile(g, imports[index], v))
  }

  class Visitor {
    const g: Graph
    var visited: set<Path>
    var ordered: seq<Path>

    constructor (g: Graph)
      ensures this.g == g && State() == Visit({}, [])
    {
      this.g := g;
      visited, ordered := {}, [];
    }

    function State(): Visit
      reads this
    {
      Visit(visited, ordered)
    }

    method Run(file: Path)
      requires Closed(g) && file in g && visited <= g.Keys
      modifies this
      ensures State() == VisitFile(g, file, old(State()))
      decreases g.Keys - visited
    {
      if file in visited { return; }
      visited := visited + {file};
      var imports := g[file];
      ghost var entered := State();
      var index := 0;
      while index < |imports|
        invariant index <= |imports|
        invariant entered.visited <= visited <= g.Keys
        invariant VisitImports(g, imports, index, State()) == VisitImports(g, imports, 0, entered)
      {
        Run(imports[index]);
        index := index + 1;
      }
      ordered := ordered + [file];
    }
  }

  // ---- reachability ----------------------------------------------------------

  predicate Imports(g: Graph, a: Path, b: Path) { a in g && b in g[a] }

  ghost predicate IsWalk(g: Graph, walk: seq<Path>, a: Path, b: Path) {
    && |walk| >= 1 && walk[0] == a && walk[|walk| - 1] == b
    && forall i :: 0 <= i < |walk| - 1 ==> Imports(g, walk[i], walk[i + 1])
  }

  /** a is b, or imports it directly or through other files. */
  ghost predicate Reaches(g: Graph, a: Path, b: Path) {
    exists walk :: IsWalk(g, walk, a, b)
  }

  lemma ReachesItself(g: Graph, a: Path)
    ensures Reaches(g, a, a)
  {
    assert IsWalk(g, [a], a, a);
  }

  lemma ReachesOn(g: Graph, a: Path, b: Path, c: Path)
    requires Reaches(g, a, b) && Imports(g, b, c)
    ensures Reaches(g, a, c)
  {
    var walk :| IsWalk(g, walk, a, b);
    assert IsWalk(g, walk + [c], a, c);
  }

  lemma {:induction false} ClosedSetHoldsWalk(g: Graph, s: set<Path>, walk: seq<Path>, a: Path, b: Path)
    requires IsWalk(g, walk, a, b) && a in s
    requires forall x, y :: x in s && Imports(g, x, y) ==> y in s
    ensures b in s
    decreases |walk|
  {
    if |walk| > 1 {
      assert Imports(g, walk[0], walk[1]);
      assert IsWalk(g, walk[1..], walk[1], b);
      ClosedSetHoldsWalk(g, s, walk[1..], walk[1], b);
    }
  }

  /** Some file that root reaches lies on an import cycle. */
  ghost predicate CycleFrom(g: Graph, root: Path) {
    exists a, b :: Reaches(g, root, a) && Imports(g, a, b) && Reaches(g, b, a)
  }

  // ---- white, grey and black -------------------------------------------------

  ghost predicate NoDuplicates(s: seq<Path>) {
    forall i, j :: 0 <= i < j < |s| ==> s[i] != s[j]
  }

  /** Each import of an emitted file is emitted before it, or closes a cycle with it. */
  ghost predicate Ordered(g: Graph, v: Visit) {
    forall i, q :: 0 <= i < |v.ordered| && Imports(g, v.ordered[i], q) ==>
      q in v.ordered[..i] || (q in v.visited && Reaches(g, q, v.ordered[i]))
  }

  /** The grey files, visited and not emitted, are the recursion stack. */
  ghost predicate Coloured(v: Visit, grey: set<Path>) {
    && NoDuplicates(v.ordered)
    && (forall x :: x in v.visited <==> x in grey || x in v.ordered)
    && (forall x :: x in grey ==> x !in v.ordered)
  }

  ghost predicate Inv(g: Graph, root: Path, v: Visit, grey: set<Path>) {
    && Coloured(v, grey) && Ordered(g, v)
    && (forall x :: x in v.visited ==> Reaches(g, root, x))
  }

  /** Every file on the stack reaches the file about to be visited. */
  ghost predicate StackReaches(g: Graph, grey: set<Path>, file: Path) {
    forall x :: x in grey ==> Reaches(g, x, file)
  }

  lemma EmitKeepsInv(g: Graph, root: Path, file: Path, v: Visit, grey: set<Path>)
    requires Inv(g, root, v, grey + {file}) && file !in grey && file in g
    requires StackReaches(g, grey, file)
    requires forall q :: q in g[file] ==> q in v.visited
    ensures Inv(g, root, v.(ordered := v.ordered + [file]), grey)
  {
    var r := v.(ordered := v.ordered + [file]);
    assert forall i :: 0 <= i < |v.ordered| ==> r.ordered[..i] == v.ordered[..i];
    assert r.ordered[..|v.ordered|] == v.ordered;
    ReachesItself(g, file);
    assert forall x :: x in r.ordered <==> x in v.ordered || x == file;
  }

  lemma {:induction false} VisitFileKeepsInv(g: Graph, root: Path, file: Path, v: Visit, grey: set<Path>)
    requires Closed(g) && file in g && v.visited <= g.Keys
    requires Inv(g, root, v, grey) && Reaches(g, root, file) && StackReaches(g, grey, file)
    ensures var r := VisitFile(g, file, v); Inv(g, root, r, grey) && file in r.visited
    ensures file !in v.visited ==> |VisitFile(g, file, v).ordered| > 0
    ensures file !in v.visited ==> VisitFile(g, file, v).ordered[|VisitFile(g, file, v).ordered| - 1] == file
    decreases g.Keys - v.visited, 0
  {
    if file !in v.visited {
      var entered := v.(visited := v.visited + {file});
      ReachesItself(g, file);
      VisitImportsKeepsInv(g, root, file, 0, entered, grey + {file});
      var r := VisitImports(g, g[file], 0, entered);
      EmitKeepsInv(g, root, file, r, grey);
    }
  }

  lemma {:induction false} VisitImportsKeepsInv(g: Graph, root: Path, file: Path, index: nat, v: Visit, grey: set<Path>)
    requires Closed(g) && file in g && v.visited <= g.Keys && index <= |g[file]|
    requires Inv(g, root, v, grey) && Reaches(g, root, file) && StackReaches(g, grey, file)
    requires forall i :: 0 <= i < index ==> g[file][i] in v.visited
    ensures var r := VisitImports(g, g[file], index, v);
            Inv(g, root, r, grey) && forall q :: q in g[file] ==> q in r.visited
    decreases g.Keys - v.visited, |g[file]| - index
  {
    if index < |g[file]| {
      var next := g[file][index];
      assert Imports(g, file, next);
      ReachesOn(g, root, file, next);
      forall x | x in grey ensures Reaches(g, x, next) { ReachesOn(g, x, file, next); }
      VisitFileKeepsInv(g, root, next, v, grey);
      VisitImportsKeepsInv(g, root, file, index + 1, VisitFile(g, next, v), grey);
    }
  }

  // ---- the result ------------------------------------------------------------

  function EmissionOrder(g: Graph, root: Path): seq<Path>
    requires Closed(g) && root in g
  {
    VisitFile(g, root, Visit({}, [])).ordered
  }

  /** Every import of every file stands before it. */
  ghost predicate Topological(g: Graph, order: seq<Path>) {
    forall i, q :: 0 <= i < |order| && Imports(g, order[i], q) ==> q in order[..i]
  }

  /** On every graph, cyclic or not: each file root reaches is emitted exactly once, nothing
      else is, and root is last. */
  lemma EmitsReachableOnce(g: Graph, root: Path)
    requires Closed(g) && root in g
    ensures var order := EmissionOrder(g, root);
      && NoDuplicates(order)
      && (forall x :: x in order <==> Reaches(g, root, x))
      && |order| > 0 && order[|order| - 1] == root
      && Ordered(g, VisitFile(g, root, Visit({}, [])))
  {
    var v0, r := Visit({}, []), VisitFile(g, root, Visit({}, []));
    ReachesItself(g, root);
    VisitFileKeepsInv(g, root, root, v0, {});
    forall x | Reaches(g, root, x) ensures x in r.ordered {
      var walk :| IsWalk(g, walk, root, x);
      forall a, b | a in r.visited && Imports(g, a, b) ensures b in r.visited {
        var i :| 0 <= i < |r.ordered| && r.ordered[i] == a;
      }
      ClosedSetHoldsWalk(g, r.visited, walk, root, x);
    }
  }

  /** Positions only go down along a walk of a topological order. */
  lemma {:induction false} WalkGoesDown(g: Graph, order: seq<Path>, walk: seq<Path>, i: nat, b: Path)
    requires Topological(g, order) && NoDuplicates(order)
    requires i < |order| && IsWalk(g, walk, order[i], b)
    ensures b in order[..i + 1]
    decreases |walk|
  {
    if |walk| > 1 {
      assert Imports(g, order[i], walk[1]);
      var j :| 0 <= j < i && order[j] == walk[1];
      assert IsWalk(g, walk[1..], walk[1], b);
      WalkGoesDown(g, order, walk[1..], j, b);
    } else {
      assert order[..i + 1][i] == b;
    }
  }

  lemma TopologicalHasNoCycle(g: Graph, root: Path, order: seq<Path>)
    requires Topological(g, order) && NoDuplicates(order)
    requires forall x :: Reaches(g, root, x) ==> x in order
    ensures !CycleFrom(g, root)
  {
    if CycleFrom(g, root) {
      var a, b :| Reaches(g, root, a) && Imports(g, a, b) && Reaches(g, b, a);
      var i :| 0 <= i < |order| && order[i] == a;
      var j :| 0 <= j < i && order[j] == b;
      var walk :| IsWalk(g, walk, b, a);
      WalkGoesDown(g, order, walk, j, a);
      assert false;
    }
  }

  lemma DisorderShowsCycle(g: Graph, root: Path, v: Visit)
    requires Ordered(g, v) && !Topological(g, v.ordered)
    requires forall x :: x in v.ordered ==> Reaches(g, root, x)
    ensures CycleFrom(g, root)
  {
    var i, q :| 0 <= i < |v.ordered| && Imports(g, v.ordered[i], q) && q !in v.ordered[..i];
    assert v.ordered[i] in v.ordered;
    assert Reaches(g, root, v.ordered[i]);
    assert Imports(g, v.ordered[i], q);
    assert q in v.visited;
    assert Reaches(g, q, v.ordered[i]);
  }

  /** Each import stands strictly before every file that imports it, if and only if no file
      that root reaches lies on an import cycle. */
  lemma TopologicalIffAcyclic(g: Graph, root: Path)
    requires Closed(g) && root in g
    ensures Topological(g, EmissionOrder(g, root)) <==> !CycleFrom(g, root)
  {
    EmitsReachableOnce(g, root);
    var v := VisitFile(g, root, Visit({}, []));
    if Topological(g, v.ordered) {
      TopologicalHasNoCycle(g, root, v.ordered);
    } else {
      DisorderShowsCycle(g, root, v);
    }
  }
}
