/** The order of independent files: without import cycles, descriptorsInDependencyOrder of
    tools/protogen/main.go leaves no choice, and this module says which file stands first
    without speaking of the visit. */
module VisitOrder {
  import opened DependencyOrder

  // ---- routes ----------------------------------------------------------------

  /** w leads from a to b: it says which import to take at every step. */
  predicate IsRoute(g: Graph, a: Path, w: seq<nat>, b: Path)
    decreases |w|
  {
    if w == [] then a == b else a in g && w[0] < |g[a]| && IsRoute(g, g[a][w[0]], w[1..], b)
  }

  /** Lexicographic order. */
  predicate LexLess(u: seq<nat>, w: seq<nat>) {
    if w == [] then false
    else if u == [] then true
    else if u[0] != w[0] then u[0] < w[0]
    else LexLess(u[1..], w[1..])
  }

  /** The least route from a to p is less than the least route from a to q. */
  ghost predicate Sooner(g: Graph, a: Path, p: Path, q: Path) {
    exists w :: IsRoute(g, a, w, p) && forall u :: IsRoute(g, a, u, q) ==> LexLess(w, u)
  }

  lemma {:induction false} LexAsymmetric(u: seq<nat>, w: seq<nat>)
    requires LexLess(u, w) && LexLess(w, u)
    ensures false
  {
    LexAsymmetric(u[1..], w[1..]);
  }

  lemma SoonerAsymmetric(g: Graph, a: Path, p: Path, q: Path)
    requires Sooner(g, a, p, q) && Sooner(g, a, q, p)
    ensures false
  {
    var w :| IsRoute(g, a, w, p) && forall u :: IsRoute(g, a, u, q) ==> LexLess(w, u);
    var u :| IsRoute(g, a, u, q) && forall v :: IsRoute(g, a, v, p) ==> LexLess(u, v);
    LexAsymmetric(w, u);
  }

  lemma {:induction false} RouteReaches(g: Graph, a: Path, w: seq<nat>, b: Path)
    requires IsRoute(g, a, w, b)
    ensures Reaches(g, a, b)
    decreases |w|
  {
    if w == [] {
      ReachesItself(g, a);
    } else {
      var next := g[a][w[0]];
      RouteReaches(g, next, w[1..], b);
      var walk :| IsWalk(g, walk, next, b);
      assert Imports(g, a, next);
      assert IsWalk(g, [a] + walk, a, b);
    }
  }

  lemma {:induction false} WalkHasRoute(g: Graph, walk: seq<Path>, a: Path, b: Path) returns (w: seq<nat>)
    requires IsWalk(g, walk, a, b)
    ensures IsRoute(g, a, w, b)
    decreases |walk|
  {
    if |walk| == 1 {
      w := [];
    } else {
      assert Imports(g, walk[0], walk[1]);
      var i :| 0 <= i < |g[a]| && g[a][i] == walk[1];
      assert IsWalk(g, walk[1..], walk[1], b);
      var rest := WalkHasRoute(g, walk[1..], walk[1], b);
      w := [i] + rest;
      assert w[1..] == rest;
    }
  }

  lemma ReachedHasRoute(g: Graph, a: Path, b: Path) returns (w: seq<nat>)
    requires Reaches(g, a, b)
    ensures IsRoute(g, a, w, b)
  {
    var walk :| IsWalk(g, walk, a, b);
    w := WalkHasRoute(g, walk, a, b);
  }

  // ---- one visit -------------------------------------------------------------

  /** Sooner, over the routes whose first step is import number index of a or a later one. */
  ghost predicate SoonerFrom(g: Graph, a: Path, index: nat, p: Path, q: Path) {
    exists w :: IsRoute(g, a, w, p)
      && forall u :: IsRoute(g, a, u, q) && u != [] && u[0] >= index ==> LexLess(w, u)
  }

  /** The files of one visit, behind those emitted before: all of them are reached from a, and
      of two that do not depend on each other the sooner one stands first. */
  ghost predicate InOrder(g: Graph, a: Path, before: seq<Path>, after: seq<Path>) {
    && before <= after
    && (forall i :: |before| <= i < |after| ==> Reaches(g, a, after[i]))
    && (forall i, j :: |before| <= i < j < |after| && !Reaches(g, after[j], after[i]) ==>
          Sooner(g, a, after[i], after[j]))
  }

  ghost predicate InOrderFrom(g: Graph, a: Path, index: nat, before: seq<Path>, after: seq<Path>) {
    && before <= after
    && (forall i :: |before| <= i < |after| ==> Reaches(g, a, after[i]) && after[i] != a)
    && (forall i, j :: |before| <= i < j < |after| && !Reaches(g, after[j], after[i]) ==>
          SoonerFrom(g, a, index, after[i], after[j]))
  }

  /** What a visit relies on: the invariant of the stack, and no cycle. */
  ghost predicate Ready(g: Graph, root: Path, file: Path, v: Visit, grey: set<Path>) {
    && Closed(g) && file in g && v.visited <= g.Keys && !CycleFrom(g, root)
    && Inv(g, root, v, grey) && Reaches(g, root, file) && StackReaches(g, grey, file)
  }

  lemma LateImportClosesCycle(g: Graph, root: Path, v: Visit, i: nat, y: Path)
    requires Ordered(g, v) && i < |v.ordered| && Reaches(g, root, v.ordered[i])
    requires Imports(g, v.ordered[i], y) && y !in v.ordered[..i]
    ensures CycleFrom(g, root)
  {
    assert v.ordered[i] in v.ordered && Imports(g, v.ordered[i], y);
    assert y in v.ordered[..i] || (y in v.visited && Reaches(g, y, v.ordered[i]));
  }

  /** Without a cycle the emitted files are closed under imports, so they hold all that any of
      them reaches. */
  lemma EmittedHoldReached(g: Graph, root: Path, v: Visit, grey: set<Path>, a: Path, b: Path)
    requires Closed(g) && !CycleFrom(g, root) && Inv(g, root, v, grey) && a in v.ordered && Reaches(g, a, b)
    ensures b in v.ordered
  {
    var s := set x | x in v.ordered;
    forall x, y | x in s && Imports(g, x, y) ensures y in s {
      var i :| 0 <= i < |v.ordered| && v.ordered[i] == x;
      if y !in v.ordered[..i] { LateImportClosesCycle(g, root, v, i, y); }
    }
    var walk :| IsWalk(g, walk, a, b);
    ClosedSetHoldsWalk(g, s, walk, a, b);
  }

  /** An import of the stack would close a cycle. */
  lemma GreyImportClosesCycle(g: Graph, root: Path, file: Path, next: Path, grey: set<Path>)
    requires Reaches(g, root, file) && StackReaches(g, grey, file) && Imports(g, file, next) && next in grey
    ensures CycleFrom(g, root)
  {
    assert Reaches(g, next, file);
  }

  lemma NextIsReady(g: Graph, root: Path, file: Path, next: Path, v: Visit, grey: set<Path>)
    requires Ready(g, root, file, v, grey) && Imports(g, file, next)
    ensures Ready(g, root, next, v, grey) && next !in grey
  {
    if next in grey { GreyImportClosesCycle(g, root, file, next, grey); }
    ReachesOn(g, root, file, next);
    forall x | x in grey ensures Reaches(g, x, next) { ReachesOn(g, x, file, next); }
  }

  lemma {:induction false} VisitFileInOrder(g: Graph, root: Path, file: Path, v: Visit, grey: set<Path>)
    requires Ready(g, root, file, v, grey) && file !in grey
    ensures InOrder(g, file, v.ordered, VisitFile(g, file, v).ordered)
    decreases g.Keys - v.visited, 0
  {
    if file !in v.visited {
      var entered := v.(visited := v.visited + {file});
      ReachesItself(g, file);
      VisitImportsInOrder(g, root, file, 0, entered, grey + {file});
      FileBehindImports(g, file, v.ordered, VisitImports(g, g[file], 0, entered).ordered);
    }
  }

  /** The file itself comes last; it reaches all that stands before it in its visit. */
  lemma FileBehindImports(g: Graph, file: Path, before: seq<Path>, after: seq<Path>)
    requires InOrderFrom(g, file, 0, before, after)
    ensures InOrder(g, file, before, after + [file])
  {
    ReachesItself(g, file);
    var all := after + [file];
    forall i, j | |before| <= i < j < |all| && !Reaches(g, all[j], all[i]) ensures Sooner(g, file, all[i], all[j]) {
      assert j < |after|;
      var w :| IsRoute(g, file, w, all[i])
        && forall u :: IsRoute(g, file, u, all[j]) && u != [] && u[0] >= 0 ==> LexLess(w, u);
      assert forall u :: IsRoute(g, file, u, all[j]) ==> u != [];
    }
  }

  lemma {:induction false} VisitImportsInOrder(g: Graph, root: Path, file: Path, index: nat, v: Visit, grey: set<Path>)
    requires Ready(g, root, file, v, grey) && file in grey && index <= |g[file]|
    requires forall i :: 0 <= i < index ==> g[file][i] in v.visited
    ensures InOrderFrom(g, file, index, v.ordered, VisitImports(g, g[file], index, v).ordered)
    decreases g.Keys - v.visited, |g[file]| - index
  {
    if index < |g[file]| {
      var next := g[file][index];
      NextIsReady(g, root, file, next, v, grey);
      var m := VisitFile(g, next, v);
      VisitFileInOrder(g, root, next, v, grey);
      VisitFileKeepsInv(g, root, next, v, grey);
      VisitImportsInOrder(g, root, file, index + 1, m, grey);
      var r := VisitImports(g, g[file], index + 1, m);
      VisitImportsKeepsInv(g, root, file, index + 1, m, grey);
      forall b | Reaches(g, next, b) ensures b in m.ordered { EmittedHoldReached(g, root, m, grey, next, b); }
      NextImportInOrder(g, file, index, v.ordered, m.ordered, r.ordered);
    }
  }

  /** The files of one import, then those of the later ones: before, then up to middle, then up
      to after. */
  lemma NextImportInOrder(g: Graph, file: Path, index: nat, before: seq<Path>, middle: seq<Path>, after: seq<Path>)
    requires file in g && index < |g[file]| && NoDuplicates(after) && file !in after
    requires InOrder(g, g[file][index], before, middle) && InOrderFrom(g, file, index + 1, middle, after)
    requires forall b :: Reaches(g, g[file][index], b) ==> b in middle
    ensures InOrderFrom(g, file, index, before, after)
  {
    var next := g[file][index];
    forall i | |before| <= i < |after| ensures Reaches(g, file, after[i]) {
      if i < |middle| {
        assert after[i] == middle[i];
        var w := ReachedHasRoute(g, next, after[i]);
        assert ([index] + w)[1..] == w;
        RouteReaches(g, file, [index] + w, after[i]);
      }
    }
    forall i, j | |before| <= i < j < |after| && !Reaches(g, after[j], after[i])
      ensures SoonerFrom(g, file, index, after[i], after[j])
    {
      if j < |middle| {
        assert after[i] == middle[i] && after[j] == middle[j];
        SoonerBehindImport(g, file, index, after[i], after[j]);
      } else {
        NotByThisImport(g, next, middle, after, j);
        if i < |middle| {
          assert after[i] == middle[i];
          EarlierImportIsSooner(g, file, index, after[i], after[j]);
        } else {
          LaterImportsOnly(g, file, index, after[i], after[j]);
        }
      }
    }
  }

  lemma NotByThisImport(g: Graph, next: Path, middle: seq<Path>, after: seq<Path>, j: nat)
    requires NoDuplicates(after) && middle <= after && |middle| <= j < |after|
    requires forall b :: Reaches(g, next, b) ==> b in middle
    ensures !Reaches(g, next, after[j])
  {
    assert forall i :: 0 <= i < |middle| ==> middle[i] == after[i] != after[j];
  }

  /** Both by the same import. */
  lemma SoonerBehindImport(g: Graph, file: Path, index: nat, p: Path, q: Path)
    requires file in g && index < |g[file]| && Sooner(g, g[file][index], p, q)
    ensures SoonerFrom(g, file, index, p, q)
  {
    var next := g[file][index];
    var w :| IsRoute(g, next, w, p) && forall u :: IsRoute(g, next, u, q) ==> LexLess(w, u);
    var whole := [index] + w;
    assert whole[1..] == w;
    forall u | IsRoute(g, file, u, q) && u != [] && u[0] >= index ensures LexLess(whole, u) {
      if u[0] == index { assert IsRoute(g, next, u[1..], q); }
    }
    assert IsRoute(g, file, whole, p);
  }

  /** p by this import, q only by later ones. */
  lemma EarlierImportIsSooner(g: Graph, file: Path, index: nat, p: Path, q: Path)
    requires file in g && index < |g[file]| && Reaches(g, g[file][index], p) && !Reaches(g, g[file][index], q)
    ensures SoonerFrom(g, file, index, p, q)
  {
    var w := ReachedHasRoute(g, g[file][index], p);
    var whole := [index] + w;
    assert whole[1..] == w;
    forall u | IsRoute(g, file, u, q) && u != [] && u[0] >= index ensures LexLess(whole, u) {
      if u[0] == index { RouteReaches(g, g[file][index], u[1..], q); }
    }
    assert IsRoute(g, file, whole, p);
  }

  /** Both only by later imports. */
  lemma LaterImportsOnly(g: Graph, file: Path, index: nat, p: Path, q: Path)
    requires file in g && index < |g[file]| && SoonerFrom(g, file, index + 1, p, q) && !Reaches(g, g[file][index], q)
    ensures SoonerFrom(g, file, index, p, q)
  {
    var w :| IsRoute(g, file, w, p)
      && forall u :: IsRoute(g, file, u, q) && u != [] && u[0] >= index + 1 ==> LexLess(w, u);
    forall u | IsRoute(g, file, u, q) && u != [] && u[0] >= index ensures LexLess(w, u) {
      if u[0] == index { RouteReaches(g, g[file][index], u[1..], q); }
    }
  }

  // ---- the result ------------------------------------------------------------

  /** Of two different files, p must stand before q: q depends on p, or neither depends on the
      other and p has the lesser least route. */
  ghost predicate StandsBefore(g: Graph, root: Path, p: Path, q: Path) {
    Reaches(g, q, p) || (!Reaches(g, p, q) && Sooner(g, root, p, q))
  }

  lemma TopologicalIsOneWay(g: Graph, order: seq<Path>, i: nat, j: nat)
    requires Topological(g, order) && NoDuplicates(order) && i < j < |order|
    ensures !Reaches(g, order[i], order[j])
  {
    assert order[j] !in order[..i + 1];
    if Reaches(g, order[i], order[j]) {
      var walk :| IsWalk(g, walk, order[i], order[j]);
      WalkGoesDown(g, order, walk, i, order[j]);
    }
  }

  lemma OrderIsInOrder(g: Graph, root: Path)
    requires Closed(g) && root in g && !CycleFrom(g, root)
    ensures InOrder(g, root, [], EmissionOrder(g, root))
  {
    ReachesItself(g, root);
    VisitFileInOrder(g, root, root, Visit({}, []), {});
  }

  /** Without an import cycle the order has no freedom left: position i comes before position j
      if and only if the file there must stand before the other. */
  lemma OrderIsDetermined(g: Graph, root: Path, i: nat, j: nat)
    requires Closed(g) && root in g && !CycleFrom(g, root)
    requires i < |EmissionOrder(g, root)| && j < |EmissionOrder(g, root)| && i != j
    ensures i < j <==> StandsBefore(g, root, EmissionOrder(g, root)[i], EmissionOrder(g, root)[j])
  {
    var order := EmissionOrder(g, root);
    EmitsReachableOnce(g, root);
    TopologicalIffAcyclic(g, root);
    OrderIsInOrder(g, root);
    if i < j {
      TopologicalIsOneWay(g, order, i, j);
    } else {
      TopologicalIsOneWay(g, order, j, i);
      if StandsBefore(g, root, order[i], order[j]) { SoonerAsymmetric(g, root, order[i], order[j]); }
    }
  }

  /** One of the first n imports of root reaches x. */
  ghost predicate ByFirstImports(g: Graph, root: Path, n: nat, x: Path)
    requires root in g
  {
    exists i :: 0 <= i < n && i < |g[root]| && Reaches(g, g[root][i], x)
  }

  /** For every n, the files that the first n imports of the root reach stand before all others. */
  lemma FirstImportsComeFirst(g: Graph, root: Path, n: nat, i: nat, j: nat)
    requires Closed(g) && root in g && !CycleFrom(g, root)
    requires i < |EmissionOrder(g, root)| && j < |EmissionOrder(g, root)|
    requires ByFirstImports(g, root, n, EmissionOrder(g, root)[i])
    requires !ByFirstImports(g, root, n, EmissionOrder(g, root)[j])
    ensures i < j
  {
    var order := EmissionOrder(g, root);
    var p, q := order[i], order[j];
    var k :| 0 <= k < n && k < |g[root]| && Reaches(g, g[root][k], p);
    if j < i {
      OrderIsDetermined(g, root, j, i);
      if Reaches(g, p, q) {
        ReachesThrough(g, g[root][k], p, q);
      } else {
        EmitsReachableOnce(g, root);
        var w :| IsRoute(g, root, w, q) && forall u :: IsRoute(g, root, u, p) ==> LexLess(w, u);
        var rest := ReachedHasRoute(g, g[root][k], p);
        assert ([k] + rest)[1..] == rest;
        assert IsRoute(g, root, [k] + rest, p);
        assert w != [] && w[0] <= k;
        RouteReaches(g, g[root][w[0]], w[1..], q);
      }
    }
  }

  lemma ReachesThrough(g: Graph, a: Path, b: Path, c: Path)
    requires Reaches(g, a, b) && Reaches(g, b, c)
    ensures Reaches(g, a, c)
  {
    var front :| IsWalk(g, front, a, b);
    var back :| IsWalk(g, back, b, c);
    assert IsWalk(g, front + back[1..], a, c);
  }

  /** descriptorsInDependencyOrder, with all that is known of its result. */
  method DescriptorsInDependencyOrder(g: Graph, root: Path) returns (order: seq<Path>)
    requires Closed(g) && root in g
    ensures NoDuplicates(order) && forall x :: x in order <==> Reaches(g, root, x)
    ensures |order| > 0 && order[|order| - 1] == root
    ensures Topological(g, order) <==> !CycleFrom(g, root)
    ensures !CycleFrom(g, root) ==>
              forall i, j :: 0 <= i < |order| && 0 <= j < |order| && i != j ==>
                (i < j <==> StandsBefore(g, root, order[i], order[j]))
  {
    EmitsReachableOnce(g, root);
    TopologicalIffAcyclic(g, root);
    var visitor := new Visitor(g);
    visitor.Run(root);
    order := visitor.ordered;
    if !CycleFrom(g, root) {
      forall i, j | 0 <= i < |order| && 0 <= j < |order| && i != j
        ensures i < j <==> StandsBefore(g, root, order[i], order[j])
      {
        OrderIsDetermined(g, root, i, j);
      }
    }
  }
}
