/** The report of commentcheck, which must not depend on Go's map order or on how the
    library sorts: straysUnder and compareFindings of tools/commentcheck/main.go. */
module Report {
  import opened Common

  /** A finding; line 0 is a finding about a whole file. */
  datatype Finding = Finding(filename: string, line: nat, column: nat, reason: string)

  /** strings.Compare. */
  function CompareStrings(a: string, b: string): int {
    if a == "" then (if b == "" then 0 else -1)
    else if b == "" then 1
    else if a[0] != b[0] then (if a[0] < b[0] then -1 else 1)
    else CompareStrings(a[1..], b[1..])
  }

  function CompareFindings(a: Finding, b: Finding): int {
    var order := CompareStrings(a.filename, b.filename);
    if order != 0 then order
    else if a.line != b.line then a.line - b.line
    else a.column - b.column
  }

  predicate SamePosition(a: Finding, b: Finding) {
    a.filename == b.filename && a.line == b.line && a.column == b.column
  }

  lemma {:induction false} StringsOrdered(a: string, b: string)
    ensures CompareStrings(a, b) == -CompareStrings(b, a)
    ensures CompareStrings(a, b) == 0 <==> a == b
  {
    if a != "" && b != "" && a[0] == b[0] {
      StringsOrdered(a[1..], b[1..]);
      assert a == [a[0]] + a[1..] && b == [b[0]] + b[1..];
    }
  }

  /** b continues a, or is greater at the first place where they differ. */
  ghost predicate StringBefore(a: string, b: string) {
    || a < b
    || exists k :: 0 <= k < |a| && k < |b| && a[..k] == b[..k] && a[k] < b[k]
  }

  lemma {:induction false} StringsLexicographic(a: string, b: string)
    ensures CompareStrings(a, b) < 0 <==> StringBefore(a, b)
  {
    if a != "" && b != "" {
      if a[0] == b[0] {
        StringsLexicographic(a[1..], b[1..]);
        BeforeBehindHead(a[0], a[1..], b[1..]);
        assert a == [a[0]] + a[1..] && b == [b[0]] + b[1..];
      } else if a[0] < b[0] {
        assert a[..0] == b[..0];
      } else {
        assert forall k :: 0 < k < |a| && k < |b| ==> a[..k][0] != b[..k][0];
      }
    }
  }

  lemma BeforeBehindHead(c: char, a: string, b: string)
    ensures StringBefore([c] + a, [c] + b) <==> StringBefore(a, b)
  {
    var x, y := [c] + a, [c] + b;
    PrefixBehindHead(c, a, b);
    if k :| 0 <= k < |a| && k < |b| && a[..k] == b[..k] && a[k] < b[k] {
      assert x[..k + 1] == [c] + a[..k] && y[..k + 1] == [c] + b[..k];
      assert x[k + 1] < y[k + 1];
    }
    if k :| 0 <= k < |x| && k < |y| && x[..k] == y[..k] && x[k] < y[k] {
      assert k > 0;
      assert a[..k - 1] == x[..k][1..] && b[..k - 1] == y[..k][1..];
      assert a[k - 1] < b[k - 1];
    }
  }

  lemma PrefixBehindHead(c: char, a: string, b: string)
    ensures [c] + a < [c] + b <==> a < b
  {
    var x, y := [c] + a, [c] + b;
    assert |a| <= |b| ==> y[..|x|] == [c] + b[..|a|] && (y[..|x|])[1..] == b[..|a|] && x[1..] == a;
  }

  /** The report is ordered by file name, then line, then column. */
  lemma FindingsByPosition(a: Finding, b: Finding)
    ensures CompareFindings(a, b) < 0 <==>
      || StringBefore(a.filename, b.filename)
      || (a.filename == b.filename && (a.line < b.line || (a.line == b.line && a.column < b.column)))
  {
    StringsLexicographic(a.filename, b.filename);
    StringsOrdered(a.filename, b.filename);
  }

  lemma {:induction false} StringsTransitive(a: string, b: string, c: string)
    requires CompareStrings(a, b) <= 0 && CompareStrings(b, c) <= 0
    ensures CompareStrings(a, c) <= 0
    ensures CompareStrings(a, c) == 0 ==> CompareStrings(a, b) == 0 && CompareStrings(b, c) == 0
  {
    if a != "" && b != "" && c != "" && a[0] == b[0] == c[0] {
      StringsTransitive(a[1..], b[1..], c[1..]);
    }
  }

  /** compareFindings is a strict total order on positions. */
  lemma FindingsOrdered(a: Finding, b: Finding)
    ensures CompareFindings(a, b) == -CompareFindings(b, a)
    ensures CompareFindings(a, b) == 0 <==> SamePosition(a, b)
  {
    StringsOrdered(a.filename, b.filename);
  }

  lemma FindingsTransitive(a: Finding, b: Finding, c: Finding)
    requires CompareFindings(a, b) <= 0 && CompareFindings(b, c) <= 0
    ensures CompareFindings(a, c) <= 0
    ensures CompareFindings(a, b) < 0 || CompareFindings(b, c) < 0 ==> CompareFindings(a, c) < 0
  {
    StringsTransitive(a.filename, b.filename, c.filename);
    StringsOrdered(a.filename, b.filename);
    StringsOrdered(b.filename, c.filename);
  }

  // ---- sorting ---------------------------------------------------------------

  ghost predicate Sorted(s: seq<Finding>) {
    forall i, j :: 0 <= i < j < |s| ==> CompareFindings(s[i], s[j]) <= 0
  }

  /** What slices.SortFunc may return, stable or not. */
  ghost predicate IsSortOf(s: seq<Finding>, found: seq<Finding>) {
    Sorted(s) && multiset(s) == multiset(found)
  }

  /** f belongs at k in the sorted s. */
  ghost predicate IsPlace(s: seq<Finding>, f: Finding, k: nat) {
    && k <= |s|
    && (forall i :: 0 <= i < k ==> CompareFindings(s[i], f) <= 0)
    && (forall i :: k <= i < |s| ==> CompareFindings(f, s[i]) <= 0)
  }

  lemma InsertKeepsSorted(s: seq<Finding>, k: nat, f: Finding)
    requires Sorted(s) && IsPlace(s, f, k)
    ensures Sorted(s[..k] + [f] + s[k..])
    ensures multiset(s[..k] + [f] + s[k..]) == multiset(s) + multiset{f}
  {
    var t := s[..k] + [f] + s[k..];
    forall i, j | 0 <= i < j < |t| ensures CompareFindings(t[i], t[j]) <= 0 {
      InsertedPairs(s, k, f, i, j);
    }
    assert s == s[..k] + s[k..];
  }

  lemma InsertedPairs(s: seq<Finding>, k: nat, f: Finding, i: nat, j: nat)
    requires Sorted(s) && IsPlace(s, f, k) && i < j <= |s|
    ensures var t := s[..k] + [f] + s[k..]; CompareFindings(t[i], t[j]) <= 0
  {
    var t := s[..k] + [f] + s[k..];
    assert t[i] == (if i < k then s[i] else if i == k then f else s[i - 1]);
    assert t[j] == (if j < k then s[j] else if j == k then f else s[j - 1]);
  }

  method FindPlace(s: seq<Finding>, f: Finding) returns (k: nat)
    requires Sorted(s)
    ensures IsPlace(s, f, k)
  {
    k := 0;
    while k < |s| && CompareFindings(s[k], f) <= 0
      invariant k <= |s|
      invariant forall i :: 0 <= i < k ==> CompareFindings(s[i], f) <= 0
    {
      k := k + 1;
    }
    forall i | k <= i < |s| ensures CompareFindings(f, s[i]) <= 0 {
      FindingsOrdered(f, s[k]);
      if k < i { FindingsTransitive(f, s[k], s[i]); }
    }
  }

  /** Stands for slices.SortFunc, a library call: only its contract is used. */
  method SortFindings(found: seq<Finding>) returns (s: seq<Finding>)
    ensures IsSortOf(s, found)
  {
    s := [];
    for n := 0 to |found|
      invariant Sorted(s) && multiset(s) == multiset(found[..n])
    {
      var k := FindPlace(s, found[n]);
      InsertKeepsSorted(s, k, found[n]);
      assert found[..n + 1] == found[..n] + [found[n]];
      s := s[..k] + [found[n]] + s[k..];
    }
    assert found[..|found|] == found;
  }

  /** Findings at one position are one finding. */
  ghost predicate PositionsDistinct(found: seq<Finding>) {
    forall a, b :: a in found && b in found && SamePosition(a, b) ==> a == b
  }

  lemma TailOf<T>(s: seq<T>)
    requires s != []
    ensures multiset(s[1..]) == multiset(s) - multiset{s[0]}
  {
    assert s == [s[0]] + s[1..];
  }

  /** The first of a sorted list is at most any element. */
  lemma FirstIsLeast(s: seq<Finding>, f: Finding)
    requires Sorted(s) && f in multiset(s)
    ensures s != [] && CompareFindings(s[0], f) <= 0
  {
    var i :| 0 <= i < |s| && s[i] == f;
    FindingsOrdered(s[0], s[0]);
  }

  lemma HeadsAgree(a: seq<Finding>, b: seq<Finding>)
    requires Sorted(a) && Sorted(b) && multiset(a) == multiset(b) && PositionsDistinct(a) && a != [] && b != []
    ensures a[0] == b[0]
  {
    assert a[0] in multiset(a) && b[0] in multiset(b);
    FirstIsLeast(a, b[0]);
    FirstIsLeast(b, a[0]);
    FindingsOrdered(a[0], b[0]);
    assert b[0] in multiset(a);
  }

  /** Without ties there is one sorted permutation. */
  lemma {:induction false} SortIsUnique(a: seq<Finding>, b: seq<Finding>)
    requires Sorted(a) && Sorted(b) && multiset(a) == multiset(b) && PositionsDistinct(a)
    ensures a == b
  {
    assert |multiset(a)| == |a| && |multiset(b)| == |b|;
    if a != [] {
      HeadsAgree(a, b);
      TailOf(a);
      TailOf(b);
      SortIsUnique(a[1..], b[1..]);
      assert a == [a[0]] + a[1..] && b == [b[0]] + b[1..];
    }
  }

  // ---- the report ------------------------------------------------------------

  /** The %q verb, on names without characters to escape. */
  function Quoted(name: string): string { "\"" + name + "\"" }

  function Location(f: Finding): string {
    if f.line == 0 then Quoted(f.filename)
    else Quoted(f.filename) + ":" + Decimal(f.line) + ":" + Decimal(f.column)
  }

  function Lines(s: seq<Finding>): (lines: seq<string>)
    ensures |lines| == |s| && forall i :: 0 <= i < |s| ==> lines[i] == Location(s[i]) + ": " + s[i].reason
  {
    seq(|s|, i requires 0 <= i < |s| => Location(s[i]) + ": " + s[i].reason)
  }

  /** The findings of every file, by directory. */
  type Tree = map<string, seq<seq<Finding>>>

  function Concat(files: seq<seq<Finding>>): seq<Finding> {
    if files == [] then [] else files[0] + Concat(files[1..])
  }

  /** The findings in the order in which the map yields its directories. */
  function Collect(tree: Tree, order: seq<string>): seq<Finding>
    requires forall d :: d in order ==> d in tree
  {
    if order == [] then [] else Concat(tree[order[0]]) + Collect(tree, order[1..])
  }

  /** One iteration of the map: every key once. */
  ghost predicate Iterates(order: seq<string>, tree: Tree) {
    multiset(order) == multiset(tree.Keys)
  }

  method AppendFindings(found: seq<Finding>, files: seq<seq<Finding>>) returns (all: seq<Finding>)
    ensures all == found + Concat(files)
  {
    all := found;
    var j := 0;
    while j < |files|
      invariant j <= |files|
      invariant all + Concat(files[j..]) == found + Concat(files)
    {
      assert files[j..][1..] == files[j + 1..];
      assert all + (files[j] + Concat(files[j + 1..])) == (all + files[j]) + Concat(files[j + 1..]);
      all := all + files[j];
      j := j + 1;
    }
    assert all + [] == all;
  }

  /** A line is the quoted file name, the line and the column unless the finding is about the
      whole file, and the reason. */
  predicate PrintedAs(s: seq<Finding>, lines: seq<string>) {
    && |lines| == |s|
    && forall i :: 0 <= i < |s| ==>
         && (s[i].line == 0 ==> lines[i] == "\"" + s[i].filename + "\"" + ": " + s[i].reason)
         && (s[i].line != 0 ==>
               var place := "\"" + s[i].filename + "\"" + ":" + Decimal(s[i].line) + ":" + Decimal(s[i].column);
               lines[i] == place + ": " + s[i].reason)
  }

  lemma LinesArePrinted(s: seq<Finding>)
    ensures PrintedAs(s, Lines(s))
  {}

  /** A finding of the tree is one of some file of some directory. */
  ghost predicate InTree(tree: Tree, f: Finding) {
    exists d, i, j :: d in tree && 0 <= i < |tree[d]| && 0 <= j < |tree[d][i]| && tree[d][i][j] == f
  }

  lemma {:induction false} ConcatHolds(files: seq<seq<Finding>>, f: Finding)
    ensures f in Concat(files) <==> exists i, j :: 0 <= i < |files| && 0 <= j < |files[i]| && files[i][j] == f
  {
    if files != [] {
      ConcatHolds(files[1..], f);
      if i, j :| 0 <= i < |files| && 0 <= j < |files[i]| && files[i][j] == f {
        if i > 0 { assert files[1..][i - 1] == files[i]; }
      }
      if i, j :| 0 <= i < |files| - 1 && 0 <= j < |files[1..][i]| && files[1..][i][j] == f {
        assert files[i + 1][j] == f;
      }
      if f in files[0] {
        var j :| 0 <= j < |files[0]| && files[0][j] == f;
      }
    }
  }

  lemma {:induction false} CollectHolds(tree: Tree, order: seq<string>, f: Finding)
    requires forall d :: d in order ==> d in tree
    ensures f in Collect(tree, order) <==>
              exists d, i, j :: d in order && 0 <= i < |tree[d]| && 0 <= j < |tree[d][i]| && tree[d][i][j] == f
  {
    if order != [] {
      ConcatHolds(tree[order[0]], f);
      CollectHolds(tree, order[1..], f);
      assert forall d :: d in order <==> d == order[0] || d in order[1..];
    }
  }

  /** How many findings some files have. */
  function Total(files: seq<seq<Finding>>): nat {
    if files == [] then 0 else |files[0]| + Total(files[1..])
  }

  function TotalOf(tree: Tree, order: seq<string>): nat
    requires forall d :: d in order ==> d in tree
  {
    if order == [] then 0 else Total(tree[order[0]]) + TotalOf(tree, order[1..])
  }

  lemma {:induction false} ConcatLength(files: seq<seq<Finding>>)
    ensures |Concat(files)| == Total(files)
  {
    if files != [] { ConcatLength(files[1..]); }
  }

  lemma {:induction false} CollectLength(tree: Tree, order: seq<string>)
    requires forall d :: d in order ==> d in tree
    ensures |Collect(tree, order)| == TotalOf(tree, order)
  {
    if order != [] {
      ConcatLength(tree[order[0]]);
      CollectLength(tree, order[1..]);
    }
  }

  /** What any run reports: the findings of the walk and of every file of every directory, nothing
      else, and as many as there are. */
  lemma ReportHoldsAll(irregular: seq<Finding>, tree: Tree, order: seq<string>, s: seq<Finding>)
    requires Iterates(order, tree) && (forall d :: d in order ==>
        d in tree) && IsSortOf(s, irregular + Collect(tree, order))
    ensures forall f :: f in s <==> f in irregular || InTree(tree, f)
    ensures |s| == |irregular| + TotalOf(tree, order)
  {
    var found := irregular + Collect(tree, order);
    assert |s| == |multiset(s)| == |multiset(found)| == |found|;
    CollectLength(tree, order);
    forall f ensures f in s <==> f in irregular || InTree(tree, f) {
      CollectHolds(tree, order, f);
      assert f in s <==> f in multiset(s);
      assert f in found <==> f in multiset(found);
      assert forall d :: d in tree <==> d in multiset(order);
      assert forall d :: d in order <==> d in multiset(order);
    }
  }

  /** irregular are the findings of the walk itself, order the order the map happens to have. */
  method StraysUnder(irregular: seq<Finding>, tree: Tree, order: seq<string>) returns (lines: seq<string>)
    requires forall d :: d in order ==> d in tree
    ensures exists s :: IsSortOf(s, irregular + Collect(tree, order)) && lines == Lines(s) && PrintedAs(s, lines)
  {
    var found := irregular;
    var i := 0;
    while i < |order|
      invariant i <= |order|
      invariant found + Collect(tree, order[i..]) == irregular + Collect(tree, order)
    {
      var files := tree[order[i]];
      assert order[i..][1..] == order[i + 1..];
      var more := Collect(tree, order[i + 1..]);
      assert found + (Concat(files) + more) == (found + Concat(files)) + more;
      found := AppendFindings(found, files);
      i := i + 1;
    }
    assert found + [] == found;
    var sorted := SortFindings(found);
    LinesArePrinted(sorted);
    return Lines(sorted);
  }

  lemma {:induction false} CollectSplits(tree: Tree, front: seq<string>, back: seq<string>)
    requires forall d :: d in front + back ==> d in tree
    ensures Collect(tree, front + back) == Collect(tree, front) + Collect(tree, back)
  {
    assert forall d :: d in front || d in back ==> d in front + back;
    if front == [] {
      assert front + back == back;
    } else {
      assert (front + back)[1..] == front[1..] + back;
      CollectSplits(tree, front[1..], back);
    }
  }

  lemma SlicesOf<T>(b: seq<T>, k: nat)
    requires k < |b|
    ensures b == b[..k] + ([b[k]] + b[k + 1..])
    ensures multiset(b[..k] + b[k + 1..]) == multiset(b) - multiset{b[k]}
  {
    assert b == b[..k] + ([b[k]] + b[k + 1..]);
  }

  /** Taking one directory first instead of later collects the same findings. */
  lemma CollectFront(tree: Tree, b: seq<string>, k: nat)
    requires k < |b| && forall d :: d in b ==> d in tree
    ensures forall d :: d in b[..k] + b[k + 1..] ==> d in tree
    ensures multiset(Collect(tree, b)) == multiset(Concat(tree[b[k]])) + multiset(Collect(tree, b[..k] + b[k + 1..]))
  {
    SlicesOf(b, k);
    var front, back := b[..k], b[k + 1..];
    CollectSplits(tree, front, [b[k]] + back);
    CollectSplits(tree, front, back);
    assert ([b[k]] + back)[1..] == back;
  }

  /** Another iteration order collects the same findings. */
  lemma {:induction false} CollectPermutes(tree: Tree, a: seq<string>, b: seq<string>)
    requires multiset(a) == multiset(b) && (forall d :: d in a ==> d in tree) && forall d :: d in b ==> d in tree
    ensures multiset(Collect(tree, a)) == multiset(Collect(tree, b))
  {
    assert |multiset(a)| == |a| && |multiset(b)| == |b|;
    if a != [] {
      assert a[0] in multiset(b);
      var k :| 0 <= k < |b| && b[k] == a[0];
      TailOf(a);
      SlicesOf(b, k);
      CollectFront(tree, b, k);
      CollectPermutes(tree, a[1..], b[..k] + b[k + 1..]);
    }
  }

  /** s is what one run may sort: some iteration order of the map, some sort. */
  ghost predicate MayReport(irregular: seq<Finding>, tree: Tree, s: seq<Finding>) {
    exists order :: Iterates(order, tree) && (forall d :: d in order ==> d in tree)
                    && IsSortOf(s, irregular + Collect(tree, order))
  }

  lemma ReportsShareFindings(irregular: seq<Finding>, tree: Tree, s: seq<Finding>, t: seq<Finding>)
    requires MayReport(irregular, tree, s) && MayReport(irregular, tree, t)
    ensures Sorted(s) && Sorted(t) && multiset(s) == multiset(t)
  {
    var a := OrderOf(irregular, tree, s);
    var b := OrderOf(irregular, tree, t);
    CollectPermutes(tree, a, b);
  }

  /** The iteration behind a report. */
  lemma OrderOf(irregular: seq<Finding>, tree: Tree, s: seq<Finding>) returns (order: seq<string>)
    requires MayReport(irregular, tree, s)
    ensures multiset(order) == multiset(tree.Keys) && forall d :: d in order ==> d in tree
    ensures Sorted(s) && multiset(s) == multiset(irregular) + multiset(Collect(tree, order))
  {
    order :| Iterates(order, tree) && (forall d :: d in order ==> d in tree)
      && IsSortOf(s, irregular + Collect(tree, order));
  }

  /** Two findings at one position with different reasons can be exchanged in a sorted list,
      which changes the lines. */
  lemma SwapShows(s: seq<Finding>, i: nat, j: nat) returns (t: seq<Finding>)
    requires Sorted(s) && i < j < |s| && SamePosition(s[i], s[j]) && s[i] != s[j]
    ensures Sorted(t) && multiset(t) == multiset(s) && Lines(t) != Lines(s)
  {
    t := s[i := s[j]][j := s[i]];
    forall m, n | 0 <= m < n < |t| ensures CompareFindings(t[m], t[n]) <= 0 {
      FindingsOrdered(s[m], s[n]);
      assert SamePosition(t[m], s[m]) && SamePosition(t[n], s[n]);
    }
    var location := Location(s[i]);
    assert Lines(s)[i][|location| + 2..] == s[i].reason && Lines(t)[i][|location| + 2..] == s[j].reason;
  }

  lemma DistinctIsDeterministic(irregular: seq<Finding>, tree: Tree, s: seq<Finding>, t: seq<Finding>)
    requires MayReport(irregular, tree, s) && MayReport(irregular, tree, t) && PositionsDistinct(s)
    ensures Lines(t) == Lines(s)
  {
    ReportsShareFindings(irregular, tree, s, t);
    SortIsUnique(s, t);
  }

  lemma TieHasIndices(s: seq<Finding>) returns (i: nat, j: nat)
    requires !PositionsDistinct(s)
    ensures i < j < |s| && SamePosition(s[i], s[j]) && s[i] != s[j]
  {
    var a, b :| a in s && b in s && SamePosition(a, b) && a != b;
    var k :| 0 <= k < |s| && s[k] == a;
    var l :| 0 <= l < |s| && s[l] == b;
    i, j := if k < l then k else l, if k < l then l else k;
  }

  lemma TieIsSeen(irregular: seq<Finding>, tree: Tree, s: seq<Finding>) returns (t: seq<Finding>)
    requires MayReport(irregular, tree, s) && !PositionsDistinct(s)
    ensures MayReport(irregular, tree, t) && Lines(t) != Lines(s)
  {
    var order :| Iterates(order, tree) && (forall d :: d in order ==> d in tree)
      && IsSortOf(s, irregular + Collect(tree, order));
    var i, j := TieHasIndices(s);
    t := SwapShows(s, i, j);
    assert IsSortOf(t, irregular + Collect(tree, order));
  }

  lemma {:induction false} PlaceExists(s: seq<Finding>, f: Finding) returns (k: nat)
    requires Sorted(s)
    ensures IsPlace(s, f, k)
  {
    k := |s|;
    if s != [] {
      var last := s[|s| - 1];
      FindingsOrdered(last, f);
      if CompareFindings(last, f) <= 0 {
        forall i | 0 <= i < |s| - 1 ensures CompareFindings(s[i], f) <= 0 { FindingsTransitive(s[i], last, f); }
      } else {
        k := PlaceExists(s[..|s| - 1], f);
        assert forall i :: 0 <= i < |s| - 1 ==> s[..|s| - 1][i] == s[i];
      }
    }
  }

  lemma {:induction false} SortExists(found: seq<Finding>) returns (s: seq<Finding>)
    ensures IsSortOf(s, found)
  {
    s := [];
    if found != [] {
      var front, last := found[..|found| - 1], found[|found| - 1];
      s := SortExists(front);
      var k := PlaceExists(s, last);
      InsertKeepsSorted(s, k, last);
      assert found == front + [last];
      s := s[..k] + [last] + s[k..];
    }
  }

  lemma SameFindingsSamePositions(a: seq<Finding>, b: seq<Finding>)
    requires multiset(a) == multiset(b)
    ensures PositionsDistinct(a) <==> PositionsDistinct(b)
  {
    assert forall f :: f in a <==> f in multiset(a);
    assert forall f :: f in b <==> f in multiset(b);
  }

  /** All runs print the same lines, if and only if no two of the collected findings share a
      position and differ in their reason. The order of collection does not matter. */
  lemma DeterministicIffDistinct(irregular: seq<Finding>, tree: Tree, order: seq<string>)
    requires Iterates(order, tree) && forall d :: d in order ==> d in tree
    ensures (forall s, t :: MayReport(irregular, tree, s) && MayReport(irregular, tree, t) ==> Lines(s) == Lines(t))
       <==> PositionsDistinct(irregular + Collect(tree, order))
  {
    var found := irregular + Collect(tree, order);
    var sorted := SortExists(found);
    assert MayReport(irregular, tree, sorted);
    SameFindingsSamePositions(sorted, found);
    if PositionsDistinct(found) {
      forall s, t | MayReport(irregular, tree, s) && MayReport(irregular, tree, t) ensures Lines(s) == Lines(t) {
        DistinctIsDeterministic(irregular, tree, sorted, s);
        DistinctIsDeterministic(irregular, tree, sorted, t);
      }
    } else {
      var t := TieIsSeen(irregular, tree, sorted);
    }
  }
}
