/** The Unix path functions of path/filepath that the generator relies on. */
module FilePath {

  function StripSlashes(path: string): (r: string)
    ensures r <= path
  {
    if path != "" && path[|path| - 1] == '/' then StripSlashes(path[..|path| - 1]) else path
  }

  /** The index after the last slash of path. */
  function AfterSlash(path: string): (i: nat)
    ensures i <= |path| && (i > 0 ==> path[i - 1] == '/') && '/' !in path[i..]
  {
    if path == "" || path[|path| - 1] == '/' then |path|
    else
      var i := AfterSlash(path[..|path| - 1]);
      assert path[i..] == path[..|path| - 1][i..] + [path[|path| - 1]];
      i
  }

  /** filepath.Base. */
  function Base(path: string): string {
    var stripped := StripSlashes(path);
    if path == "" then "." else if stripped == "" then "/" else stripped[AfterSlash(stripped)..]
  }

  /** The elements of a path between its slashes. */
  function Elements(path: string): seq<string> {
    var i := AfterSlash(path);
    if i == 0 then [path] else Elements(path[..i - 1]) + [path[i..]]
  }

  /** filepath.Clean drops empty and dot elements and resolves dot-dot against the elements before it. */
  function Push(rooted: bool, stack: seq<string>, element: string): seq<string> {
    if element == "" || element == "." then stack
    else if element != ".." then stack + [element]
    else if stack != [] && stack[|stack| - 1] != ".." then stack[..|stack| - 1]
    else if rooted then stack
    else stack + [".."]
  }

  function Reduce(rooted: bool, elements: seq<string>): seq<string> {
    if elements == [] then []
    else Push(rooted, Reduce(rooted, elements[..|elements| - 1]), elements[|elements| - 1])
  }

  function Slashed(stack: seq<string>): string {
    if stack == [] then ""
    else if |stack| == 1 then stack[0]
    else Slashed(stack[..|stack| - 1]) + "/" + stack[|stack| - 1]
  }

  function Clean(path: string): string {
    var rooted := path != "" && path[0] == '/';
    Render(rooted, Reduce(rooted, Elements(path)))
  }

  function Render(rooted: bool, stack: seq<string>): string {
    var clean := (if rooted then "/" else "") + Slashed(stack);
    if clean == "" then "." else clean
  }

  /** filepath.Join of two elements. */
  function Join(dir: string, name: string): string {
    if dir != "" then Clean(dir + "/" + name) else if name != "" then Clean(name) else ""
  }

  /** The name ends in a real path element: filepath.Base returns none of its stand-ins. */
  predicate Real(base: string) { base != "." && base != ".." && base != "/" && base != "" }

  lemma {:induction false} AfterSlashIs(path: string, k: nat)
    requires k <= |path| && (k > 0 ==> path[k - 1] == '/') && '/' !in path[k..]
    ensures AfterSlash(path) == k
  {
    var n := |path|;
    if n > 0 {
      assert k < n ==> path[k..][n - 1 - k] == path[n - 1];
      if path[n - 1] != '/' {
        assert path[k..] == path[..n - 1][k..] + [path[n - 1]];
        AfterSlashIs(path[..n - 1], k);
      }
    }
  }

  lemma ElementsSplit(front: string, element: string)
    requires '/' !in element
    ensures Elements(front + "/" + element) == Elements(front) + [element]
  {
    var whole := front + "/" + element;
    assert whole[|front| + 1..] == element && whole[..|front|] == front;
    AfterSlashIs(whole, |front| + 1);
  }

  lemma BaseAfterSlash(front: string, base: string)
    requires base != "" && '/' !in base && (front == "" || front[|front| - 1] == '/')
    ensures Base(front + base) == base
  {
    var whole := front + base;
    assert whole[|whole| - 1] in base;
    assert whole[|front|..] == base;
    AfterSlashIs(whole, |front|);
  }

  lemma {:induction false} TrailingSlashesVanish(rooted: bool, path: string)
    ensures Reduce(rooted, Elements(path)) == Reduce(rooted, Elements(StripSlashes(path)))
  {
    if path != "" && path[|path| - 1] == '/' {
      var front := path[..|path| - 1];
      assert path == front + "/" + "";
      ElementsSplit(front, "");
      assert (Elements(front) + [""])[..|Elements(front)|] == Elements(front);
      TrailingSlashesVanish(rooted, front);
    }
  }

  lemma {:induction false} StripPrepends(prefix: string, path: string)
    requires StripSlashes(path) != ""
    ensures StripSlashes(prefix + path) == prefix + StripSlashes(path)
    decreases |path|
  {
    var whole := prefix + path;
    if path[|path| - 1] == '/' {
      assert whole[..|whole| - 1] == prefix + path[..|path| - 1];
      StripPrepends(prefix, path[..|path| - 1]);
    }
  }

  /** A stripped path is what stands before its base, then its base. */
  lemma LastElement(path: string)
    requires path != "" && path[|path| - 1] != '/'
    ensures Base(path) != "" && '/' !in Base(path)
    ensures |Elements(path)| > 0 && Elements(path)[|Elements(path)| - 1] == Base(path)
    ensures var i := |path| - |Base(path)|; i >= 0 && path == path[..i] + Base(path) && (i == 0 || path[i - 1] == '/')
  {
    var i := AfterSlash(path);
    assert path == path[..i] + path[i..];
    if i == 0 { assert path[0..] == path; }
  }

  lemma SlashedPush(stack: seq<string>, element: string)
    ensures Slashed(stack + [element]) == (if stack == [] then "" else Slashed(stack) + "/") + element
  {
    assert (stack + [element])[..|stack|] == stack;
  }

  lemma ReduceReal(rooted: bool, elements: seq<string>)
    requires elements != [] && Real(elements[|elements| - 1])
    ensures Reduce(rooted, elements) == Reduce(rooted, elements[..|elements| - 1]) + [elements[|elements| - 1]]
  {}

  lemma RenderKeepsBase(rooted: bool, stack: seq<string>, base: string)
    requires base != "" && '/' !in base
    ensures Base(Render(rooted, stack + [base])) == base
  {
    SlashedPush(stack, base);
    var root, dirs := if rooted then "/" else "", if stack == [] then "" else Slashed(stack) + "/";
    assert Render(rooted, stack + [base]) == root + (dirs + base) == (root + dirs) + base;
    BaseAfterSlash(root + dirs, base);
  }

  lemma ReducedEndsInBase(rooted: bool, path: string)
    requires Real(Base(path))
    ensures '/' !in Base(path)
    ensures Reduce(rooted, Elements(path)) != []
    ensures Reduce(rooted, Elements(path))[|Reduce(rooted, Elements(path))| - 1] == Base(path)
  {
    var stripped := StripSlashes(path);
    StripTwice(path);
    LastElement(stripped);
    TrailingSlashesVanish(rooted, path);
    ReduceReal(rooted, Elements(stripped));
  }

  /** A path whose last element is real keeps that element, and its base, when cleaned. */
  lemma CleanKeepsBase(path: string)
    requires Real(Base(path))
    ensures Base(Clean(path)) == Base(path)
  {
    var rooted := path != "" && path[0] == '/';
    ReducedEndsInBase(rooted, path);
    var stack := Reduce(rooted, Elements(path));
    RenderOfEnding(rooted, stack);
  }

  lemma RenderOfEnding(rooted: bool, stack: seq<string>)
    requires stack != [] && stack[|stack| - 1] != "" && '/' !in stack[|stack| - 1]
    ensures Base(Render(rooted, stack)) == stack[|stack| - 1]
  {
    assert stack == stack[..|stack| - 1] + [stack[|stack| - 1]];
    RenderKeepsBase(rooted, stack[..|stack| - 1], stack[|stack| - 1]);
  }

  lemma PrefixKeepsBase(dir: string, name: string)
    requires Real(Base(name))
    ensures Base(dir + "/" + name) == Base(name)
  {
    var stripped, base := StripSlashes(name), Base(name);
    StripTwice(name);
    LastElement(stripped);
    var front := stripped[..|stripped| - |base|];
    StripPrepends(dir + "/", name);
    assert dir + "/" + stripped == (dir + "/" + front) + base;
    BaseAfterSlash(dir + "/" + front, base);
    StripTwice(dir + "/" + name);
  }

  lemma JoinKeepsBase(dir: string, name: string)
    requires Real(Base(name))
    ensures Base(Join(dir, name)) == Base(name)
  {
    if dir == "" {
      CleanKeepsBase(name);
    } else {
      PrefixKeepsBase(dir, name);
      CleanKeepsBase(dir + "/" + name);
    }
  }

  lemma {:induction false} StripTwice(path: string)
    ensures var stripped := StripSlashes(path);
            stripped != "" ==> stripped[|stripped| - 1] != '/' && Base(stripped) == Base(path)
  {
    if path != "" && path[|path| - 1] == '/' { StripTwice(path[..|path| - 1]); }
  }

  lemma DotVanishes(path: string)
    requires path != ""
    ensures Clean(path + "/.") == Clean(path)
  {
    assert path + "/" + "." == path + "/.";
    ElementsSplit(path, ".");
    assert (Elements(path) + ["."])[..|Elements(path)|] == Elements(path);
  }

  lemma DotJoins(dir: string, name: string)
    requires name != ""
    ensures Join(dir, name + "/.") == Join(dir, name)
  {
    var whole := dir + "/" + name;
    assert dir + "/" + (name + "/.") == whole + "/.";
    DotVanishes(whole);
    DotVanishes(name);
  }

  lemma DotBase(name: string)
    ensures Base(name + "/.") == "."
  {
    BaseAfterSlash(name + "/", ".");
    assert name + "/" + "." == name + "/.";
  }

  // ---- the elements of a path ------------------------------------------------

  /** The elements are what stands between the slashes: no element holds one, and put together
      again they are the path. */
  lemma {:induction false} ElementsJoin(path: string)
    ensures Elements(path) != [] && JoinElements(Elements(path)) == path
    ensures forall i :: 0 <= i < |Elements(path)| ==> '/' !in Elements(path)[i]
  {
    var i := AfterSlash(path);
    if i == 0 {
      assert path[0..] == path;
    } else {
      ElementsJoin(path[..i - 1]);
      assert (Elements(path[..i - 1]) + [path[i..]])[..|Elements(path[..i - 1])|] == Elements(path[..i - 1]);
      assert path == path[..i - 1] + "/" + path[i..];
    }
  }

  function JoinElements(elements: seq<string>): string
    requires elements != []
  {
    if |elements| == 1 then elements[0]
    else JoinElements(elements[..|elements| - 1]) + "/" + elements[|elements| - 1]
  }

  lemma ElementsSingle(path: string)
    requires '/' !in path
    ensures Elements(path) == [path]
  {
    assert path[0..] == path;
    AfterSlashIs(path, 0);
  }

  lemma {:induction false} ElementsConcat(dir: string, name: string)
    ensures Elements(dir + "/" + name) == Elements(dir) + Elements(name)
    decreases |name|
  {
    var i := AfterSlash(name);
    if i == 0 {
      assert name[0..] == name;
      ElementsSplit(dir, name);
      ElementsSingle(name);
    } else {
      var front, last := name[..i - 1], name[i..];
      assert name == front + "/" + last;
      assert dir + "/" + name == (dir + "/" + front) + "/" + last;
      ElementsSplit(dir + "/" + front, last);
      ElementsConcat(dir, front);
    }
  }

  // ---- where a path leads ----------------------------------------------------

  /** One step from a directory, which is the list of names that leads to it from the root. */
  function Go(at: seq<string>, element: string): seq<string> {
    if element == "" || element == "." then at
    else if element == ".." then (if at == [] then [] else at[..|at| - 1])
    else at + [element]
  }

  function Follow(at: seq<string>, elements: seq<string>): seq<string> {
    if elements == [] then at else Go(Follow(at, elements[..|elements| - 1]), elements[|elements| - 1])
  }

  predicate Rooted(path: string) { path != "" && path[0] == '/' }

  /** The place that a path names, seen from a directory, on a file system without links. */
  function Place(at: seq<string>, path: string): seq<string> {
    Follow(if Rooted(path) then [] else at, Elements(path))
  }

  lemma FollowPush(at: seq<string>, elements: seq<string>, element: string)
    ensures Follow(at, elements + [element]) == Go(Follow(at, elements), element)
  {
    assert (elements + [element])[..|elements|] == elements;
  }

  lemma {:induction false} FollowConcat(at: seq<string>, a: seq<string>, b: seq<string>)
    ensures Follow(at, a + b) == Follow(Follow(at, a), b)
    decreases |b|
  {
    if b == [] {
      assert a + b == a;
    } else {
      var front, last := b[..|b| - 1], b[|b| - 1];
      assert a + b == (a + front) + [last];
      FollowPush(at, a + front, last);
      FollowConcat(at, a, front);
    }
  }

  /** The stack of Clean: names, behind dot-dots that are only there when the path is not rooted. */
  ghost predicate Normal(rooted: bool, stack: seq<string>) {
    && (forall i :: 0 <= i < |stack| ==> stack[i] != "" && stack[i] != "." && '/' !in stack[i])
    && (forall i :: 0 <= i < |stack| && stack[i] == ".." ==> !rooted && forall j :: 0 <= j < i ==> stack[j] == "..")
  }

  lemma PushKeepsNormal(rooted: bool, stack: seq<string>, element: string)
    requires Normal(rooted, stack) && '/' !in element
    ensures Normal(rooted, Push(rooted, stack, element))
  {
    if element == ".." && stack != [] && stack[|stack| - 1] == ".." {
      assert forall j :: 0 <= j < |stack| ==> stack[j] == "..";
    }
  }

  lemma PushGoes(rooted: bool, at: seq<string>, stack: seq<string>, element: string)
    requires Normal(rooted, stack) && (rooted ==> at == [])
    ensures Follow(at, Push(rooted, stack, element)) == Go(Follow(at, stack), element)
  {
    if element == ".." && stack != [] && stack[|stack| - 1] != ".." {
      var front, last := stack[..|stack| - 1], stack[|stack| - 1];
      assert stack == front + [last];
      FollowPush(at, front, last);
    } else if element != "" && element != "." && !(element == ".." && rooted) {
      FollowPush(at, stack, element);
    }
  }

  lemma {:induction false} ReduceKeepsPlace(rooted: bool, at: seq<string>, elements: seq<string>)
    requires rooted ==> at == []
    requires forall i :: 0 <= i < |elements| ==> '/' !in elements[i]
    ensures Normal(rooted, Reduce(rooted, elements))
    ensures Follow(at, Reduce(rooted, elements)) == Follow(at, elements)
  {
    if elements != [] {
      var front, last := elements[..|elements| - 1], elements[|elements| - 1];
      ReduceKeepsPlace(rooted, at, front);
      PushKeepsNormal(rooted, Reduce(rooted, front), last);
      PushGoes(rooted, at, Reduce(rooted, front), last);
    }
  }

  lemma {:induction false} ElementsOfSlashed(stack: seq<string>)
    requires stack != [] && forall i :: 0 <= i < |stack| ==> '/' !in stack[i] && stack[i] != ""
    ensures Elements(Slashed(stack)) == stack && Slashed(stack) != "" && Slashed(stack)[0] != '/'
  {
    if |stack| == 1 {
      ElementsSingle(stack[0]);
      assert stack[0][0] in stack[0];
    } else {
      var front, last := stack[..|stack| - 1], stack[|stack| - 1];
      ElementsOfSlashed(front);
      ElementsSplit(Slashed(front), last);
      assert stack == front + [last];
    }
  }

  lemma FollowOne(at: seq<string>, element: string)
    ensures Follow(at, [element]) == Go(at, element)
  {
    assert [element][..0] == [];
  }

  lemma EmptyStackPlace(rooted: bool, at: seq<string>)
    ensures Rooted(Render(rooted, [])) == rooted && Place(at, Render(rooted, [])) == if rooted then [] else at
  {
    if rooted {
      assert "" + "/" + "" == "/";
      ElementsSplit("", "");
      ElementsSingle("");
      FollowConcat([], [""], [""]);
      FollowOne([], "");
    } else {
      ElementsSingle(".");
      FollowOne(at, ".");
    }
  }

  lemma RootedStackPlace(at: seq<string>, stack: seq<string>)
    requires Normal(true, stack) && stack != []
    ensures Rooted(Render(true, stack)) && Place(at, Render(true, stack)) == Follow([], stack)
  {
    assert "" + "/" + Slashed(stack) == "/" + Slashed(stack);
    ElementsOfSlashed(stack);
    ElementsConcat("", Slashed(stack));
    ElementsSingle("");
    FollowConcat([], [""], stack);
    FollowOne([], "");
  }

  lemma RenderedPlace(rooted: bool, at: seq<string>, stack: seq<string>)
    requires Normal(rooted, stack)
    ensures Rooted(Render(rooted, stack)) == rooted
    ensures Place(at, Render(rooted, stack)) == Follow(if rooted then [] else at, stack)
  {
    if stack == [] {
      EmptyStackPlace(rooted, at);
    } else if rooted {
      RootedStackPlace(at, stack);
    } else {
      ElementsOfSlashed(stack);
      assert "" + Slashed(stack) == Slashed(stack);
    }
  }

  /** filepath.Clean: the cleaned path leads to the same place, seen from every directory, and
      has no empty and no dot element, and dot-dots only in front and only when not rooted. */
  lemma CleanKeepsPlace(at: seq<string>, path: string)
    ensures Place(at, Clean(path)) == Place(at, path) && Rooted(Clean(path)) == Rooted(path)
    ensures exists stack :: Normal(Rooted(path), stack) && Clean(path) == Render(Rooted(path), stack)
  {
    var start := if Rooted(path) then [] else at;
    ElementsJoin(path);
    ReduceKeepsPlace(Rooted(path), start, Elements(path));
    RenderedPlace(Rooted(path), at, Reduce(Rooted(path), Elements(path)));
  }

  /** filepath.Join: from every directory, the joined path leads to where name leads from dir,
      even when name starts with a slash. */
  lemma JoinLeadsInto(at: seq<string>, dir: string, name: string)
    requires dir != ""
    ensures Place(at, Join(dir, name)) == Follow(Place(at, dir), Elements(name))
  {
    CleanKeepsPlace(at, dir + "/" + name);
    ElementsConcat(dir, name);
    FollowConcat(if Rooted(dir) then [] else at, Elements(dir), Elements(name));
  }

  // ---- names without dot-dot -------------------------------------------------

  /** The elements that name something. */
  function Kept(elements: seq<string>): seq<string> {
    if elements == [] then []
    else
      var last := elements[|elements| - 1];
      Kept(elements[..|elements| - 1]) + (if last == "" || last == "." then [] else [last])
  }

  lemma {:induction false} ReduceAppends(rooted: bool, front: seq<string>, more: seq<string>)
    requires ".." !in more
    ensures Reduce(rooted, front + more) == Reduce(rooted, front) + Kept(more)
    decreases |more|
  {
    if more == [] {
      assert front + more == front;
    } else {
      var init, last := more[..|more| - 1], more[|more| - 1];
      assert front + more == (front + init) + [last] && ((front + init) + [last])[..|front + init|] == front + init;
      assert forall e :: e in init ==> e in more;
      ReduceAppends(rooted, front, init);
    }
  }

  lemma {:induction false} SlashedConcat(a: seq<string>, b: seq<string>)
    requires b != []
    ensures Slashed(a + b) == (if a == [] then "" else Slashed(a) + "/") + Slashed(b)
    decreases |b|
  {
    var front, last := b[..|b| - 1], b[|b| - 1];
    assert a + b == (a + front) + [last] && b == front + [last];
    SlashedPush(a + front, last);
    SlashedPush(front, last);
    if front == [] {
      assert a + front == a;
    } else {
      SlashedConcat(a, front);
    }
  }

  /** What stands before the name in a target: the directory and a slash, or nothing for the
      current directory. */
  function Prefix(dir: string): string {
    if Clean(dir) == "." then "" else if Clean(dir) == "/" then "/" else Clean(dir) + "/"
  }

  lemma PrefixOfStack(dir: string)
    ensures Prefix(dir) == PrefixFor(Rooted(dir), Reduce(Rooted(dir), Elements(dir)))
  {
    var stack := Reduce(Rooted(dir), Elements(dir));
    ElementsJoin(dir);
    ReduceKeepsPlace(Rooted(dir), [], Elements(dir));
    RenderedPrefix(Rooted(dir), stack);
  }

  function PrefixFor(rooted: bool, stack: seq<string>): string {
    (if rooted then "/" else "") + (if stack == [] then "" else Slashed(stack) + "/")
  }

  lemma RenderedPrefix(rooted: bool, stack: seq<string>)
    requires Normal(rooted, stack)
    ensures var clean := Render(rooted, stack);
            PrefixFor(rooted, stack) == if clean == "." then "" else if clean == "/" then "/" else clean + "/"
  {
    if stack != [] {
      SlashedIsNoDot(stack);
      ElementsOfSlashed(stack);
      if rooted {
        assert ("/" + Slashed(stack))[1..] == Slashed(stack);
        assert "/" + (Slashed(stack) + "/") == ("/" + Slashed(stack)) + "/";
      } else {
        assert "" + Slashed(stack) == Slashed(stack);
        assert "" + (Slashed(stack) + "/") == Slashed(stack) + "/";
      }
    }
  }

  lemma SlashedIsNoDot(stack: seq<string>)
    requires |stack| > 0 && forall i :: 0 <= i < |stack| ==> '/' !in stack[i] && stack[i] != "" && stack[i] != "."
    ensures Slashed(stack) != "." && Slashed(stack) != ""
  {
    ElementsOfSlashed(stack);
    ElementsSingle(".");
    assert [stack[0]] != ["."];
  }

  /** A name without dot-dot that names something is placed right behind the directory, with the
      elements it has. */
  lemma JoinIsUnder(dir: string, name: string)
    requires dir != "" && ".." !in Elements(name) && Kept(Elements(name)) != []
    ensures Join(dir, name) == Prefix(dir) + Slashed(Kept(Elements(name)))
  {
    var rooted := Rooted(dir);
    var stack, kept := Reduce(rooted, Elements(dir)), Kept(Elements(name));
    ElementsConcat(dir, name);
    ReduceAppends(rooted, Elements(dir), Elements(name));
    PrefixOfStack(dir);
    KeptAreNamed(name);
    RenderBehind(rooted, stack, kept);
  }

  lemma RenderBehind(rooted: bool, stack: seq<string>, kept: seq<string>)
    requires kept != [] && forall e :: e in kept ==> e != "" && '/' !in e
    ensures Render(rooted, stack + kept) == PrefixFor(rooted, stack) + Slashed(kept)
  {
    assert forall i :: 0 <= i < |kept| ==> kept[i] in kept;
    ElementsOfSlashed(kept);
    SlashedConcat(stack, kept);
    ConcatAssociates(if rooted then "/" else "", if stack == [] then "" else Slashed(stack) + "/", Slashed(kept));
  }

  lemma ConcatAssociates(a: string, b: string, c: string)
    ensures a + (b + c) == (a + b) + c && |a + (b + c)| >= |c|
  {}

  lemma KeptAreNamed(name: string)
    ensures forall e :: e in Kept(Elements(name)) ==> e != "" && e != "." && '/' !in e
  {
    ElementsJoin(name);
    KeptIn(Elements(name));
  }

  lemma {:induction false} KeptIn(elements: seq<string>)
    ensures forall e :: e in Kept(elements) <==> e in elements && e != "" && e != "."
  {
    if elements != [] {
      KeptIn(elements[..|elements| - 1]);
      assert elements == elements[..|elements| - 1] + [elements[|elements| - 1]];
    }
  }

  // ---- the last element ------------------------------------------------------

  predicate OnlySlashes(s: string) { forall i :: 0 <= i < |s| ==> s[i] == '/' }

  lemma {:induction false} StripLeavesSlashes(path: string)
    ensures OnlySlashes(path[|StripSlashes(path)|..])
    ensures StripSlashes(path) != "" ==> StripSlashes(path)[|StripSlashes(path)| - 1] != '/'
  {
    if path != "" && path[|path| - 1] == '/' {
      var k := |StripSlashes(path)|;
      StripLeavesSlashes(path[..|path| - 1]);
      assert path[k..] == path[..|path| - 1][k..] + "/";
    }
  }

  /** base is the last element of path, slashes behind it aside. */
  ghost predicate EndsIn(path: string, base: string) {
    && base != "" && '/' !in base
    && exists front, slashes :: path == front + base + slashes && OnlySlashes(slashes)
                           && (front == "" || front[|front| - 1] == '/')
  }

  /** filepath.Base: a dot for the empty path, a slash for nothing but slashes, and otherwise
      the last element. */
  lemma BaseMeans(path: string)
    ensures path == "" ==> Base(path) == "."
    ensures path != "" && OnlySlashes(path) ==> Base(path) == "/"
    ensures !OnlySlashes(path) ==> EndsIn(path, Base(path))
  {
    StripLeavesSlashes(path);
    var stripped := StripSlashes(path);
    assert path == stripped + path[|stripped|..];
    if stripped == "" {
      assert path[0..] == path;
    } else {
      assert path[|stripped| - 1] != '/';
      StrippedEnds(stripped, path[|stripped|..]);
      StripTwice(path);
    }
  }

  lemma StrippedEnds(stripped: string, slashes: string)
    requires stripped != "" && stripped[|stripped| - 1] != '/' && OnlySlashes(slashes)
    ensures EndsIn(stripped + slashes, Base(stripped))
  {
    LastElement(stripped);
    var front := stripped[..|stripped| - |Base(stripped)|];
    assert stripped + slashes == front + Base(stripped) + slashes;
  }
}
