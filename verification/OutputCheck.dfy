/** checkOutputs and writeFiles of tools/protogen/main.go. */
module OutputCheck {
  import opened Common
  import opened FilePath

  // ---- the output check ------------------------------------------------------

  /** A generated file. */
  datatype File = File(name: string, content: string)

  function BaseNames(names: seq<string>): (bases: seq<string>)
    ensures |bases| == |names| && forall i :: 0 <= i < |names| ==> bases[i] == Base(names[i])
  {
    seq(|names|, i requires 0 <= i < |names| => Base(names[i]))
  }

  function Names(files: seq<File>): (names: seq<string>)
    ensures |names| == |files| && forall i :: 0 <= i < |files| ==> names[i] == files[i].name
  {
    seq(|files|, i requires 0 <= i < |files| => files[i].name)
  }

  function Elems(s: seq<string>): set<string> { set x | x in s }

  predicate Distinct(s: seq<string>) {
    forall i, j :: 0 <= i < j < |s| ==> s[i] != s[j]
  }

  /** Pigeonhole: as many different elements as positions means no element twice. */
  lemma {:induction false} CountingElements(s: seq<string>)
    ensures |Elems(s)| <= |s|
    ensures |Elems(s)| == |s| <==> Distinct(s)
  {
    if s != [] {
      var n := |s| - 1;
      CountingElements(s[..n]);
      assert s == s[..n] + [s[n]];
      assert Elems(s) == Elems(s[..n]) + {s[n]};
      if s[n] in Elems(s[..n]) {
        var i :| 0 <= i < n && s[i] == s[n];
        assert Elems(s) == Elems(s[..n]);
      }
    }
  }

  method BaseSet(names: seq<string>) returns (bases: set<string>)
    ensures bases == Elems(BaseNames(names))
  {
    bases := {};
    ghost var all := BaseNames(names);
    for i := 0 to |names|
      invariant bases == Elems(all[..i])
    {
      bases := bases + {Base(names[i])};
      assert all[..i + 1] == all[..i] + [Base(names[i])];
    }
    assert all[..|names|] == all;
  }

  /** The check passes exactly when the base names are pairwise distinct and are the wanted
      base names. */
  method CheckOutputs(wanted: seq<string>, files: seq<File>) returns (ok: bool)
    ensures ok <==> Distinct(BaseNames(Names(files))) && Elems(BaseNames(Names(files))) == Elems(BaseNames(wanted))
  {
    var expected := BaseSet(wanted);
    var produced := BaseSet(Names(files));
    CountingElements(BaseNames(Names(files)));
    return |produced| == |files| && expected == produced;
  }

  // ---- writing ---------------------------------------------------------------

  /** How the calls for one file end. A failed write may leave other content behind. */
  datatype WriteOutcome = Written | MkdirFailed | WriteFailed(left: Option<string>)

  function WriteAll(fs: map<string, string>, dir: string, files: seq<File>,
                    outcomes: seq<WriteOutcome>): (map<string, string>, bool)
    requires |files| == |outcomes|
    decreases |files|
  {
    if files == [] then (fs, true)
    else
      var target := Join(dir, files[0].name);
      match outcomes[0]
      case Written => WriteAll(fs[target := files[0].content], dir, files[1..], outcomes[1..])
      case MkdirFailed => (fs, false)
      case WriteFailed(left) => (if left.Some? then fs[target := left.value] else fs, false)
  }

  class FileSystem {
    var content: map<string, string>

    constructor (content: map<string, string>)
      ensures this.content == content
    {
      this.content := content;
    }

    method WriteFiles(dir: string, files: seq<File>, outcomes: seq<WriteOutcome>) returns (ok: bool)
      requires |files| == |outcomes|
      modifies this
      ensures (content, ok) == WriteAll(old(content), dir, files, outcomes)
      ensures ok <==> forall i :: 0 <= i < |files| ==> outcomes[i].Written?
    {
      SucceedsIfAllWritten(content, dir, files, outcomes);
      var i := 0;
      while i < |files|
        invariant i <= |files|
        invariant WriteAll(content, dir, files[i..], outcomes[i..]) == WriteAll(old(content), dir, files, outcomes)
      {
        var target := Join(dir, files[i].name);
        match outcomes[i]
        case MkdirFailed => return false;
        case WriteFailed(left) =>
          if left.Some? { content := content[target := left.value]; }
          return false;
        case Written =>
          content := content[target := files[i].content];
          assert files[i..][1..] == files[i + 1..] && outcomes[i..][1..] == outcomes[i + 1..];
          i := i + 1;
      }
      return true;
    }

    /** The tail of generate: check, then write. A failed check writes nothing; on success the
        files are the wanted ones and, if their names are real, all of them are on disk. */
    method CheckAndWrite(wanted: seq<string>, dir: string, files: seq<File>, outcomes: seq<WriteOutcome>)
      returns (ok: bool)
      requires |files| == |outcomes|
      modifies this
      ensures ok ==> Elems(BaseNames(Names(files))) == Elems(BaseNames(wanted))
      ensures ok && (forall i :: 0 <= i < |files| ==> Real(Base(files[i].name))) ==> Survive(content, dir, files)
      ensures !Distinct(BaseNames(Names(files))) || Elems(BaseNames(Names(files))) != Elems(BaseNames(wanted)) ==>
                !ok && content == old(content)
    {
      var matched := CheckOutputs(wanted, files);
      if !matched { return false; }
      ok := WriteFiles(dir, files, outcomes);
      if ok && forall i :: 0 <= i < |files| ==> Real(Base(files[i].name)) {
        CheckedFilesSurvive(old(content), dir, files, outcomes);
      }
    }
  }

  lemma {:induction false} SucceedsIfAllWritten(fs: map<string, string>, dir: string, files: seq<File>,
                                                outcomes: seq<WriteOutcome>)
    requires |files| == |outcomes|
    ensures WriteAll(fs, dir, files, outcomes).1 <==> forall i :: 0 <= i < |files| ==> outcomes[i].Written?
    decreases |files|
  {
    if files != [] && outcomes[0].Written? {
      SucceedsIfAllWritten(fs[Join(dir, files[0].name) := files[0].content], dir, files[1..], outcomes[1..]);
      assert forall i :: 0 < i < |files| ==> outcomes[i] == outcomes[1..][i - 1];
    }
  }

  /** How many files are written before the first failure. */
  function WrittenFirst(outcomes: seq<WriteOutcome>): (n: nat)
    ensures n <= |outcomes| && (n < |outcomes| ==> !outcomes[n].Written?)
    ensures forall i :: 0 <= i < n ==> outcomes[i].Written?
  {
    if outcomes == [] || !outcomes[0].Written? then 0 else 1 + WrittenFirst(outcomes[1..])
  }

  /** The files before the first failure are written, the failing one may leave something at its
      target, and the others are not touched. */
  lemma {:induction false} WritingStopsAtFailure(fs: map<string, string>, dir: string, files: seq<File>,
                                                 outcomes: seq<WriteOutcome>)
    requires |files| == |outcomes|
    ensures var n, (after, ok) := WrittenFirst(outcomes), WriteAll(fs, dir, files, outcomes);
      && WriteAll(fs, dir, files[..n], outcomes[..n]).1
      && (ok <==> n == |files|)
      && var before := WriteAll(fs, dir, files[..n], outcomes[..n]).0;
         || after == before
         || (n < |files| && outcomes[n].WriteFailed? && outcomes[n].left.Some?
             && after == before[Join(dir, files[n].name) := outcomes[n].left.value])
    decreases |files|
  {
    var n := WrittenFirst(outcomes);
    if n > 0 {
      WritingStopsAtFailure(fs[Join(dir, files[0].name) := files[0].content], dir, files[1..], outcomes[1..]);
      assert files[..n][1..] == files[1..][..n - 1] && outcomes[..n][1..] == outcomes[1..][..n - 1];
    }
  }

  /** Every file can be read back with its own content. */
  predicate Survive(fs: map<string, string>, dir: string, files: seq<File>) {
    forall i :: 0 <= i < |files| ==> Join(dir, files[i].name) in fs && fs[Join(dir, files[i].name)] == files[i].content
  }

  /** Files with the same target agree on its content. */
  predicate Agree(dir: string, files: seq<File>) {
    forall i, j :: 0 <= i < j < |files| && Join(dir, files[i].name) == Join(dir, files[j].name) ==>
        files[i].content == files[j].content
  }

  /** The last file written to a path gives its content; other paths keep theirs. */
  lemma {:induction false} LastWriterWins(fs: map<string, string>, dir: string, files: seq<File>,
                                          outcomes: seq<WriteOutcome>, path: string)
    requires |files| == |outcomes| && WriteAll(fs, dir, files, outcomes).1
    ensures var after := WriteAll(fs, dir, files, outcomes).0;
      || ((forall i :: 0 <= i < |files| ==> Join(dir, files[i].name) != path)
          && (path in after <==> path in fs) && (path in fs ==> after[path] == fs[path]))
      || (exists i :: 0 <= i < |files| && Join(dir, files[i].name) == path
            && path in after && after[path] == files[i].content
            && forall j :: i < j < |files| ==> Join(dir, files[j].name) != path)
    decreases |files|
  {
    if files != [] {
      var fs' := fs[Join(dir, files[0].name) := files[0].content];
      LastWriterWins(fs', dir, files[1..], outcomes[1..], path);
      var after := WriteAll(fs, dir, files, outcomes).0;
      if i :| 0 <= i < |files| - 1 && Join(dir, files[1..][i].name) == path
              && path in after && after[path] == files[1..][i].content
              && forall j :: i < j < |files| - 1 ==> Join(dir, files[1..][j].name) != path {
        assert files[1..][i] == files[i + 1];
        assert forall j :: i + 1 < j < |files| ==> files[j] == files[1..][j - 1];
      } else {
        assert forall j :: 0 < j < |files| ==> files[j] == files[1..][j - 1];
      }
    }
  }

  /** After a successful write every content survives, if and only if files that share a
      target share their content. */
  lemma SurviveIffAgree(fs: map<string, string>, dir: string, files: seq<File>, outcomes: seq<WriteOutcome>)
    requires |files| == |outcomes| && WriteAll(fs, dir, files, outcomes).1
    ensures Survive(WriteAll(fs, dir, files, outcomes).0, dir, files) <==> Agree(dir, files)
  {
    var after := WriteAll(fs, dir, files, outcomes).0;
    if Agree(dir, files) {
      forall i | 0 <= i < |files|
        ensures Join(dir, files[i].name) in after && after[Join(dir, files[i].name)] == files[i].content
      {
        var path := Join(dir, files[i].name);
        LastWriterWins(fs, dir, files, outcomes, path);
        var k :| 0 <= k < |files| && Join(dir, files[k].name) == path
          && path in after && after[path] == files[k].content;
        assert i <= k || k <= i;
      }
    }
  }

  /** A passed check followed by a successful write loses nothing: the targets are pairwise
      distinct and every content survives, provided each name ends in a real element. */
  lemma CheckedFilesSurvive(fs: map<string, string>, dir: string, files: seq<File>, outcomes: seq<WriteOutcome>)
    requires |files| == |outcomes| && WriteAll(fs, dir, files, outcomes).1
    requires Distinct(BaseNames(Names(files))) && forall i :: 0 <= i < |files| ==> Real(Base(files[i].name))
    ensures forall i, j :: 0 <= i < j < |files| ==> Join(dir, files[i].name) != Join(dir, files[j].name)
    ensures Survive(WriteAll(fs, dir, files, outcomes).0, dir, files)
  {
    forall i, j | 0 <= i < j < |files| ensures Join(dir, files[i].name) != Join(dir, files[j].name) {
      JoinKeepsBase(dir, files[i].name);
      JoinKeepsBase(dir, files[j].name);
      assert BaseNames(Names(files))[i] != BaseNames(Names(files))[j];
    }
    SurviveIffAgree(fs, dir, files, outcomes);
  }

  /** Without the proviso a check can pass and a file be lost: any real name and the same
      name with a dot behind it have different bases and one target. */
  lemma DotNameCollides(dir: string, name: string)
    requires Real(Base(name))
    ensures Base(name + "/.") != Base(name) && !Agree(dir, [File(name, "x"), File(name + "/.", "y")])
  {
    DotBase(name);
    DotJoins(dir, name);
    var files := [File(name, "x"), File(name + "/.", "y")];
    assert Join(dir, files[0].name) == Join(dir, files[1].name);
  }
}
