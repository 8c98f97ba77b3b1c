/** net.SplitHostPort, which the registry uses to judge an address. */
module HostPort {
  import opened Common

  /** The first index of c in s, or |s|. */
  function IndexOf(s: string, c: char): (i: nat)
    ensures i <= |s| && c !in s[..i] && (i < |s| ==> s[i] == c)
  {
    if s == "" || s[0] == c then 0
    else
      var i := 1 + IndexOf(s[1..], c);
      assert s[..i] == [s[0]] + s[1..][..i - 1];
      i
  }

  /** One past the last index of c in s, or 0. */
  function AfterLast(s: string, c: char): (i: nat)
    ensures i <= |s| && c !in s[i..] && (i > 0 ==> s[i - 1] == c)
  {
    if s == "" || s[|s| - 1] == c then |s|
    else
      var i := AfterLast(s[..|s| - 1], c);
      assert s[i..] == s[..|s| - 1][i..] + [s[|s| - 1]];
      i
  }

  datatype Address = Address(host: string, port: string)

  function SplitHostPort(a: string): Option<Address> {
    var portAt := AfterLast(a, ':');
    if portAt == 0 then None
    else if a[0] == '[' then
      var end := IndexOf(a, ']');
      // The bracket must close right before the last colon.
      if end == |a| || end + 1 != portAt - 1 then None
      else if '[' in a[1..] || ']' in a[end + 1..] then None
      else Some(Address(a[1..end], a[portAt..]))
    else if ':' in a[..portAt - 1] then None
    else if '[' in a || ']' in a then None
    else Some(Address(a[..portAt - 1], a[portAt..]))
  }

  predicate Plain(s: string) { '[' !in s && ']' !in s }

  /** a is host:port with a bare host, or [host]:port, and the parts hold no stray bracket or colon. */
  predicate Joins(a: string, p: Address) {
    && Plain(p.host) && Plain(p.port) && ':' !in p.port
    && ((a == p.host + ":" + p.port && ':' !in p.host) || a == "[" + p.host + "]:" + p.port)
  }

  lemma NotInSlice(c: char, s: string, i: nat, j: nat, k: nat)
    requires i <= j <= k <= |s| && c !in s[i..]
    ensures c !in s[j..k]
  {
    assert forall m :: i <= m < |s| ==> s[m] in s[i..];
  }

  lemma BracketedJoins(a: string)
    requires a != "" && a[0] == '[' && SplitHostPort(a).Some?
    ensures Joins(a, SplitHostPort(a).value)
  {
    var portAt, end := AfterLast(a, ':'), IndexOf(a, ']');
    NotInSlice('[', a, 1, 1, end);
    NotInSlice('[', a, 1, portAt, |a|);
    NotInSlice(']', a, end + 1, portAt, |a|);
    assert a[..end] == "[" + a[1..end];
    assert a[portAt..|a|] == a[portAt..];
    assert a == a[..end] + "]:" + a[portAt..];
    assert a == "[" + a[1..end] + "]:" + a[portAt..];
  }

  lemma SplitJoins(a: string)
    requires SplitHostPort(a).Some?
    ensures Joins(a, SplitHostPort(a).value)
  {
    if a[0] == '[' {
      BracketedJoins(a);
    } else {
      var portAt := AfterLast(a, ':');
      assert a[0..] == a && a[portAt..|a|] == a[portAt..] && a[0..portAt - 1] == a[..portAt - 1];
      NotInSlice('[', a, 0, 0, portAt - 1);
      NotInSlice(']', a, 0, 0, portAt - 1);
      NotInSlice('[', a, 0, portAt, |a|);
      NotInSlice(']', a, 0, portAt, |a|);
      assert a == a[..portAt - 1] + ":" + a[portAt..];
    }
  }

  lemma LastColonAt(a: string, k: nat)
    requires 0 < k <= |a| && a[k - 1] == ':' && ':' !in a[k..]
    ensures AfterLast(a, ':') == k
  {
    var i := AfterLast(a, ':');
    assert forall m :: i <= m < |a| ==> a[m] in a[i..];
    assert forall m :: k <= m < |a| ==> a[m] in a[k..];
  }

  lemma FirstBracketAt(a: string, k: nat)
    requires k < |a| && a[k] == ']' && ']' !in a[..k]
    ensures IndexOf(a, ']') == k
  {
    var i := IndexOf(a, ']');
    assert forall m :: 0 <= m < k ==> a[m] in a[..k];
    assert forall m :: 0 <= m < i ==> a[m] in a[..i];
  }

  lemma BareSplits(p: Address)
    requires Plain(p.host) && Plain(p.port) && ':' !in p.port && ':' !in p.host
    ensures SplitHostPort(p.host + ":" + p.port) == Some(p)
  {
    var a := p.host + ":" + p.port;
    var k := |p.host| + 1;
    assert a[k..] == p.port && a[..k - 1] == p.host;
    LastColonAt(a, k);
    assert '[' !in a && ']' !in a;
    assert a[0] in a;
  }

  lemma BracketedSplits(p: Address)
    requires Plain(p.host) && Plain(p.port) && ':' !in p.port
    ensures SplitHostPort("[" + p.host + "]:" + p.port) == Some(p)
  {
    var a := "[" + p.host + "]:" + p.port;
    var end := |p.host| + 1;
    assert a[end + 2..] == p.port && a[1..end] == p.host;
    LastColonAt(a, end + 2);
    assert a[..end] == "[" + p.host;
    FirstBracketAt(a, end);
    assert a[1..] == p.host + "]:" + p.port;
    assert a[end + 1..] == ":" + p.port;
  }

  /** An address splits exactly when it joins a host and a port, and then into those two. */
  lemma SplitIffJoins(a: string, p: Address)
    ensures SplitHostPort(a) == Some(p) <==> Joins(a, p)
  {
    if SplitHostPort(a) == Some(p) { SplitJoins(a); }
    if Joins(a, p) {
      if a == "[" + p.host + "]:" + p.port { BracketedSplits(p); } else { BareSplits(p); }
    }
  }
}
