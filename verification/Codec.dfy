/** Argument tuples: codec.go. */
module Codec {
  import opened Common
  import opened Contracts

  /** A Go variable handed to Marshal or Unmarshal; the constructor is its type.
      VNodes(None) is the nil slice. */
  datatype Value =
    | VString(s: string)
    | VInt(n: Int64)
    | VNode(node: Node)
    | VQuery(query: Query)
    | VSubgraph(sub: Subgraph)
    | VNodes(nodes: Option<seq<Node>>)
    | VPrompt(prompt: Prompt)

  datatype ArgsError = NotATuple | ArgCount(want: nat, got: nat) | BadArg(index: nat)

  function MarshalNodes(lib: Library, nodes: seq<Node>): Option<seq<Json>> {
    if nodes == [] then Some([])
    else
      match lib.encNode(nodes[0])
      case None => None
      case Some(j) =>
        match MarshalNodes(lib, nodes[1..])
        case None => None
        case Some(rest) => Some([j] + rest)
  }

  /** A null element leaves the zero node, as json.Unmarshal does for a struct. */
  function UnmarshalNodes(lib: Library, items: seq<Json>): Option<seq<Node>> {
    if items == [] then Some([])
    else
      match (if items[0].Null? then Some(lib.zeroNode) else lib.decNode(items[0]))
      case None => None
      case Some(node) =>
        match UnmarshalNodes(lib, items[1..])
        case None => None
        case Some(rest) => Some([node] + rest)
  }

  function Marshal(lib: Library, v: Value): Option<Json> {
    match v
    case VString(s) => Some(Str(s))
    case VInt(n) => Some(Num(n))
    case VNode(x) => lib.encNode(x)
    case VQuery(x) => lib.encQuery(x)
    case VSubgraph(x) => lib.encSubgraph(x)
    case VPrompt(x) => lib.encPrompt(x)
    case VNodes(None) => Some(Null)
    case VNodes(Some(nodes)) =>
      match MarshalNodes(lib, nodes)
      case None => None
      case Some(items) => Some(Arr(items))
  }

  /** Decodes into a variable that holds current. null leaves the variable alone,
      except that it sets a slice to nil. */
  function Unmarshal(lib: Library, j: Json, current: Value): (r: Option<Value>)
    ensures r.Some? ==> SameType(r.value, current)
  {
    match current
    case VNodes(_) => UnmarshalSlice(lib, j)
    case _ => if j.Null? then Some(current) else UnmarshalScalar(lib, j, current)
  }

  function UnmarshalSlice(lib: Library, j: Json): Option<Value> {
    match j
    case Null => Some(VNodes(None))
    case Arr(items) =>
      var nodes := UnmarshalNodes(lib, items);
      if nodes.Some? then Some(VNodes(nodes)) else None
    case _ => None
  }

  function UnmarshalScalar(lib: Library, j: Json, current: Value): Option<Value>
    requires !current.VNodes? && !j.Null?
  {
    match current
    case VString(_) => if j.Str? then Some(VString(j.s)) else None
    case VInt(_) => if j.Num? && -TWO_63 <= j.n < TWO_63 then Some(VInt(j.n)) else None
    case VNode(_) => MapSome(lib.decNode(j), x => VNode(x))
    case VQuery(_) => MapSome(lib.decQuery(j), x => VQuery(x))
    case VSubgraph(_) => MapSome(lib.decSubgraph(j), x => VSubgraph(x))
    case VPrompt(_) => MapSome(lib.decPrompt(j), x => VPrompt(x))
  }

  function MapSome<T, U>(o: Option<T>, f: T -> U): Option<U> {
    if o.Some? then Some(f(o.value)) else None
  }

  predicate SameType(a: Value, b: Value) {
    match a
    case VString(_) => b.VString?
    case VInt(_) => b.VInt?
    case VNode(_) => b.VNode?
    case VQuery(_) => b.VQuery?
    case VSubgraph(_) => b.VSubgraph?
    case VNodes(_) => b.VNodes?
    case VPrompt(_) => b.VPrompt?
  }

  predicate SameTypes(vals: seq<Value>, dst: seq<Value>) {
    |vals| == |dst| && forall i :: 0 <= i < |vals| ==> SameType(vals[i], dst[i])
  }

  /** The elements of a tuple, or None when some value cannot be encoded. */
  function MarshalAll(lib: Library, vals: seq<Value>): Option<seq<Json>> {
    if vals == [] then Some([])
    else
      match Marshal(lib, vals[0])
      case None => None
      case Some(j) =>
        match MarshalAll(lib, vals[1..])
        case None => None
        case Some(rest) => Some([j] + rest)
  }

  /** A call without arguments passes the nil slice, which encodes as null. */
  function EncodeArgs(lib: Library, vals: seq<Value>): Payload {
    if vals == [] then Some(Null)
    else
      match MarshalAll(lib, vals)
      case None => None
      case Some(items) => Some(Arr(items))
  }

  /** The raw elements of a payload: null is the nil slice. */
  function RawArgs(data: Payload): Option<seq<Json>> {
    match data
    case Some(Null) => Some([])
    case Some(Arr(items)) => Some(items)
    case _ => None
  }

  function UnmarshalAll(lib: Library, raw: seq<Json>, dst: seq<Value>, from: nat): (r: Result<seq<Value>, ArgsError>)
    requires |raw| == |dst| && from <= |dst|
    ensures r.Ok? ==> SameTypes(r.value, dst[from..])
    decreases |dst| - from
  {
    if from == |dst| then Ok([])
    else
      match Unmarshal(lib, raw[from], dst[from])
      case None => Err(BadArg(from))
      case Some(v) =>
        match UnmarshalAll(lib, raw, dst, from + 1)
        case Err(e) => Err(e)
        case Ok(rest) => Ok([v] + rest)
  }

  function DecodeArgs(lib: Library, data: Payload, dst: seq<Value>): (r: Result<seq<Value>, ArgsError>)
    ensures r.Ok? ==> SameTypes(r.value, dst)
  {
    match RawArgs(data)
    case None => Err(NotATuple)
    case Some(raw) =>
      if |raw| != |dst| then Err(ArgCount(|dst|, |raw|))
      else UnmarshalAll(lib, raw, dst, 0)
  }

  /** The loop of decodeArgs: writes each destination in place and stops at the first
      failure. The destinations before it have then been overwritten, the failing one may
      have been filled in part, and those behind it are untouched. */
  method DecodeArgsInto(lib: Library, data: Payload, dst: array<Value>) returns (error: Option<ArgsError>)
    modifies dst
    ensures error.None? <==> DecodeArgs(lib, data, old(dst[..])).Ok?
    ensures error.None? ==> DecodeArgs(lib, data, old(dst[..])) == Ok(dst[..])
    ensures error.Some? ==> DecodeArgs(lib, data, old(dst[..])) == Err(error.value)
    ensures error.Some? && !error.value.BadArg? ==> dst[..] == old(dst[..])
    ensures error.Some? && error.value.BadArg? ==>
              && error.value.index < dst.Length && RawArgs(data).Some? && |RawArgs(data).value| == dst.Length
              && dst[error.value.index + 1..] == old(dst[..])[error.value.index + 1..]
              && (forall i :: 0 <= i < error.value.index ==>
                    Unmarshal(lib, RawArgs(data).value[i], old(dst[i])) == Some(dst[i]))
  {
    var parsed := RawArgs(data);
    if parsed.None? { return Some(NotATuple); }
    var raw := parsed.value;
    if |raw| != dst.Length { return Some(ArgCount(dst.Length, |raw|)); }
    ghost var was := dst[..];
    var index := 0;
    while index < dst.Length
      invariant index <= dst.Length
      invariant dst[index..] == was[index..]
      invariant forall i :: 0 <= i < index ==> Unmarshal(lib, raw[i], was[i]) == Some(dst[i])
    {
      assert dst[index] == dst[index..][0] == was[index];
      var v := Unmarshal(lib, raw[index], dst[index]);
      if v.None? {
        FirstBadArg(lib, raw, was, 0, index);
        // What a failed json.Unmarshal leaves behind is any value of the type.
        assert SameType(dst[index], dst[index]);
        var partial :| SameType(partial, dst[index]);
        dst[index] := partial;
        return Some(BadArg(index));
      }
      dst[index] := v.value;
      index := index + 1;
    }
    AllArgsDecode(lib, raw, was, dst[..], 0);
    assert dst[0..] == dst[..];
    return None;
  }

  lemma {:induction false} AllArgsDecode(lib: Library, raw: seq<Json>, dst: seq<Value>, vals: seq<Value>, from: nat)
    requires |raw| == |dst| == |vals| && from <= |dst|
    requires forall i :: 0 <= i < |dst| ==> Unmarshal(lib, raw[i], dst[i]) == Some(vals[i])
    ensures UnmarshalAll(lib, raw, dst, from) == Ok(vals[from..])
    decreases |dst| - from
  {
    if from < |dst| {
      AllArgsDecode(lib, raw, dst, vals, from + 1);
      assert vals[from..] == [vals[from]] + vals[from + 1..];
    }
  }

  lemma {:induction false} FirstBadArg(lib: Library, raw: seq<Json>, dst: seq<Value>, from: nat, bad: nat)
    requires |raw| == |dst| && from <= bad < |dst| && Unmarshal(lib, raw[bad], dst[bad]).None?
    requires forall i :: from <= i < bad ==> Unmarshal(lib, raw[i], dst[i]).Some?
    ensures UnmarshalAll(lib, raw, dst, from) == Err(BadArg(bad))
    decreases bad - from
  {
    if from < bad { FirstBadArg(lib, raw, dst, from + 1, bad); }
  }

  // ---- what the codec makes of each value ------------------------------------

  /** A node of a list: null is the zero node. */
  ghost predicate ReadsNode(lib: Library, j: Json, node: Node) {
    if j.Null? then node == lib.zeroNode else lib.decNode(j) == Some(node)
  }

  /** Decoding j into a variable that holds current gives v. */
  ghost predicate Reads(lib: Library, j: Json, current: Value, v: Value) {
    if current.VNodes? then
      || (j == Null && v == VNodes(None))
      || (j.Arr? && v.VNodes? && v.nodes.Some? && |v.nodes.value| == |j.items|
          && forall i :: 0 <= i < |j.items| ==> ReadsNode(lib, j.items[i], v.nodes.value[i]))
    else if j == Null then v == current
    else
      || (current.VString? && v.VString? && j == Str(v.s))
      || (current.VInt? && v.VInt? && j == Num(v.n))
      || (current.VNode? && v.VNode? && lib.decNode(j) == Some(v.node))
      || (current.VQuery? && v.VQuery? && lib.decQuery(j) == Some(v.query))
      || (current.VSubgraph? && v.VSubgraph? && lib.decSubgraph(j) == Some(v.sub))
      || (current.VPrompt? && v.VPrompt? && lib.decPrompt(j) == Some(v.prompt))
  }

  lemma {:induction false} NodesRead(lib: Library, items: seq<Json>, nodes: seq<Node>)
    ensures UnmarshalNodes(lib, items) == Some(nodes) <==>
              |nodes| == |items| && forall i :: 0 <= i < |items| ==> ReadsNode(lib, items[i], nodes[i])
  {
    if items != [] && nodes != [] {
      NodesRead(lib, items[1..], nodes[1..]);
      assert nodes == [nodes[0]] + nodes[1..];
      assert forall i :: 0 < i < |items| ==> items[i] == items[1..][i - 1];
      assert forall i :: 0 < i < |nodes| ==> nodes[i] == nodes[1..][i - 1];
      if UnmarshalNodes(lib, items) == Some(nodes) {
        var node := if items[0].Null? then lib.zeroNode else lib.decNode(items[0]).value;
        assert nodes == [node] + UnmarshalNodes(lib, items[1..]).value;
      }
    }
  }

  /** Decoding accepts exactly the JSON values of the variable's type and null, which leaves the
      variable alone or sets a slice to nil; numbers outside 64 bits are refused. */
  lemma UnmarshalMeans(lib: Library, j: Json, current: Value, v: Value)
    ensures Unmarshal(lib, j, current) == Some(v) <==> Reads(lib, j, current, v)
  {
    if current.VNodes? && j.Arr? && v.VNodes? && v.nodes.Some? { NodesRead(lib, j.items, v.nodes.value); }
  }

  lemma {:induction false} NodesRoundTrip(lib: Library, nodes: seq<Node>)
    requires RoundTrips(lib) && MarshalNodes(lib, nodes).Some?
    ensures UnmarshalNodes(lib, MarshalNodes(lib, nodes).value) == Some(nodes)
  {
    if nodes != [] {
      NodesRoundTrip(lib, nodes[1..]);
      var items := MarshalNodes(lib, nodes).value;
      assert items[0] == lib.encNode(nodes[0]).value && items[1..] == MarshalNodes(lib, nodes[1..]).value;
      assert nodes == [nodes[0]] + nodes[1..];
    }
  }

  lemma ValueRoundTrip(lib: Library, v: Value, current: Value)
    requires RoundTrips(lib) && SameType(v, current) && Marshal(lib, v).Some?
    ensures Unmarshal(lib, Marshal(lib, v).value, current) == Some(v)
  {
    if v.VNodes? && v.nodes.Some? {
      NodesRoundTrip(lib, v.nodes.value);
    }
  }

  lemma {:induction false} MarshalAllAt(lib: Library, vals: seq<Value>)
    requires MarshalAll(lib, vals).Some?
    ensures |MarshalAll(lib, vals).value| == |vals|
    ensures forall i :: 0 <= i < |vals| ==> Marshal(lib, vals[i]) == Some(MarshalAll(lib, vals).value[i])
  {
    if vals != [] { MarshalAllAt(lib, vals[1..]); }
  }

  lemma EachValueDecodes(lib: Library, vals: seq<Value>, raw: seq<Json>, dst: seq<Value>)
    requires RoundTrips(lib) && SameTypes(vals, dst) && |raw| == |vals|
    requires forall i :: 0 <= i < |vals| ==> Marshal(lib, vals[i]) == Some(raw[i])
    ensures forall i :: 0 <= i < |dst| ==> Unmarshal(lib, raw[i], dst[i]) == Some(vals[i])
  {
    forall i | 0 <= i < |dst| ensures Unmarshal(lib, raw[i], dst[i]) == Some(vals[i]) {
      ValueRoundTrip(lib, vals[i], dst[i]);
    }
  }

  /** Whatever encodeArgs encodes, decodeArgs restores into destinations of the same types. */
  lemma ArgsRoundTrip(lib: Library, vals: seq<Value>, dst: seq<Value>)
    requires RoundTrips(lib) && SameTypes(vals, dst) && EncodeArgs(lib, vals).Some?
    ensures DecodeArgs(lib, EncodeArgs(lib, vals), dst) == Ok(vals)
  {
    if vals != [] {
      MarshalAllAt(lib, vals);
      EachValueDecodes(lib, vals, MarshalAll(lib, vals).value, dst);
      AllArgsDecode(lib, MarshalAll(lib, vals).value, dst, vals, 0);
      assert vals[0..] == vals;
    }
  }

  lemma {:induction false} ElementsFailAlone(lib: Library, raw: seq<Json>, dst: seq<Value>, from: nat)
    requires |raw| == |dst| && from <= |dst|
    ensures UnmarshalAll(lib, raw, dst, from).Err? ==>
              UnmarshalAll(lib, raw, dst, from).error.BadArg? && UnmarshalAll(lib, raw, dst, from).error.index < |dst|
    decreases |dst| - from
  {
    if from < |dst| { ElementsFailAlone(lib, raw, dst, from + 1); }
  }

  /** A tuple is refused for its length exactly when it has another number of elements, whatever
      they are, and the refusal names both numbers: a short tuple never decodes with zero values
      for the missing arguments. An encoded tuple has as many elements as there were values. */
  lemma ArityMustMatch(lib: Library, data: Payload, dst: seq<Value>)
    ensures forall want, got :: DecodeArgs(lib, data, dst) == Err(ArgCount(want, got)) <==>
              RawArgs(data).Some? && |RawArgs(data).value| == got && |dst| == want && want != got
    ensures forall vals :: EncodeArgs(lib, vals).Some? ==>
              RawArgs(EncodeArgs(lib, vals)).Some? && |RawArgs(EncodeArgs(lib, vals)).value| == |vals|
  {
    if RawArgs(data).Some? && |RawArgs(data).value| == |dst| { ElementsFailAlone(lib, RawArgs(data).value, dst, 0); }
    forall vals | EncodeArgs(lib, vals).Some? && vals != []
      ensures RawArgs(EncodeArgs(lib, vals)).Some? && |RawArgs(EncodeArgs(lib, vals)).value| == |vals|
    {
      MarshalAllAt(lib, vals);
    }
  }

  lemma MarshalOne(lib: Library, a: Value)
    ensures MarshalAll(lib, [a]) == if Marshal(lib, a).Some? then Some([Marshal(lib, a).value]) else None
  {
    assert [a][1..] == [] && MarshalAll(lib, []) == Some([]);
    assert forall j: Json :: [j] + [] == [j];
  }

  lemma MarshalTwo(lib: Library, a: Value, b: Value)
    ensures Marshal(lib, a).Some? && Marshal(lib, b).Some? ==>
              MarshalAll(lib, [a, b]) == Some([Marshal(lib, a).value, Marshal(lib, b).value])
  {
    assert [a, b][1..] == [b];
    MarshalOne(lib, b);
    assert forall i: Json, j: Json :: [i] + [j] == [i, j];
  }

  lemma MarshalThree(lib: Library, a: Value, b: Value, c: Value)
    ensures Marshal(lib, a).Some? && Marshal(lib, b).Some? && Marshal(lib, c).Some? ==>
              MarshalAll(lib, [a, b, c]) == Some([Marshal(lib, a).value, Marshal(lib, b).value, Marshal(lib, c).value])
  {
    assert [a, b, c][1..] == [b, c];
    MarshalTwo(lib, b, c);
    assert forall h: Json, i: Json, j: Json :: [h] + [i, j] == [h, i, j];
  }

  /** The payload is a tuple of as many elements as there are variables, and each element decodes
      into its variable: zeros are the variables before, vals after. */
  ghost predicate IsTuple(lib: Library, data: Payload, zeros: seq<Value>, vals: seq<Value>) {
    && RawArgs(data).Some? && |RawArgs(data).value| == |zeros| == |vals|
    && forall i :: 0 <= i < |zeros| ==> Reads(lib, RawArgs(data).value[i], zeros[i], vals[i])
  }

  lemma HeadsAndTails(a: Value, s: seq<Value>, b: Value, t: seq<Value>)
    ensures [a] + s == [b] + t <==> a == b && s == t
  {
    assert ([a] + s)[0] == a && ([a] + s)[1..] == s && ([b] + t)[0] == b && ([b] + t)[1..] == t;
  }

  lemma {:induction false} UnmarshalAllMeans(lib: Library, raw: seq<Json>, dst: seq<Value>, vals: seq<Value>, from: nat)
    requires |raw| == |dst| == |vals| && from <= |dst|
    ensures UnmarshalAll(lib, raw, dst, from) == Ok(vals[from..]) <==>
              forall i :: from <= i < |dst| ==> Reads(lib, raw[i], dst[i], vals[i])
    decreases |dst| - from
  {
    if from < |dst| {
      UnmarshalAllMeans(lib, raw, dst, vals, from + 1);
      UnmarshalMeans(lib, raw[from], dst[from], vals[from]);
      var first, rest := Unmarshal(lib, raw[from], dst[from]), UnmarshalAll(lib, raw, dst, from + 1);
      assert vals[from..] == [vals[from]] + vals[from + 1..];
      if first.Some? && rest.Ok? { HeadsAndTails(first.value, rest.value, vals[from], vals[from + 1..]); }
    } else {
      assert vals[from..] == [];
    }
  }

  /** decodeArgs succeeds with exactly the values that the elements hold. */
  lemma DecodeArgsMeans(lib: Library, data: Payload, dst: seq<Value>, vals: seq<Value>)
    ensures DecodeArgs(lib, data, dst) == Ok(vals) <==> IsTuple(lib, data, dst, vals)
  {
    if RawArgs(data).Some? && |RawArgs(data).value| == |dst| {
      if |vals| == |dst| {
        UnmarshalAllMeans(lib, RawArgs(data).value, dst, vals, 0);
        assert vals[0..] == vals;
      } else {
        assert DecodeArgs(lib, data, dst).Ok? ==> |DecodeArgs(lib, data, dst).value| == |dst|;
      }
    }
  }
}
