/** Errors and how they cross the wire: errors.go, wire_error.go. */
module WireError {
  import opened Common
  import opened Contracts
  import opened Codec

  /** A non-nil Go error. Wrap and Join are the errors that Unwrap to one error and to
      several; their text is their own. Remote is *remoteError. */
  datatype Error =
    | Leaf(text: string)
    | BudgetErr(budget: Budget)
    | Wrap(text: string, inner: Error)
    | Join(text: string, parts: seq<Error>)
    | Remote(message: string)
    | UnknownPortError(port: string)
    | UnknownMethodError(service: string, name: string)
    | ArgCountError(want: nat, got: nat)

  const MARSHAL_ERROR: Error := Leaf("json: unsupported value")

  /** The Error method. */
  function Text(lib: Library, e: Error): string {
    match e
    case Leaf(text) => text
    case BudgetErr(budget) => lib.budgetText(budget)
    case Wrap(text, _) => text
    case Join(text, _) => text
    case Remote(message) => message
    case UnknownPortError(port) => "transport: unknown port \"" + port + "\""
    case UnknownMethodError(service, name) => "transport: unknown method " + service + "." + name
    case ArgCountError(want, got) => "transport: expected " + Decimal(want) + " args, got " + Decimal(got)
  }

  /** The error that decodeArgs returns. */
  function ArgsFailure(e: ArgsError): Error {
    match e
    case NotATuple => Wrap("transport: decode args: not an array", Leaf("json: not an array"))
    case ArgCount(want, got) => ArgCountError(want, got)
    case BadArg(index) => Wrap("transport: decode arg " + Decimal(index) + ": bad value", Leaf("json: bad value"))
  }

  /** errors.As for *BudgetError: the error itself, then what it unwraps to, depth first. */
  function FindBudget(e: Error): Option<Budget> {
    match e
    case BudgetErr(budget) => Some(budget)
    case Wrap(_, inner) => FindBudget(inner)
    case Join(_, parts) => FindBudgetIn(parts)
    case _ => None
  }

  function FindBudgetIn(parts: seq<Error>): Option<Budget> {
    if parts == [] then None
    else if FindBudget(parts[0]).Some? then FindBudget(parts[0])
    else FindBudgetIn(parts[1..])
  }

  function EncodeWireError(lib: Library, e: Error): Payload {
    match FindBudget(e)
    case None => None
    case Some(budget) =>
      match lib.encBudget(budget)
      case None => None
      case Some(data) => Some(Obj(map["kind" := Str("budget"), "data" := data]))
  }

  /** A struct field of type string: absent and null both leave it empty; None is a type error. */
  function StringField(fields: map<string, Json>, name: string): Option<string> {
    if name !in fields || fields[name].Null? then Some("")
    else if fields[name].Str? then Some(fields[name].s)
    else None
  }

  function DecodeWireError(lib: Library, payload: Payload, message: string): Error {
    match payload
    case Some(Obj(fields)) =>
      if StringField(fields, "kind") == Some("budget") && "data" in fields && lib.decBudget(fields["data"]).Some?
      then BudgetErr(lib.decBudget(fields["data"]).value)
      else Remote(message)
    case _ => Remote(message)
  }

  // ---- errors.As is a search of the whole tree -------------------------------

  /** Every error of the tree, each before what it unwraps to. */
  ghost function Preorder(e: Error): seq<Error> {
    match e
    case Wrap(_, inner) => [e] + Preorder(inner)
    case Join(_, parts) => [e] + PreorderAll(parts)
    case _ => [e]
  }

  ghost function PreorderAll(parts: seq<Error>): seq<Error> {
    if parts == [] then [] else Preorder(parts[0]) + PreorderAll(parts[1..])
  }

  /** found is the budget of the first budget error of a list, or None without one. */
  ghost predicate IsFirstBudget(list: seq<Error>, found: Option<Budget>) {
    match found
    case None => forall i :: 0 <= i < |list| ==> !list[i].BudgetErr?
    case Some(budget) =>
      exists i :: 0 <= i < |list| && list[i] == BudgetErr(budget) && forall k :: 0 <= k < i ==> !list[k].BudgetErr?
  }

  lemma FirstBudgetAfter(front: seq<Error>, back: seq<Error>, found: Option<Budget>)
    requires IsFirstBudget(front, None) && IsFirstBudget(back, found)
    ensures IsFirstBudget(front + back, found)
  {
    var list := front + back;
    if found.Some? {
      var i :| 0 <= i < |back| && back[i] == BudgetErr(found.value) && forall k :: 0 <= k < i ==> !back[k].BudgetErr?;
      assert list[|front| + i] == BudgetErr(found.value);
    }
  }

  lemma FirstBudgetBefore(front: seq<Error>, back: seq<Error>, found: Option<Budget>)
    requires IsFirstBudget(front, found) && found.Some?
    ensures IsFirstBudget(front + back, found)
  {
    var list := front + back;
    var i :| 0 <= i < |front| && front[i] == BudgetErr(found.value) && forall k :: 0 <= k < i ==> !front[k].BudgetErr?;
    assert list[i] == BudgetErr(found.value);
  }

  /** The recursion returns the first budget error in pre-order, and None only if there is none. */
  lemma {:induction false} FindBudgetIsFirst(e: Error)
    ensures IsFirstBudget(Preorder(e), FindBudget(e))
    decreases e, 1
  {
    match e
    case Wrap(_, inner) =>
      FindBudgetIsFirst(inner);
      FirstBudgetAfter([e], Preorder(inner), FindBudget(inner));
    case Join(_, parts) =>
      FindBudgetInIsFirst(parts);
      FirstBudgetAfter([e], PreorderAll(parts), FindBudgetIn(parts));
    case BudgetErr(budget) => assert [e][0] == BudgetErr(budget);
    case _ =>
  }

  lemma {:induction false} FindBudgetInIsFirst(parts: seq<Error>)
    ensures IsFirstBudget(PreorderAll(parts), FindBudgetIn(parts))
    decreases parts, 0
  {
    if parts != [] {
      var first := FindBudget(parts[0]);
      FindBudgetIsFirst(parts[0]);
      if first.Some? {
        FirstBudgetBefore(Preorder(parts[0]), PreorderAll(parts[1..]), first);
      } else {
        FindBudgetInIsFirst(parts[1..]);
        FirstBudgetAfter(Preorder(parts[0]), PreorderAll(parts[1..]), FindBudgetIn(parts[1..]));
      }
    }
  }

  // ---- one hop and many ------------------------------------------------------

  /** What an error is after it has crossed the wire. */
  function WireImage(lib: Library, e: Error): Error {
    match FindBudget(e)
    case Some(budget) => if lib.encBudget(budget).Some? then BudgetErr(budget) else Remote(Text(lib, e))
    case None => Remote(Text(lib, e))
  }

  /** The error a caller without a result sees when the far side fails with e: the
      envelope of fail read back by call. None is success. */
  function Hop(lib: Library, e: Error): Option<Error> {
    if Text(lib, e) != "" then Some(DecodeWireError(lib, EncodeWireError(lib, e), Text(lib, e))) else None
  }

  lemma WireErrorRoundTrip(lib: Library, e: Error)
    requires RoundTrips(lib)
    ensures DecodeWireError(lib, EncodeWireError(lib, e), Text(lib, e)) == WireImage(lib, e)
  {
    var budget := FindBudget(e);
    if budget.Some? && lib.encBudget(budget.value).Some? {
      var fields: map<string, Json> := map["kind" := Str("budget"), "data" := lib.encBudget(budget.value).value];
      assert EncodeWireError(lib, e) == Some(Obj(fields));
      assert StringField(fields, "kind") == Some("budget");
    }
  }

  /** An error arrives exactly when its text is not empty; it then arrives as its first
      budget error in pre-order, or, without one that has an encoding, as a remote error with
      its text. */
  lemma ErrorCrossesWire(lib: Library, e: Error)
    requires RoundTrips(lib)
    ensures Hop(lib, e).Some? <==> Text(lib, e) != ""
    ensures Text(lib, e) != "" ==> Hop(lib, e) == Some(WireImage(lib, e))
    ensures IsFirstBudget(Preorder(e), FindBudget(e))
    ensures forall b :: Text(lib, e) != "" && FindBudget(e) == Some(b) && lib.encBudget(b).Some? ==>
        Hop(lib, e) == Some(BudgetErr(b))
    ensures Text(lib, e) != "" && (forall b :: FindBudget(e) == Some(b) ==> lib.encBudget(b).None?) ==>
              Hop(lib, e) == Some(Remote(Text(lib, e)))
  {
    WireErrorRoundTrip(lib, e);
    FindBudgetIsFirst(e);
  }

  /** The payload is that of a budget error: an object of kind budget whose data decodes. */
  ghost predicate CarriesBudget(lib: Library, payload: Payload, b: Budget) {
    && payload.Some? && payload.value.Obj? && "data" in payload.value.fields
    && "kind" in payload.value.fields && payload.value.fields["kind"] == Str("budget")
    && lib.decBudget(payload.value.fields["data"]) == Some(b)
  }

  /** Whatever payload arrives with an error: the caller gets a budget error if it carries one,
      and otherwise the remote text. The sender writes the kind and the data and nothing else. */
  lemma WireErrorsMean(lib: Library, payload: Payload, message: string, e: Error)
    ensures forall b :: DecodeWireError(lib, payload, message) == BudgetErr(b) <==> CarriesBudget(lib, payload, b)
    ensures (forall b :: !CarriesBudget(lib, payload, b)) <==> DecodeWireError(lib, payload, message) == Remote(message)
    ensures EncodeWireError(lib, e) == None ||
            exists b :: FindBudget(e) == Some(b) && lib.encBudget(b).Some?
                   && EncodeWireError(lib, e)
                      == Some(Obj(map["kind" := Str("budget"), "data" := lib.encBudget(b).value]))
    ensures EncodeWireError(lib, e) == None <==> forall b :: FindBudget(e) == Some(b) ==> lib.encBudget(b).None?
  {
    match payload
    case Some(Obj(fields)) =>
      if "kind" in fields && fields["kind"] == Str("budget")
         && "data" in fields && lib.decBudget(fields["data"]).Some? {
        assert CarriesBudget(lib, payload, lib.decBudget(fields["data"]).value);
      }
    case _ =>
  }

  /** n relays in a row: each serves the error it received from the previous one. */
  function Relayed(lib: Library, e: Option<Error>, hops: nat): Option<Error>
    decreases hops
  {
    if hops == 0 || e.None? then e else Relayed(lib, Hop(lib, e.value), hops - 1)
  }

  lemma {:induction false} ImageIsStable(lib: Library, e: Error, hops: nat)
    requires RoundTrips(lib) && WireImage(lib, e) == e && Text(lib, e) != ""
    ensures Relayed(lib, Some(e), hops) == Some(e)
    decreases hops
  {
    if hops > 0 {
      ErrorCrossesWire(lib, e);
      ImageIsStable(lib, e, hops - 1);
    }
  }

  /** Any number of relays after the first changes nothing, if and only if what travels
      is not a budget error without a text of its own. Such an error becomes success. */
  lemma RelaysAreTransparent(lib: Library, e: Error, hops: nat)
    requires RoundTrips(lib) && hops >= 2
    ensures Relayed(lib, Some(e), hops) == Hop(lib, e) <==>
              (Text(lib, e) == "" || Text(lib, WireImage(lib, e)) != "")
    ensures Text(lib, e) != "" && Text(lib, WireImage(lib, e)) == "" ==>
              WireImage(lib, e).BudgetErr? && Relayed(lib, Some(e), hops) == None
  {
    ErrorCrossesWire(lib, e);
    if Text(lib, e) != "" {
      var image := WireImage(lib, e);
      assert Relayed(lib, Some(e), hops) == Relayed(lib, Some(image), hops - 1);
      if Text(lib, image) != "" {
        ImageIsStable(lib, image, hops - 1);
      } else {
        assert Relayed(lib, Some(image), hops - 1) == Relayed(lib, None, hops - 2);
      }
    }
  }
}
