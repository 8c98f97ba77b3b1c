/** Frames of the backend stream and their JSON form (backend_stream.go:25-37, 190-214). */
module BackendFrame {
  import opened Common
  import opened Contracts
  import opened WireError

  /** backendFrame; a nil Event pointer is None. */
  datatype Frame = Frame(event: Option<BackendEvent>, done: bool, reply: string, error: string)

  function EventFrame(e: BackendEvent): Frame { Frame(Some(e), false, "", "") }

  /** What real.Respond returns: a reply and the text of its error, None for a nil error. */
  datatype Answer = Answer(reply: string, error: Option<string>)

  function ErrString(error: Option<string>): string {
    if error.Some? then error.value else ""
  }

  function DoneFrame(a: Answer): Frame { Frame(None, true, a.reply, ErrString(a.error)) }

  /** Every field is omitempty. Only the event can fail to encode. */
  function MarshalFrame(lib: Library, f: Frame): Option<Json> {
    if f.event.Some? && lib.encEvent(f.event.value).None? then None
    else Some(Obj(
      (if f.event.Some? then map["event" := lib.encEvent(f.event.value).value] else map[])
      + (if f.done then map["done" := Bool(true)] else map[])
      + (if f.reply != "" then map["reply" := Str(f.reply)] else map[])
      + (if f.error != "" then map["error" := Str(f.error)] else map[])))
  }

  /** A bool field: absent and null both leave it false; None is a type error. */
  function BoolField(fields: map<string, Json>, name: string): Option<bool> {
    if name !in fields || fields[name].Null? then Some(false)
    else if fields[name].Bool? then Some(fields[name].b)
    else None
  }

  /** A pointer field: absent and null both leave it nil; the outer None is a type error. */
  function EventField(lib: Library, fields: map<string, Json>): Option<Option<BackendEvent>> {
    if "event" !in fields || fields["event"].Null? then Some(None)
    else
      var e := lib.decEvent(fields["event"]);
      if e.Some? then Some(e) else None
  }

  function UnmarshalFrame(lib: Library, p: Payload): Option<Frame> {
    match p
    case Some(Null) => Some(Frame(None, false, "", ""))
    case Some(Obj(fields)) =>
      var event, done := EventField(lib, fields), BoolField(fields, "done");
      var reply, error := StringField(fields, "reply"), StringField(fields, "error");
      if event.None? || done.None? || reply.None? || error.None? then None
      else Some(Frame(event.value, done.value, reply.value, error.value))
    case _ => None
  }

  function Fields(lib: Library, f: Frame): map<string, Json>
    requires MarshalFrame(lib, f).Some?
  {
    MarshalFrame(lib, f).value.fields
  }

  lemma TextFieldsRead(lib: Library, f: Frame)
    requires MarshalFrame(lib, f).Some?
    ensures StringField(Fields(lib, f), "reply") == Some(f.reply)
    ensures StringField(Fields(lib, f), "error") == Some(f.error)
  {}

  lemma EventAndDoneRead(lib: Library, f: Frame)
    requires RoundTrips(lib) && MarshalFrame(lib, f).Some?
    ensures EventField(lib, Fields(lib, f)) == Some(f.event) && BoolField(Fields(lib, f), "done") == Some(f.done)
  {}

  lemma FrameRoundTrip(lib: Library, f: Frame)
    requires RoundTrips(lib) && MarshalFrame(lib, f).Some?
    ensures UnmarshalFrame(lib, MarshalFrame(lib, f)) == Some(f)
  {
    TextFieldsRead(lib, f);
    EventAndDoneRead(lib, f);
    assert MarshalFrame(lib, f) == Some(Obj(Fields(lib, f)));
  }

  /** The fields of a Done frame: the reply and the error are left out when they are empty. */
  ghost predicate IsDoneObject(fields: map<string, Json>, a: Answer) {
    && fields.Keys == {"done"} + (if a.reply != "" then {"reply"} else {})
                      + (if ErrString(a.error) != "" then {"error"} else {})
    && fields["done"] == Bool(true)
    && (a.reply != "" ==> fields["reply"] == Str(a.reply))
    && (ErrString(a.error) != "" ==> fields["error"] == Str(ErrString(a.error)))
  }

  /** The frames that travel, field by field. */
  lemma FramesOnTheWire(lib: Library, e: BackendEvent, a: Answer)
    ensures MarshalFrame(lib, EventFrame(e)).None? <==> lib.encEvent(e).None?
    ensures lib.encEvent(e).Some? ==>
        MarshalFrame(lib, EventFrame(e)) == Some(Obj(map["event" := lib.encEvent(e).value]))
    ensures MarshalFrame(lib, DoneFrame(a)).Some? && MarshalFrame(lib, DoneFrame(a)).value.Obj?
    ensures IsDoneObject(MarshalFrame(lib, DoneFrame(a)).value.fields, a)
  {
    if lib.encEvent(e).Some? {
      assert MarshalFrame(lib, EventFrame(e)).value.fields == map["event" := lib.encEvent(e).value];
    }
  }

  /** A text field that holds s; an absent field and null hold the empty text. */
  ghost predicate HoldsText(fields: map<string, Json>, name: string, s: string) {
    if name in fields && fields[name] != Null then fields[name] == Str(s) else s == ""
  }

  /** The payload decodes to f. */
  ghost predicate ReadsFrame(lib: Library, p: Payload, f: Frame) {
    || (p == Some(Null) && f == Frame(None, false, "", ""))
    || (p.Some? && p.value.Obj?
        && var fields := p.value.fields;
           && (if "event" in fields && fields["event"] != Null
               then f.event.Some? && lib.decEvent(fields["event"]) == f.event
               else f.event.None?)
           && (if "done" in fields && fields["done"] != Null then fields["done"] == Bool(f.done) else !f.done)
           && HoldsText(fields, "reply", f.reply) && HoldsText(fields, "error", f.error))
  }

  lemma UnmarshalFrameMeans(lib: Library, p: Payload, f: Frame)
    ensures UnmarshalFrame(lib, p) == Some(f) <==> ReadsFrame(lib, p, f)
  {}

  /** The errors BackendProxy.Respond returns. */
  datatype ClientError =
    | EncodePrompt
    | OpenFailed
    | UnexpectedEOF
    | StreamBroken
    | BadFrame
    | InvalidFrame
    | RemoteFailure(message: string)

  /** frameOutcome, with the event handed to the hook: a frame is replayed or ends the turn. */
  datatype Outcome = Replay(event: BackendEvent) | Terminal(reply: string, error: Option<ClientError>)

  function ApplyFrame(lib: Library, p: Payload): Outcome {
    match UnmarshalFrame(lib, p)
    case None => Terminal("", Some(BadFrame))
    case Some(f) =>
      if f.event.Some? then Replay(f.event.value)
      else if !f.done then Terminal("", Some(InvalidFrame))
      else if f.error != "" then Terminal(f.reply, Some(RemoteFailure(f.error)))
      else Terminal(f.reply, None)
  }

  /** How RecvMsg fails: at the regular end of the stream, or otherwise. */
  datatype ReceiveFault = EOF | Broken

  function ReceiveFailure(fault: ReceiveFault): ClientError {
    if fault.EOF? then UnexpectedEOF else StreamBroken
  }

  lemma EventApplies(lib: Library, e: BackendEvent)
    requires RoundTrips(lib) && MarshalFrame(lib, EventFrame(e)).Some?
    ensures ApplyFrame(lib, MarshalFrame(lib, EventFrame(e))) == Replay(e)
  {
    FrameRoundTrip(lib, EventFrame(e));
  }

  /** The Done frame always encodes, and ends the turn without an error exactly when the
      backend's error is nil or has no text. */
  lemma DoneApplies(lib: Library, a: Answer)
    requires RoundTrips(lib)
    ensures MarshalFrame(lib, DoneFrame(a)).Some?
    ensures ApplyFrame(lib, MarshalFrame(lib, DoneFrame(a))) ==
              Terminal(a.reply, if ErrString(a.error) == "" then None else Some(RemoteFailure(a.error.value)))
  {
    FrameRoundTrip(lib, DoneFrame(a));
  }

  // ---- the client loop -------------------------------------------------------

  /** The frame at p is an event. */
  predicate IsEvent(lib: Library, p: Payload) {
    UnmarshalFrame(lib, p).Some? && UnmarshalFrame(lib, p).value.event.Some?
  }

  /** How a frame that is no event ends the turn. */
  ghost predicate EndsTurn(lib: Library, p: Payload, reply: string, error: Option<ClientError>) {
    match UnmarshalFrame(lib, p)
    case None => reply == "" && error == Some(BadFrame)
    case Some(f) =>
      && f.event.None?
      && (if !f.done then reply == "" && error == Some(InvalidFrame)
          else reply == f.reply && error == if f.error == "" then None else Some(RemoteFailure(f.error)))
  }

  lemma ApplyFrameMeans(lib: Library, p: Payload)
    ensures IsEvent(lib, p) ==> ApplyFrame(lib, p) == Replay(UnmarshalFrame(lib, p).value.event.value)
    ensures !IsEvent(lib, p) ==>
              ApplyFrame(lib, p).Terminal? && EndsTurn(lib, p, ApplyFrame(lib, p).reply, ApplyFrame(lib, p).error)
  {}

  /** The events of frames that all hold one. */
  function EventsOf(lib: Library, frames: seq<Payload>): (events: seq<BackendEvent>)
    requires forall i :: 0 <= i < |frames| ==> IsEvent(lib, frames[i])
    ensures |events| == |frames|
    ensures forall i :: 0 <= i < |frames| ==>
              IsEvent(lib, frames[i]) && UnmarshalFrame(lib, frames[i]).value.event == Some(events[i])
  {
    seq(|frames|, i requires 0 <= i < |frames| && IsEvent(lib, frames[i]) =>
                    UnmarshalFrame(lib, frames[i]).value.event.value)
  }

  /** The loop of BackendProxy.Respond over a stream that yields incoming and then fails.
      Every event before the first other frame goes to the hook, in order. That frame decides
      the result: a nil error only for a Done frame without an error, and with its reply; an
      invalid frame for one that is neither an event nor Done; a bad one for what does not
      decode. Without such a frame the failure of the stream decides, and its regular end is an
      unexpected one. */
  method ReceiveLoop(lib: Library, incoming: seq<Payload>, fault: ReceiveFault, hook: bool)
    returns (reply: string, error: Option<ClientError>, replayed: seq<BackendEvent>, stop: nat)
    ensures stop <= |incoming|
    ensures forall i :: 0 <= i < stop ==> IsEvent(lib, incoming[i])
    ensures replayed == if hook then EventsOf(lib, incoming[..stop]) else []
    ensures stop < |incoming| ==> EndsTurn(lib, incoming[stop], reply, error)
    ensures stop == |incoming| ==> reply == "" && error == Some(if fault.EOF? then UnexpectedEOF else StreamBroken)
  {
    replayed, stop := [], 0;
    while stop < |incoming|
      invariant stop <= |incoming|
      invariant forall i :: 0 <= i < stop ==> IsEvent(lib, incoming[i])
      invariant replayed == if hook then EventsOf(lib, incoming[..stop]) else []
    {
      ApplyFrameMeans(lib, incoming[stop]);
      match ApplyFrame(lib, incoming[stop])
      case Terminal(text, outcome) =>
        return text, outcome, replayed, stop;
      case Replay(event) =>
        assert EventsOf(lib, incoming[..stop + 1]) == EventsOf(lib, incoming[..stop]) + [event];
        if hook { replayed := replayed + [event]; }
        stop := stop + 1;
    }
    return "", Some(ReceiveFailure(fault)), replayed, stop;
  }
}
