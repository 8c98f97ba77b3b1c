/** The registry of announced plugins behind an untrusted bus: remote_registry.go and the
    subscription of announce.go. */
module Registry {
  import opened Common
  import opened Announce
  import opened HostPort

  datatype RemoteEntry = RemoteEntry(manifest: Manifest, grpcAddr: string, instanceID: string)

  function Entry(a: Announcement): RemoteEntry { RemoteEntry(a.manifest, a.grpcAddr, a.instanceID) }

  /** The address gate; None is no gate, or a nil one. */
  type Gate = Option<string -> bool>

  /** The announcement names an instance, a category and a host:port address. */
  predicate Usable(a: Announcement) {
    && a.instanceID != "" && a.manifest.category != ""
    && var address := SplitHostPort(a.grpcAddr);
       address.Some? && address.value.host != "" && address.value.port != ""
  }

  /** addr joins a host and a port, neither of them empty. */
  ghost predicate NamesHostAndPort(addr: string) {
    exists p: Address :: Joins(addr, p) && p.host != "" && p.port != ""
  }

  lemma UsableMeans(a: Announcement)
    ensures Usable(a) <==> a.instanceID != "" && a.manifest.category != "" && NamesHostAndPort(a.grpcAddr)
  {
    if SplitHostPort(a.grpcAddr).Some? { SplitIffJoins(a.grpcAddr, SplitHostPort(a.grpcAddr).value); }
    if p: Address :| Joins(a.grpcAddr, p) && p.host != "" && p.port != "" { SplitIffJoins(a.grpcAddr, p); }
  }

  predicate Admits(gate: Gate, addr: string) { gate.Some? && gate.value(addr) }

  function Record(entries: map<string, RemoteEntry>, gate: Gate, a: Announcement)
    : (map<string, RemoteEntry>, Option<AnnounceError>)
  {
    if !Usable(a) then (entries, Some(Unusable))
    else if !Admits(gate, a.grpcAddr) then (entries, Some(AddrRefused))
    else (entries[a.instanceID := Entry(a)], None)
  }

  /** One delivered message: the entries after it and what onRejected is told. */
  function HandleMessage(lib: Library, key: AnnounceKey, gate: Gate, entries: map<string, RemoteEntry>,
                         payload: Bytes, now: int)
    : (map<string, RemoteEntry>, Option<AnnounceError>)
  {
    match Open(lib, key, payload, now)
    case Err(e) => (entries, Some(e))
    case Ok(a) => Record(entries, gate, a)
  }

  datatype WatchError = NilHook | NoKey

  class RemoteRegistry {
    var entries: map<string, RemoteEntry>
    var allow: Gate

    ghost predicate Valid()
      reads this
    {
      forall id :: id in entries ==> entries[id].instanceID == id
    }

    /** Each option is one WithAddrAllow; the last one wins. */
    constructor (options: seq<Gate>)
      ensures Valid() && entries == map[]
      ensures allow == if options == [] then None else options[|options| - 1]
    {
      entries, allow := map[], None;
      new;
      for i := 0 to |options|
        invariant Valid() && entries == map[]
        invariant allow == if i == 0 then None else options[i - 1]
      {
        allow := options[i];
      }
    }

    method Observe(a: Announcement) returns (error: Option<AnnounceError>)
      requires Valid()
      modifies this`entries
      ensures Valid() && (entries, error) == Record(old(entries), allow, a)
      ensures error == Some(Unusable) <==>
                a.instanceID == "" || a.manifest.category == "" || !NamesHostAndPort(a.grpcAddr)
      ensures error == Some(AddrRefused) <==>
                && a.instanceID != "" && a.manifest.category != "" && NamesHostAndPort(a.grpcAddr)
                && (allow.None? || !allow.value(a.grpcAddr))
      ensures error.None? ==> entries == old(entries)[a.instanceID := RemoteEntry(a.manifest, a.grpcAddr, a.instanceID)]
      ensures error.Some? ==> entries == old(entries) && (error.value.Unusable? || error.value.AddrRefused?)
    {
      UsableMeans(a);
      if a.instanceID == "" || a.manifest.category == "" { return Some(Unusable); }
      var address := SplitHostPort(a.grpcAddr);
      if address.None? || address.value.host == "" || address.value.port == "" { return Some(Unusable); }
      if allow.None? || !allow.value(a.grpcAddr) { return Some(AddrRefused); }
      entries := entries[a.instanceID := Entry(a)];
      return None;
    }

    /** The checks of Watch before it subscribes. */
    method Watch(key: AnnounceKey, hook: bool) returns (error: Option<WatchError>)
      ensures error.None? <==> hook && key.material.Some?
      ensures error == Some(NoKey) <==> hook && key.material.None?
    {
      if !hook { return Some(NilHook); }
      if key.material.None? { return Some(NoKey); }
      return None;
    }

    /** The per-message handler; report is the one call of onRejected, if any. */
    method Handle(lib: Library, key: AnnounceKey, payload: Bytes, now: int) returns (report: Option<AnnounceError>)
      requires Valid()
      modifies this`entries
      ensures Valid() && (entries, report) == HandleMessage(lib, key, allow, old(entries), payload, now)
    {
      var opening := Open(lib, key, payload, now);
      if opening.Err? { return Some(opening.error); }
      report := Observe(opening.value);
    }

    /** Exactly the entries of the category, each once, in the order the map yields its ids. */
    method ByCategory(category: Category) returns (out: seq<RemoteEntry>)
      requires Valid()
      ensures forall e :: e in out <==> e in entries.Values && e.manifest.category == category
      ensures forall i, j :: 0 <= i < j < |out| ==> out[i].instanceID != out[j].instanceID
    {
      out := [];
      var left := entries.Keys;
      while left != {}
        invariant left <= entries.Keys
        invariant forall e :: e in out <==>
            e.instanceID in entries.Keys - left && entries[e.instanceID] == e && e.manifest.category == category
        invariant forall i, j :: 0 <= i < j < |out| ==> out[i].instanceID != out[j].instanceID
        decreases left
      {
        var id :| id in left;
        var entry := entries[id];
        assert forall i :: 0 <= i < |out| ==> out[i] in out;
        if entry.manifest.category == category { out := out + [entry]; }
        left := left - {id};
      }
    }

    method Memories() returns (out: seq<RemoteEntry>)
      requires Valid()
      ensures forall e :: e in out <==> e in entries.Values && e.manifest.category == MEMORY
      ensures forall i, j :: 0 <= i < j < |out| ==> out[i].instanceID != out[j].instanceID
    { out := ByCategory(MEMORY); }

    method Orchestrators() returns (out: seq<RemoteEntry>)
      requires Valid()
      ensures forall e :: e in out <==> e in entries.Values && e.manifest.category == ORCHESTRATOR
      ensures forall i, j :: 0 <= i < j < |out| ==> out[i].instanceID != out[j].instanceID
    { out := ByCategory(ORCHESTRATOR); }

    method Backends() returns (out: seq<RemoteEntry>)
      requires Valid()
      ensures forall e :: e in out <==> e in entries.Values && e.manifest.category == BACKEND
      ensures forall i, j :: 0 <= i < j < |out| ==> out[i].instanceID != out[j].instanceID
    { out := ByCategory(BACKEND); }
  }

  // ---- runs of the bus -------------------------------------------------------

  /** A watched registry: the shared key and the gate. */
  datatype Setting = Setting(lib: Library, key: Bytes, gate: Gate)

  /** An announcement that a holder of the key sealed, when, and with which body. */
  datatype Sealed = Sealed(ann: Announcement, at: int, body: Bytes)

  /** A message that was recorded, and the receiver's clock then. */
  datatype Recorded = Recorded(entry: RemoteEntry, now: int)

  datatype State = State(
    entries: map<string, RemoteEntry>,
    // history
    sealed: seq<Sealed>,
    recorded: seq<Recorded>,
    rejected: seq<AnnounceError>,   // the calls of onRejected
    delivered: nat)

  const START := State(map[], [], [], [], 0)

  datatype Label = SealOne(ann: Announcement, at: int) | Deliver(payload: Bytes, now: int)

  /** HMAC taken as ideal (section 2 of RFC 2104): a tag verifies under the key only for
      bytes that a holder of the key has authenticated before. */
  ghost predicate Unforged(st: Setting, sealed: seq<Sealed>, payload: Bytes) {
    var e := st.lib.strictEnvelope(payload);
    e.Some? && Authentic(st.lib, st.key, e.value) ==>
      exists i :: 0 <= i < |sealed| && MessageOf(sealed[i]) == DecimalBytes(e.value.issuedAt) + [10] + e.value.body
  }

  /** The bytes that a holder of the key authenticated. */
  function MessageOf(s: Sealed): Bytes {
    DecimalBytes(Wrap64(s.at)) + [10] + s.body
  }

  /** Holders of the key seal announcements of their choice; the bus delivers any bytes, in
      any order and any number of times, short of forging a tag. */
  ghost function Step(st: Setting, s: State, l: Label): Option<State> {
    match l
    case SealOne(ann, at) =>
      if st.lib.marshal(ann).None? then None
      else Some(s.(sealed := s.sealed + [Sealed(ann, at, st.lib.marshal(ann).value)]))
    case Deliver(payload, now) =>
      if !Unforged(st, s.sealed, payload) then None
      else Some(Receive(st, s, payload, now))
  }

  ghost function Receive(st: Setting, s: State, payload: Bytes, now: int): State {
    var (entries, report) := HandleMessage(st.lib, AnnounceKey(Some(st.key)), st.gate, s.entries, payload, now);
    var s' := s.(entries := entries, delivered := s.delivered + 1);
    var opening := Open(st.lib, AnnounceKey(Some(st.key)), payload, now);
    if report.Some? then s'.(rejected := s.rejected + [report.value])
    else s'.(recorded := s.recorded + [Recorded(Entry(opening.value), now)])
  }

  ghost predicate IsRun(st: Setting, states: seq<State>, labels: seq<Label>) {
    && |states| == |labels| + 1 && states[0] == START
    && forall k :: 0 <= k < |labels| ==> Step(st, states[k], labels[k]) == Some(states[k + 1])
  }

  /** The entry holds what the announcement says, field by field. */
  predicate IsEntryOf(entry: RemoteEntry, ann: Announcement) {
    entry.manifest == ann.manifest && entry.grpcAddr == ann.grpcAddr && entry.instanceID == ann.instanceID
  }

  /** It names an instance, a category, a host and a port, and the gate admits its address. */
  ghost predicate Acceptable(st: Setting, entry: RemoteEntry) {
    && entry.instanceID != "" && entry.manifest.category != "" && NamesHostAndPort(entry.grpcAddr)
    && st.gate.Some? && st.gate.value(entry.grpcAddr)
  }

  /** The recorded message r is sealing s: same announcement, fresh when it was accepted,
      usable, and let through the gate. */
  ghost predicate ComesFrom(st: Setting, r: Recorded, s: Sealed) {
    && IsEntryOf(r.entry, s.ann) && Acceptable(st, r.entry)
    && Distance(r.now, Wrap64(s.at)) <= WINDOW
  }

  ghost predicate HasSource(st: Setting, r: Recorded, sealed: seq<Sealed>) {
    exists i :: 0 <= i < |sealed| && ComesFrom(st, r, sealed[i])
  }

  /** Last writer wins, by instance id. */
  function LastWrites(recorded: seq<Recorded>): map<string, RemoteEntry> {
    if recorded == [] then map[]
    else
      var last := recorded[|recorded| - 1].entry;
      LastWrites(recorded[..|recorded| - 1])[last.instanceID := last]
  }

  ghost predicate Inv(st: Setting, s: State) {
    && (forall i :: 0 <= i < |s.sealed| ==> st.lib.marshal(s.sealed[i].ann) == Some(s.sealed[i].body))
    && (forall k :: 0 <= k < |s.recorded| ==> HasSource(st, s.recorded[k], s.sealed))
    && s.entries == LastWrites(s.recorded)
    && |s.recorded| + |s.rejected| == s.delivered
  }

  /** A verified envelope was authenticated at one of the sealings. */
  lemma VerifiedIsSealed(st: Setting, sealed: seq<Sealed>, payload: Bytes) returns (i: nat)
    requires Unforged(st, sealed, payload)
    requires st.lib.strictEnvelope(payload).Some? && Verifies(st.lib, st.key, st.lib.strictEnvelope(payload).value)
    ensures var e := st.lib.strictEnvelope(payload).value;
            i < |sealed| && Wrap64(sealed[i].at) == e.issuedAt && sealed[i].body == e.body
  {
    var e := st.lib.strictEnvelope(payload).value;
    i :| 0 <= i < |sealed| && MessageOf(sealed[i]) == DecimalBytes(e.issuedAt) + [10] + e.body;
    MacInputInjective(Wrap64(sealed[i].at), sealed[i].body, e.issuedAt, e.body);
  }

  /** What the bus gets accepted is something a holder of the key sealed. */
  lemma AcceptedIsSealed(st: Setting, s: State, payload: Bytes, now: int)
    requires Sound(st.lib) && Inv(st, s) && Unforged(st, s.sealed, payload)
    requires HandleMessage(st.lib, AnnounceKey(Some(st.key)), st.gate, s.entries, payload, now).1.None?
    ensures var a := Open(st.lib, AnnounceKey(Some(st.key)), payload, now);
            a.Ok? && HasSource(st, Recorded(Entry(a.value), now), s.sealed)
  {
    var ann := Open(st.lib, AnnounceKey(Some(st.key)), payload, now).value;
    OpenAccepts(st.lib, AnnounceKey(Some(st.key)), payload, now, ann);
    var i := VerifiedIsSealed(st, s.sealed, payload);
    assert st.lib.strictBody(s.sealed[i].body) == Some(s.sealed[i].ann);
    UsableMeans(ann);
    assert ComesFrom(st, Recorded(Entry(ann), now), s.sealed[i]);
  }

  lemma SourcesPersist(st: Setting, recorded: seq<Recorded>, sealed: seq<Sealed>, more: Sealed)
    requires forall k :: 0 <= k < |recorded| ==> HasSource(st, recorded[k], sealed)
    ensures forall k :: 0 <= k < |recorded| ==> HasSource(st, recorded[k], sealed + [more])
  {
    forall k | 0 <= k < |recorded| ensures HasSource(st, recorded[k], sealed + [more]) {
      var i :| 0 <= i < |sealed| && ComesFrom(st, recorded[k], sealed[i]);
      assert (sealed + [more])[i] == sealed[i];
    }
  }

  lemma StepKeepsInv(st: Setting, s: State, l: Label)
    requires Sound(st.lib) && Inv(st, s) && Step(st, s, l).Some?
    ensures Inv(st, Step(st, s, l).value)
  {
    match l
    case SealOne(ann, at) => SourcesPersist(st, s.recorded, s.sealed, Sealed(ann, at, st.lib.marshal(ann).value));
    case Deliver(payload, now) => ReceiveKeepsInv(st, s, payload, now);
  }

  lemma LastWritesPush(recorded: seq<Recorded>, r: Recorded)
    ensures LastWrites(recorded + [r]) == LastWrites(recorded)[r.entry.instanceID := r.entry]
  {
    assert (recorded + [r])[..|recorded|] == recorded;
  }

  lemma ReceiveKeepsInv(st: Setting, s: State, payload: Bytes, now: int)
    requires Sound(st.lib) && Inv(st, s) && Unforged(st, s.sealed, payload)
    ensures Inv(st, Receive(st, s, payload, now))
  {
    if HandleMessage(st.lib, AnnounceKey(Some(st.key)), st.gate, s.entries, payload, now).1.None? {
      AcceptedIsSealed(st, s, payload, now);
      var a := Open(st.lib, AnnounceKey(Some(st.key)), payload, now).value;
      OpenedIsRecorded(st, s, a, payload, now);
      AfterKeepsInv(st, s, a, now);
    }
  }

  lemma OpenedIsRecorded(st: Setting, s: State, ann: Announcement, payload: Bytes, now: int)
    requires Open(st.lib, AnnounceKey(Some(st.key)), payload, now) == Ok(ann) && Usable(ann)
    requires Admits(st.gate, ann.grpcAddr)
    ensures Receive(st, s, payload, now) == After(s, ann, now)
  {}

  lemma AfterKeepsInv(st: Setting, s: State, ann: Announcement, now: int)
    requires Inv(st, s) && HasSource(st, Recorded(Entry(ann), now), s.sealed)
    ensures Inv(st, After(s, ann, now))
  {
    LastWritesPush(s.recorded, Recorded(Entry(ann), now));
  }

  /** s with ann recorded. */
  function After(s: State, ann: Announcement, now: int): State {
    var entry := RemoteEntry(ann.manifest, ann.grpcAddr, ann.instanceID);
    s.(entries := s.entries[ann.instanceID := entry],
       delivered := s.delivered + 1,
       recorded := s.recorded + [Recorded(entry, now)])
  }

  lemma {:induction false} RunKeepsInv(st: Setting, states: seq<State>, labels: seq<Label>, k: nat)
    requires Sound(st.lib) && IsRun(st, states, labels) && k < |states|
    ensures Inv(st, states[k])
  {
    if k > 0 {
      RunKeepsInv(st, states, labels, k - 1);
      assert Step(st, states[k - 1], labels[k - 1]) == Some(states[k]);
      StepKeepsInv(st, states[k - 1], labels[k - 1]);
    }
  }

  /** Message i is the last recorded one of the instance id. */
  ghost predicate IsLast(recorded: seq<Recorded>, i: nat, id: string) {
    && i < |recorded| && recorded[i].entry.instanceID == id
    && forall j :: i < j < |recorded| ==> recorded[j].entry.instanceID != id
  }

  /** The fold holds an id exactly when it was recorded, with its last entry. */
  lemma {:induction false} LastWritesAre(recorded: seq<Recorded>, id: string)
    ensures id in LastWrites(recorded) ==>
        exists i: nat :: IsLast(recorded, i, id) && LastWrites(recorded)[id] == recorded[i].entry
    ensures id !in LastWrites(recorded) ==> forall i :: 0 <= i < |recorded| ==> recorded[i].entry.instanceID != id
  {
    if recorded != [] {
      var n := |recorded| - 1;
      var front := recorded[..n];
      assert forall j :: 0 <= j < n ==> front[j] == recorded[j];
      LastWritesAre(front, id);
      if recorded[n].entry.instanceID == id {
        assert IsLast(recorded, n, id);
      } else if id in LastWrites(front) {
        var i: nat :| IsLast(front, i, id) && LastWrites(front)[id] == front[i].entry;
        assert IsLast(recorded, i, id);
      }
    }
  }

  /** In every run and at every moment: each entry is the last recorded message of its id,
      and every message ever recorded was sealed by a holder of the key, accepted within the
      window of its issue time, usable, and let through the gate. */
  lemma EveryEntryHasASource(st: Setting, states: seq<State>, labels: seq<Label>, k: nat, id: string)
    requires Sound(st.lib) && IsRun(st, states, labels) && k < |states| && id in states[k].entries
    ensures exists i: nat :: IsLast(states[k].recorded, i, id) && states[k].recorded[i].entry == states[k].entries[id]
                        && HasSource(st, states[k].recorded[i], states[k].sealed)
    ensures forall i :: 0 <= i < |states[k].recorded| ==> HasSource(st, states[k].recorded[i], states[k].sealed)
    ensures states[k].entries[id].instanceID == id && Acceptable(st, states[k].entries[id])
    ensures exists j :: 0 <= j < |states[k].sealed| && IsEntryOf(states[k].entries[id], states[k].sealed[j].ann)
  {
    RunKeepsInv(st, states, labels, k);
    LastWritesAre(states[k].recorded, id);
    var i: nat :| IsLast(states[k].recorded, i, id) && states[k].recorded[i].entry == states[k].entries[id];
    var j :| 0 <= j < |states[k].sealed| && ComesFrom(st, states[k].recorded[i], states[k].sealed[j]);
  }

  /** Conservation: every delivered message was recorded or reported to onRejected, once. */
  lemma EveryMessageCountsOnce(st: Setting, states: seq<State>, labels: seq<Label>, k: nat)
    requires Sound(st.lib) && IsRun(st, states, labels) && k < |labels|
    ensures var s, t := states[k], states[k + 1];
      && |t.recorded| + |t.rejected| == t.delivered
      && (labels[k].Deliver? ==>
            || (t.recorded == s.recorded && |t.rejected| == |s.rejected| + 1
                && s.rejected <= t.rejected && t.entries == s.entries)
            || (t.rejected == s.rejected && |t.recorded| == |s.recorded| + 1 && s.recorded <= t.recorded))
    ensures forall payload, now ::
              labels[k] == Deliver(payload, now) && |states[k + 1].rejected| > |states[k].rejected| ==>
              HandleMessage(st.lib, AnnounceKey(Some(st.key)), st.gate, states[k].entries, payload, now).1
                == Some(states[k + 1].rejected[|states[k].rejected|])
  {
    RunKeepsInv(st, states, labels, k + 1);
    assert Step(st, states[k], labels[k]) == Some(states[k + 1]);
  }

  /** No id is ever lost. */
  lemma {:induction false} NoIdIsLost(st: Setting, states: seq<State>, labels: seq<Label>, j: nat, k: nat)
    requires IsRun(st, states, labels) && j <= k < |states|
    ensures states[j].entries.Keys <= states[k].entries.Keys
  {
    if j < k {
      NoIdIsLost(st, states, labels, j, k - 1);
      assert Step(st, states[k - 1], labels[k - 1]) == Some(states[k]);
    }
  }

  // ---- rollback --------------------------------------------------------------

  /** The receiver's clock does not run backwards. */
  ghost predicate ClockRuns(labels: seq<Label>) {
    forall i, j :: 0 <= i < j < |labels| && labels[i].Deliver? && labels[j].Deliver? ==> labels[i].now <= labels[j].now
  }

  /** Messages are recorded in the order of the clock, and before whatever is still to come. */
  lemma {:induction false} RecordedInClockOrder(st: Setting, states: seq<State>, labels: seq<Label>, k: nat)
    requires IsRun(st, states, labels) && ClockRuns(labels) && k < |states|
    ensures forall i, j :: 0 <= i < j < |states[k].recorded| ==> states[k].recorded[i].now <= states[k].recorded[j].now
    ensures forall i, m :: 0 <= i < |states[k].recorded| && k <= m < |labels| && labels[m].Deliver? ==>
              states[k].recorded[i].now <= labels[m].now
  {
    if k > 0 {
      RecordedInClockOrder(st, states, labels, k - 1);
      assert Step(st, states[k - 1], labels[k - 1]) == Some(states[k]);
      RecordedGrows(st, states[k - 1], labels[k - 1]);
    }
  }

  lemma RecordedGrows(st: Setting, s: State, l: Label)
    requires Step(st, s, l).Some?
    ensures var n := Step(st, s, l).value;
      || n.recorded == s.recorded
      || (l.Deliver? && |n.recorded| == |s.recorded| + 1
          && s.recorded <= n.recorded && n.recorded[|s.recorded|].now == l.now)
  {}

  /** Whatever recorded message r came from, and whatever the later message r' did, the later
      one was issued at most two windows before the earlier one. */
  ghost predicate RollbackWithinTwoWindows(st: Setting, r: Recorded, r': Recorded) {
    forall a, b :: ComesFrom(st, r, a) && ComesFrom(st, r', b) ==> Wrap64(a.at) - Wrap64(b.at) <= 2 * WINDOW
  }

  lemma BoundedByClocks(st: Setting, r: Recorded, r': Recorded)
    requires r.now <= r'.now
    ensures RollbackWithinTwoWindows(st, r, r')
  {}

  /** A step that changes an entry has recorded one message, which became that entry. */
  lemma ChangeIsRecorded(st: Setting, s: State, l: Label, id: string)
    requires Step(st, s, l).Some? && id in s.entries
    requires var n := Step(st, s, l).value; id in n.entries && n.entries[id] != s.entries[id]
    ensures var n := Step(st, s, l).value;
      && s.recorded <= n.recorded && |n.recorded| == |s.recorded| + 1
      && n.recorded[|s.recorded|].entry == n.entries[id]
  {}

  /** A replayed older announcement can replace a newer one, but not by much: when a delivery
      replaces an entry, the new one was issued at most two windows before the old one, as long
      as the receiver's clock does not run backwards. */
  lemma RollbackIsBounded(st: Setting, states: seq<State>, labels: seq<Label>, k: nat, id: string)
    requires Sound(st.lib) && IsRun(st, states, labels) && ClockRuns(labels) && k < |labels|
    requires id in states[k].entries && id in states[k + 1].entries
    requires states[k + 1].entries[id] != states[k].entries[id]
    ensures var s, n := states[k], states[k + 1];
      && |n.recorded| == |s.recorded| + 1 && n.recorded[|s.recorded|].entry == n.entries[id]
      && HasSource(st, n.recorded[|s.recorded|], n.sealed)
      && exists i: nat :: IsLast(s.recorded, i, id) && s.recorded[i].entry == s.entries[id]
                     && HasSource(st, s.recorded[i], s.sealed)
                     && RollbackWithinTwoWindows(st, s.recorded[i], n.recorded[|s.recorded|])
  {
    var s, n := states[k], states[k + 1];
    assert Step(st, s, labels[k]) == Some(n);
    ChangeIsRecorded(st, s, labels[k], id);
    RecordedInClockOrder(st, states, labels, k + 1);
    EveryEntryHasASource(st, states, labels, k + 1, id);
    var i := SourceOfEntry(st, states, labels, k, id);
    assert n.recorded[i] == s.recorded[i];
    BoundedByClocks(st, s.recorded[i], n.recorded[|s.recorded|]);
  }

  lemma SourceOfEntry(st: Setting, states: seq<State>, labels: seq<Label>, k: nat, id: string) returns (i: nat)
    requires Sound(st.lib) && IsRun(st, states, labels) && k < |states| && id in states[k].entries
    ensures IsLast(states[k].recorded, i, id) && states[k].recorded[i].entry == states[k].entries[id]
    ensures HasSource(st, states[k].recorded[i], states[k].sealed)
  {
    EveryEntryHasASource(st, states, labels, k, id);
    i :| IsLast(states[k].recorded, i, id) && states[k].recorded[i].entry == states[k].entries[id]
      && HasSource(st, states[k].recorded[i], states[k].sealed);
  }

  function SealUnder(st: Setting, ann: Announcement, at: int): Result<Bytes, AnnounceError> {
    Seal(st.lib, AnnounceKey(Some(st.key)), ann, at)
  }

  /** A holder of the key can seal the announcement at that time, and no gate refuses it. */
  ghost predicate CanTravel(st: Setting, ann: Announcement, at: int) {
    && Acceptable(st, RemoteEntry(ann.manifest, ann.grpcAddr, ann.instanceID))
    && SealUnder(st, ann, at).Ok? && |SealUnder(st, ann, at).value| <= MAX_BYTES
  }

  lemma SealedIsUnforged(st: Setting, sealed: seq<Sealed>, ann: Announcement, at: int)
    requires Sound(st.lib) && SealUnder(st, ann, at).Ok?
    requires Sealed(ann, at, st.lib.marshal(ann).value) in sealed
    ensures Unforged(st, sealed, SealUnder(st, ann, at).value)
  {
    var i :| 0 <= i < |sealed| && sealed[i] == Sealed(ann, at, st.lib.marshal(ann).value);
    assert MessageOf(sealed[i]) == DecimalBytes(Wrap64(at)) + [10] + st.lib.marshal(ann).value;
  }

  /** A sealed announcement is recorded in every state, and any number of times, as long as the
      clock is within the window of its issue time. */
  lemma SealedIsRecorded(st: Setting, s: State, ann: Announcement, at: int, now: int)
    requires Sound(st.lib) && CanTravel(st, ann, at) && Distance(now, Wrap64(at)) <= WINDOW
    requires Sealed(ann, at, st.lib.marshal(ann).value) in s.sealed
    ensures Step(st, s, Deliver(SealUnder(st, ann, at).value, now)) == Some(After(s, ann, now))
  {
    UsableMeans(ann);
    OpenSealed(st.lib, AnnounceKey(Some(st.key)), ann, at, now);
    SealedIsUnforged(st, s.sealed, ann, at);
    OpenedIsRecorded(st, s, ann, SealUnder(st, ann, at).value, now);
  }

  /** Recording a sealed announcement means that the clock was within its window. */
  lemma RecordedWithinWindow(st: Setting, s: State, ann: Announcement, at: int, now: int)
    requires Sound(st.lib) && CanTravel(st, ann, at)
    requires Step(st, s, Deliver(SealUnder(st, ann, at).value, now)) == Some(After(s, ann, now))
    ensures Distance(now, Wrap64(at)) <= WINDOW
  {
    OpenSealed(st.lib, AnnounceKey(Some(st.key)), ann, at, now);
    if Open(st.lib, AnnounceKey(Some(st.key)), SealUnder(st, ann, at).value, now).Err? {
      assert |After(s, ann, now).rejected| == |s.rejected|;
    }
  }

  /** The newer announcement, sealed at u, is recorded, and then the older one, sealed at t,
      is recorded in its place. */
  ghost predicate RollsBack(st: Setting, s: State, older: Announcement, newer: Announcement, t: int, u: int,
                            first: int, second: int)
    requires SealUnder(st, older, t).Ok? && SealUnder(st, newer, u).Ok?
  {
    && first <= second
    && Step(st, s, Deliver(SealUnder(st, newer, u).value, first)) == Some(After(s, newer, first))
    && Step(st, After(s, newer, first), Deliver(SealUnder(st, older, t).value, second))
         == Some(After(After(s, newer, first), older, second))
  }

  ghost predicate HoldsSealing(st: Setting, s: State, ann: Announcement, at: int) {
    st.lib.marshal(ann).Some? && Sealed(ann, at, st.lib.marshal(ann).value) in s.sealed
  }

  lemma RollbackWithinTwoWindowsHappens(st: Setting, s: State, older: Announcement, newer: Announcement,
                                        t: int, u: int, first: int, second: int)
    requires Sound(st.lib) && CanTravel(st, older, t) && CanTravel(st, newer, u)
    requires HoldsSealing(st, s, older, t) && HoldsSealing(st, s, newer, u)
    requires -TWO_63 <= t < TWO_63 && -TWO_63 <= u < TWO_63
    requires first <= second && Distance(first, u) <= WINDOW && Distance(second, t) <= WINDOW
    ensures RollsBack(st, s, older, newer, t, u, first, second)
  {
    WrapInRange(t);
    WrapInRange(u);
    SealedIsRecorded(st, s, newer, u, first);
    SealedIsRecorded(st, After(s, newer, first), older, t, second);
  }

  /** In every state that holds both sealings, some readings of a clock that does not run
      backwards let the older announcement replace the newer one, if and only if they were
      sealed at most two windows apart. */
  lemma RollbackIffWithinTwoWindows(st: Setting, s: State, older: Announcement, newer: Announcement, t: int, u: int)
    requires Sound(st.lib) && CanTravel(st, older, t) && CanTravel(st, newer, u)
    requires HoldsSealing(st, s, older, t) && HoldsSealing(st, s, newer, u)
    requires -TWO_63 <= t < TWO_63 && -TWO_63 <= u < TWO_63
    ensures (exists first, second :: RollsBack(st, s, older, newer, t, u, first, second)) <==> u - t <= 2 * WINDOW
  {
    if u - t <= 2 * WINDOW {
      var first := if t <= u then u - WINDOW else u;
      var second := if t <= u then u - WINDOW else t;
      RollbackWithinTwoWindowsHappens(st, s, older, newer, t, u, first, second);
    }
    if first, second :| RollsBack(st, s, older, newer, t, u, first, second) {
      WrapInRange(t);
      WrapInRange(u);
      RecordedWithinWindow(st, s, newer, u, first);
      RecordedWithinWindow(st, After(s, newer, first), older, t, second);
    }
  }

  /** The announcements of one instance are sealed, one at t and one at u. */
  function BothSealed(st: Setting, older: Announcement, newer: Announcement, t: int, u: int): State
    requires st.lib.marshal(older).Some? && st.lib.marshal(newer).Some?
  {
    START.(sealed := [Sealed(older, t, st.lib.marshal(older).value), Sealed(newer, u, st.lib.marshal(newer).value)])
  }

  lemma SealingSteps(st: Setting, older: Announcement, newer: Announcement, t: int, u: int)
    requires st.lib.marshal(older).Some? && st.lib.marshal(newer).Some?
    ensures var s := START.(sealed := [Sealed(older, t, st.lib.marshal(older).value)]);
      && Step(st, START, SealOne(older, t)) == Some(s)
      && Step(st, s, SealOne(newer, u)) == Some(BothSealed(st, older, newer, t, u))
  {
    var first := Sealed(older, t, st.lib.marshal(older).value);
    assert [] + [first] == [first];
    assert [first] + [Sealed(newer, u, st.lib.marshal(newer).value)] == BothSealed(st, older, newer, t, u).sealed;
  }

  lemma SealingsAreHeld(st: Setting, older: Announcement, newer: Announcement, t: int, u: int)
    requires st.lib.marshal(older).Some? && st.lib.marshal(newer).Some?
    ensures HoldsSealing(st, BothSealed(st, older, newer, t, u), older, t)
    ensures HoldsSealing(st, BothSealed(st, older, newer, t, u), newer, u)
  {
    var s := BothSealed(st, older, newer, t, u);
    assert s.sealed[0].ann == older && s.sealed[1].ann == newer;
  }

  lemma StepRuns(st: Setting, states: seq<State>, labels: seq<Label>, l: Label, n: State)
    requires IsRun(st, states, labels) && Step(st, states[|labels|], l) == Some(n)
    ensures IsRun(st, states + [n], labels + [l])
  {}

  lemma SealingRun(st: Setting, older: Announcement, newer: Announcement, t: int, u: int)
    returns (states: seq<State>, labels: seq<Label>)
    requires st.lib.marshal(older).Some? && st.lib.marshal(newer).Some?
    ensures IsRun(st, states, labels) && |states| == 3 && states[2] == BothSealed(st, older, newer, t, u)
    ensures forall l :: l in labels ==> l.SealOne?
  {
    SealingSteps(st, older, newer, t, u);
    var first := START.(sealed := [Sealed(older, t, st.lib.marshal(older).value)]);
    StepRuns(st, [START], [], SealOne(older, t), first);
    states, labels := [START] + [first], [] + [SealOne(older, t)];
    StepRuns(st, states, labels, SealOne(newer, u), BothSealed(st, older, newer, t, u));
    states, labels := states + [BothSealed(st, older, newer, t, u)], labels + [SealOne(newer, u)];
  }

  lemma DeliveryRun(st: Setting, before: seq<State>, labels: seq<Label>, payload: Bytes, n: State, now: int)
    returns (states: seq<State>, labels': seq<Label>)
    requires IsRun(st, before, labels) && Step(st, before[|labels|], Deliver(payload, now)) == Some(n)
    requires forall l :: l in labels && l.Deliver? ==> l.now == now
    ensures IsRun(st, states, labels') && states == before + [n] && |labels'| == |labels| + 1
    ensures forall l :: l in labels' && l.Deliver? ==> l.now == now
  {
    StepRuns(st, before, labels, Deliver(payload, now), n);
    states, labels' := before + [n], labels + [Deliver(payload, now)];
  }

  lemma RollbackRun(st: Setting, before: seq<State>, labels: seq<Label>, older: Announcement,
                    newer: Announcement, t: int, u: int, now: int)
    returns (states: seq<State>, labels': seq<Label>)
    requires IsRun(st, before, labels) && forall l :: l in labels && l.Deliver? ==> l.now == now
    requires SealUnder(st, older, t).Ok? && SealUnder(st, newer, u).Ok?
    requires RollsBack(st, before[|labels|], older, newer, t, u, now, now)
    ensures IsRun(st, states, labels') && |labels'| == |labels| + 2
    ensures forall l :: l in labels' && l.Deliver? ==> l.now == now
    ensures |states| == |before| + 2 && before <= states
    ensures states[|before|] == After(before[|labels|], newer, now)
    ensures states[|before| + 1] == After(states[|before|], older, now)
  {
    var third := After(before[|labels|], newer, now);
    states, labels' := DeliveryRun(st, before, labels, SealUnder(st, newer, u).value, third, now);
    states, labels' := DeliveryRun(st, states, labels', SealUnder(st, older, t).value, After(third, older, now), now);
  }

  lemma SealedPairRollsBack(st: Setting, older: Announcement, newer: Announcement, t: int, u: int)
    requires Sound(st.lib) && CanTravel(st, older, t) && CanTravel(st, newer, u)
    requires -TWO_63 <= t <= u < TWO_63 && u - t <= 2 * WINDOW
    ensures RollsBack(st, BothSealed(st, older, newer, t, u), older, newer, t, u, u - WINDOW, u - WINDOW)
  {
    SealingsAreHeld(st, older, newer, t, u);
    RollbackWithinTwoWindowsHappens(st, BothSealed(st, older, newer, t, u), older, newer, t, u, u - WINDOW, u - WINDOW);
  }

  lemma OneReadingRuns(labels: seq<Label>, now: int)
    requires forall l :: l in labels && l.Deliver? ==> l.now == now
    ensures ClockRuns(labels)
  {
    assert forall i :: 0 <= i < |labels| ==> labels[i] in labels;
  }

  /** Such a run exists from the start, even at one reading of the clock: the newer announcement
      arrives first, and the one sealed up to two windows before it takes its place. */
  lemma RollbackCanHappen(st: Setting, older: Announcement, newer: Announcement, t: int, u: int)
    returns (states: seq<State>, labels: seq<Label>)
    requires Sound(st.lib) && older.instanceID == newer.instanceID
    requires CanTravel(st, older, t) && CanTravel(st, newer, u)
    requires -TWO_63 <= t <= u < TWO_63 && u - t <= 2 * WINDOW
    ensures IsRun(st, states, labels) && ClockRuns(labels) && |states| == 5
    ensures states[2] == BothSealed(st, older, newer, t, u)
    ensures states[3] == After(states[2], newer, u - WINDOW) && states[4] == After(states[3], older, u - WINDOW)
    ensures states[3].entries == map[newer.instanceID := RemoteEntry(newer.manifest, newer.grpcAddr, newer.instanceID)]
    ensures states[4].entries == map[newer.instanceID := RemoteEntry(older.manifest, older.grpcAddr, older.instanceID)]
  {
    var now := u - WINDOW;
    states, labels := SealingRun(st, older, newer, t, u);
    SealedPairRollsBack(st, older, newer, t, u);
    states, labels := RollbackRun(st, states, labels, older, newer, t, u, now);
    OneReadingRuns(labels, now);
    EntriesAfter(BothSealed(st, older, newer, t, u), older, newer, now);
  }

  lemma EntriesAfter(s: State, older: Announcement, newer: Announcement, now: int)
    requires s.entries == map[] && older.instanceID == newer.instanceID
    ensures After(s, newer, now).entries
         == map[newer.instanceID := RemoteEntry(newer.manifest, newer.grpcAddr, newer.instanceID)]
    ensures After(After(s, newer, now), older, now).entries
         == map[newer.instanceID := RemoteEntry(older.manifest, older.grpcAddr, older.instanceID)]
  {}

  /** The gates come after authentication and freshness: whatever reaches them was accepted
      by Open, and only then can a refusal name the announcement or its address. */
  lemma GatesComeLast(st: Setting, entries: map<string, RemoteEntry>, payload: Bytes, now: int)
    ensures var key := AnnounceKey(Some(st.key));
            var (after, report) := HandleMessage(st.lib, key, st.gate, entries, payload, now);
            var opening := Open(st.lib, key, payload, now);
      && (opening.Err? ==> report == Some(opening.error))
      && (opening.Ok? ==>
            var ann := opening.value;
            var entry := RemoteEntry(ann.manifest, ann.grpcAddr, ann.instanceID);
            && (report.None? <==> Acceptable(st, entry))
            && (report == Some(Unusable) <==>
                  entry.instanceID == "" || entry.manifest.category == "" || !NamesHostAndPort(entry.grpcAddr))
            && (report.Some? ==> report == Some(Unusable) || report == Some(AddrRefused))
            && (report.None? ==> after == entries[ann.instanceID := entry]))
      && (report.Some? ==> after == entries) && (st.gate.None? ==> report.Some?)
  {
    var opening := Open(st.lib, AnnounceKey(Some(st.key)), payload, now);
    if opening.Ok? { UsableMeans(opening.value); }
  }
}
