# A verified model of herrscher-transport

The repository carries plugin ports between a host and its out-of-process plugins, over gRPC
and with announcements over NATS. It also holds two small tools. This project models its five
hardest parts in Dafny and proves what they promise.

- **One backend turn** (`BackendFrame`, `BackendStream`, `BackendSafety`, `BackendLiveness`, `BackendErrors`). The turn is a transition
  system: any number of goroutines that call `onEvent` and may outlive the real backend, the server
  that ends the turn, and the client. Taking the lock, checking, encoding, the start and the end of a
  send, and unlocking are separate steps, so that other parties can act between them. The terminal
  Done frame is sent outside the lock. A send may fail with or without delivering its frame, opening may
  fail with or without delivering the prompt, and the client's stream may break at any step. The class `Responder` is the same turn run one critical
  section at a time, and every interleaving is proved to refine it.
- **Dependency order and output check** (`DependencyOrder`, `VisitOrder`, `FilePath`, `OutputCheck`). The depth-first visit
  keeps its mutable variables and runs on any finite import graph, cyclic ones included. The file
  system is a map from path to content.
- **Sealed announcements and the registry** (`Announce`, `HostPort`, `Registry`). The MAC is ideal: a
  tag verifies only for bytes that a key holder authenticated. Short of that the bus delivers any bytes,
  in any order, any number of times.
- **A memory across the wire** (`Codec`, `WireError`, `PluginRouter`, `PluginClaims`, `RemoteMemory`,
  `MemoryCalls`, `MemoryRelays`). The real memory is any deterministic state machine. Errors are trees,
  searched in the order of `errors.As`. `MemoryCalls` is a transition system of any number of concurrent
  calls: issuing, performing, answering and giving up are separate steps, so a request that was given up
  may still take effect later.
- **Directive words and the report** (`Directives`, `Utf8`, `Report`). The scanning loops keep their index skips.
  A directive is text; its words are Go strings, that is, bytes.
  The order in which Go's map yields its keys is a parameter, and of the library's sort only the contract
  is used.

Some promises hold only under a condition, which is proved to be exact:

- An error whose text is empty reads as success to a call without a result; `Recall` and `Search` then
  report a tuple that does not decode (`RemoteMemory.TransmitIsFaithful`, `WireError.ErrorCrossesWire`).
  In a backend turn such an error reads as nil (`BackendFrame.DoneApplies`).
- A remote memory is indistinguishable from the local one when all arguments have an encoding and all
  replies carry (`RemoteMemory.RemoteIsLocal`).
- A second relay turns a budget error without a text of its own into success, and a third one may change
  it again (`WireError.RelaysAreTransparent`, `MemoryRelays.HostsAreTransparent`).
- An announcement sealed at a time outside int64 nanoseconds is stale even to the sealer's own clock
  (`Announce.SealingTimeMustFit`).
- A later call can take effect before an earlier one exactly as long as the request of the earlier one is
  pending, even if its caller gave up (`MemoryCalls.OvertakenIffPending`).
- A replayed announcement can replace a newer one exactly when they were sealed at most two windows apart
  (`Registry.RollbackIffWithinTwoWindows`).
- The report depends on the run when two collected findings share a position and differ in their reason, which a
  `//line` directive can bring about (`Report.DeterministicIffDistinct`).

Two more conditions concern the generator. Imports stand before their importers exactly when no import
cycle is reachable (`DependencyOrder.TopologicalIffAcyclic`). Written files survive exactly when files that
share a target share their content (`OutputCheck.SurviveIffAgree`); the output check guarantees that for names
with a real last element, and `OutputCheck.DotNameCollides` shows the family of names it misses.

Where the code and the repository's README.md disagree, the model follows the code: README.md:77-84 decodes
the announcement before authenticating it, and announce.go:123-141 authenticates first. `Announce.RefusalsMean`
states the order of the code.

What each function computes is also said without it: what a payload decodes to (`Codec.UnmarshalMeans`,
`BackendFrame.UnmarshalFrameMeans`), which texts are accepted (`Directives.WordsMean`), where a path leads
(`FilePath.CleanKeepsPlace`), which file comes first (`VisitOrder.OrderIsDetermined`), and what travels
(`RemoteMemory.CallsOnTheWire`, `Announce.EnvelopeText`).

The main results are:

- the backend turn: `BackendSafety.EndToEnd`, `NoSilentLoss`, `SendsNeverOverlap`, `NothingAfterFault`,
  `SnapshotIsFinal` and `InterleavingIsSequential`, `BackendLiveness.ServerCanFinish` and `EmitterCanReturn`;
- the generator: `DependencyOrder.EmitsReachableOnce` and `TopologicalIffAcyclic`, `VisitOrder.OrderIsDetermined`,
  `FilePath.CleanKeepsPlace` and `JoinLeadsInto`, `OutputCheck.CheckedFilesSurvive` and `SurviveIffAgree`;
- announcements: `Announce.MacInputInjective`, `OpenSealed` and `SealingTimeMustFit`,
  `Registry.EveryEntryHasASource`, `RollbackIsBounded` and `RollbackIffWithinTwoWindows`;
- the remote memory: `RemoteMemory.RemoteIsLocal`, `MemoryCalls.AtMostOnce`, `RepliesAreReal`,
  `RepliedComesFirst`, `OvertakenIffPending` and `SettledRunIsLocal`, `MemoryRelays.HostsAreTransparent`,
  `WireError.FindBudgetIsFirst`, `PluginClaims.OneRouterPerServer` and `CleanupIsFinal`;
- the comment checker: `Directives.WordsMean`, `Report.DeterministicIffDistinct`.

Assumed about libraries: the contracts types survive their own JSON encoding (`Contracts.RoundTrips`), and
the announcement codec does too, with HMAC-SHA256 giving 32 bytes (`Announce.Sound`). JSON texts are the values
they parse to, and the text of an envelope is written out. `Announce.MarshalInjective` shows that different envelopes
have different texts, so the decoder that is assumed can exist. The connection hands one request to the server
at most once: grpc does not repeat a request that has reached the application. Outcomes of sends, writes and the network, clocks
and the map order are parameters. The texts of the three categories are constants of the contracts module, which
is not part of this model; no result depends on them.

## Model

| member | source | states |
|---|---|---|
| `BackendSafety.EndToEnd` | backend_stream.go:147-214 | In every run, at every moment: the real backend gets the client's prompt, the hook was given a prefix of the lock order, and the client never sees a malformed frame. A nil error means all accepted events arrived, the reply is the real one and the real error was nil or without text; a remote error means the same with the real error's text. |
| `BackendSafety.NoSilentLoss` | backend_stream.go:92-124 | If the Done frame is out, the wire is exactly the events that took the lock before close, in lock order, then Done. `respond` returns nil only then, and a stream error exactly when one of those events failed. |
| `BackendSafety.SendsNeverOverlap` | backend_stream.go:92-121 | Two calls of SendMsg are never under way at once, although Done is sent without the lock. |
| `BackendSafety.DoneAndFailuresAreLast` | backend_stream.go:104-122 | The Done frame is sent at most once and last, and a failed send is the last one. |
| `BackendSafety.NothingAfterFault` | backend_stream.go:95-106 | After a failed send or marshal the fault and the wire never change again and no send is ever under way. |
| `BackendSafety.SnapshotIsFinal` | backend_stream.go:110-113 | What the server reads of `sendErr` at close, and the accepted events, are final even while late emitters keep calling. |
| `BackendSafety.InterleavingIsSequential` | backend_stream.go:87-113 | Whenever the lock is free, the shared variables are the fold of the completed critical sections, which are exactly the returned calls, each once, and the close, exactly once if the latch is set and never otherwise; the sections behind the close change nothing, whatever the interleaving. |
| `BackendSafety.StepKeepsInv` | backend_stream.go:78-214 | Every step of every party keeps the invariant, only adds events and frames, and respects the fault and the latch. |
| `BackendSafety.RequestAccepted` | backend_stream.go:79-85 | The server accepts the request the client builds and decodes the client's prompt from it. |
| `BackendSafety.DoneComesAfterAll` | backend_stream.go:110-121 | Once Done is on the wire, every accepted event is before it. |
| `BackendLiveness.ServerCanFinish` | backend_stream.go:109-124 | From every reachable state in which the real backend has returned, `respond` can return within nine steps, whatever late emitters are doing. |
| `BackendLiveness.EmitterCanReturn` | backend_stream.go:92-107 | From every reachable state every call of `onEvent`, late ones included, can return. |
| `BackendLiveness.LockCanBeFreed` | backend_stream.go:93-113 | The owner of the lock always has an enabled step, and can release it within four. |
| `BackendLiveness.ClientCanEnd` | backend_stream.go:158-166 | Once Done is on the wire, a client that still reads can end with the real reply. |
| `BackendStream.EmitKeepsOrder` | backend_stream.go:92-107 | A call of `onEvent` keeps the frames sent equal to the encodings of the first accepted events, and of all of them as long as there is no fault. |
| `BackendStream.FoldInOrder` | backend_stream.go:92-113 | The same for any sequence of calls and close. |
| `BackendStream.Responder.OnEvent` | backend_stream.go:92-107 | The closure changes its variables as the sequential step `Emit` does. |
| `BackendStream.Responder.Finish` | backend_stream.go:110-124 | Closing keeps the fault and the events, sends Done only without a fault, and on success leaves one frame per event and then Done. |
| `BackendFrame.FrameRoundTrip` | backend_stream.go:25-30 | Decoding an encoded frame gives it back, with empty fields omitted on the wire. |
| `BackendFrame.DoneApplies` | backend_stream.go:196-214 | A Done frame always encodes, and ends the turn without an error exactly when the backend's error is nil or has no text. |
| `BackendFrame.ReceiveLoop` | backend_stream.go:158-214 | The client loop replays every event before the first other frame, in order. It returns a nil error only for a Done frame without an error, and with its reply; an invalid frame exactly for one that is neither an event nor Done; a bad frame exactly for what does not decode; without such a frame the failure of the stream, whose regular end is an unexpected one. |
| `BackendFrame.UnmarshalFrameMeans` | backend_stream.go:25-30 | Which frame every payload decodes to, field by field. |
| `BackendFrame.FramesOnTheWire` | backend_stream.go:25-30 | The JSON fields of event and Done frames, empty ones left out. |
| `BackendStream.AcceptRequestMeans` | backend_stream.go:79-85 | The server accepts exactly a backend request with a tuple of one prompt; another port is refused by name first, and a bad tuple with its reason. |
| `BackendErrors.ServerErrorsTell` | backend_stream.go:99-124 | In every run a send fault means that the last send of an event failed, a marshal fault that an event has no encoding, success that the Done frame was sent, and a failed reply that its send failed. |
| `BackendErrors.ClientErrorsTell` | backend_stream.go:148-214 | In every run each error of the client has its own cause: a prompt without an encoding, a stream that did not open, its regular end, its break, or a frame. |
| `BackendErrors.RequestOnTheWire` | backend_stream.go:174 | The request names the backend port and holds the prompt as a tuple of one. |
| `VisitOrder.DescriptorsInDependencyOrder` | tools/protogen/main.go:183-200 | The result lists each file the root reaches exactly once and nothing else, root last, with imports first exactly when no import cycle is reachable. Without a cycle it is determined: a file stands before another if and only if the other depends on it, or neither depends on the other and its least route from the root, by import numbers, is less. |
| `VisitOrder.OrderIsDetermined` | tools/protogen/main.go:187-197 | The same as a theorem about the visit. |
| `VisitOrder.FirstImportsComeFirst` | tools/protogen/main.go:193-195 | For every n, the files that the first n imports of the root reach stand before all others. |
| `DependencyOrder.Visitor.Run` | tools/protogen/main.go:187-197 | The recursive closure with its two variables computes `VisitFile`, and terminates on every graph. |
| `DependencyOrder.EmitsReachableOnce` | tools/protogen/main.go:183-200 | On every graph: no duplicates, exactly the reachable files, root last; an import that is not emitted before its importer closes a cycle with it. |
| `DependencyOrder.TopologicalIffAcyclic` | tools/protogen/main.go:187-197 | Every import stands strictly before its importers if and only if no reachable file lies on an import cycle. |
| `DependencyOrder.VisitFileKeepsInv` | tools/protogen/main.go:187-197 | Visited files that are not emitted are exactly the recursion stack, through every nested visit. |
| `OutputCheck.CheckOutputs` | tools/protogen/main.go:237-250 | The check passes exactly when the base names are pairwise distinct and their set is the wanted one. |
| `OutputCheck.FileSystem.CheckAndWrite` | tools/protogen/main.go:152-155 | A failed check writes nothing; a success means the wanted base names, and every file on disk with its content when the names are real. |
| `OutputCheck.CountingElements` | tools/protogen/main.go:242-246 | As many different base names as files means no base name twice. |
| `OutputCheck.CheckedFilesSurvive` | tools/protogen/main.go:237-263 | After a passed check and a successful write the targets are pairwise distinct and every content survives, for names with a real last element. |
| `OutputCheck.SurviveIffAgree` | tools/protogen/main.go:252-263 | After any successful write every content survives if and only if files with one target have one content. |
| `OutputCheck.DotNameCollides` | tools/protogen/main.go:242-258 | A real name and that name with a dot behind it pass as different bases and share a target. |
| `FilePath.JoinKeepsBase` | tools/protogen/main.go:254 | The target of a name with a real last element keeps that element. |
| `FilePath.JoinLeadsInto` | tools/protogen/main.go:254 | From every directory, the target of a name leads to where the name leads from the output directory, dot-dots included. |
| `FilePath.JoinIsUnder` | tools/protogen/main.go:254 | The target of a name without dot-dot is the cleaned output directory, a slash, and the elements of the name. |
| `FilePath.CleanKeepsPlace` | tools/protogen/main.go:254 | A cleaned path leads to the same place from every directory, and has no empty or dot element and no dot-dot behind a name. |
| `FilePath.BaseMeans` | tools/protogen/main.go:237-245 | The base of a path is its last element, slashes behind it aside; a dot for the empty path, and a slash for slashes only. |
| `OutputCheck.WritingStopsAtFailure` | tools/protogen/main.go:252-263 | The files before the first failure are written, the failing one may leave something at its target, and the others are not touched. |
| `OutputCheck.LastWriterWins` | tools/protogen/main.go:252-263 | A target holds the content of the last file written to it, and every other path keeps its content. |
| `OutputCheck.FileSystem.WriteFiles` | tools/protogen/main.go:252-263 | The loop writes file by file as `WriteAll` does, stops at the first failure, and succeeds exactly when every write does. |
| `Announce.MacInputInjective` | announce.go:91-97 | Equal authenticated bytes mean equal issue time and equal body, whatever digits and newlines the bodies hold. |
| `Announce.FreshIsDistance` | announce.go:133-136 | Despite saturating subtraction and absolute value, freshness is the integer distance of the clocks, edges included. |
| `Announce.RefusalsMean` | announce.go:119-142 | Exactly when each refusal is returned: more than 32768 bytes, no envelope, a MAC over other bytes than the decimal time, a newline and the body, clocks more than ten seconds apart, no body; in this order. |
| `Announce.SealMeans` | announce.go:99-117 | Sealing succeeds exactly when the key has material and the announcement encodes, with which error otherwise, and what the envelope holds. |
| `Announce.EnvelopeText` | announce.go:81-85 | The JSON text of an envelope, written out. |
| `Announce.Base64DigitIsOfAlphabet` | announce.go:83-84 | The digits are those of table 1 of RFC 4648. |
| `Common.DecimalDenotes` | announce.go:93 | An integer is printed as the numeral that denotes it. |
| `Announce.OpenSealed` | announce.go:99-142 | A sealed announcement opens to itself exactly within the window and is stale otherwise, for every sealing time. |
| `Announce.SealingTimeMustFit` | announce.go:107 | The sealer's own clock accepts the announcement if and only if the sealing time fits int64 nanoseconds, and then the distance of the clocks decides. |
| `Announce.SealedSize` | announce.go:81-85 | The length of a sealed announcement is 87, the digits of the time and the base64 of the body. |
| `Announce.BodySizeBound` | announce.go:28 | Every body of at most 24495 bytes fits the bound, and from eighteen characters of time on no larger one does. |
| `Announce.MarshalInjective` | announce.go:108-112 | Different envelopes have different JSON texts. |
| `HostPort.SplitIffJoins` | remote_registry.go:76-79 | An address splits exactly when it joins a host and a port, and into those two. |
| `Registry.EveryEntryHasASource` | remote_registry.go:64-87 | In every run of the bus each entry is the last recorded one of its id, has the manifest, the address and the id of an announcement that a key holder sealed, names a category, a host and a port, and has an address that the gate admits. Everything ever recorded was sealed by a key holder, accepted within the window, usable, and let through the gate. |
| `Registry.EveryMessageCountsOnce` | announce.go:189-196 | Each delivered message is recorded or reported to `onRejected` with its error, exactly once, and a reported one changes no entry. |
| `Registry.NoIdIsLost` | remote_registry.go:83-86 | An id once in the registry stays. |
| `Registry.LastWritesAre` | remote_registry.go:85 | The entries are the last recorded ones by id, and an id is missing only if it was never recorded. |
| `Registry.RollbackIsBounded` | announce.go:133-136 | When a delivery replaces an entry, the new one was issued at most two windows before the old one, whatever they came from, as long as the receiver's clock does not run backwards. |
| `Registry.RollbackIffWithinTwoWindows` | remote_registry.go:83-86 | In every state that holds both sealings, some clock that does not run backwards lets the older announcement replace the newer one, if and only if they were sealed at most two windows apart. |
| `Registry.RollbackCanHappen` | remote_registry.go:83-86 | Such a run exists from the start, at one reading of the clock, for every two sealing times up to two windows apart. |
| `Registry.SealedIsRecorded` | announce.go:189-196 | A sealed announcement that no gate refuses is recorded in every state and any number of times within its window. |
| `Registry.AcceptedIsSealed` | announce.go:119-142 | What gets past the MAC, the window and the gates is the announcement of an earlier sealing. |
| `Registry.RemoteRegistry.Observe` | remote_registry.go:72-87 | The method refuses an announcement as unusable exactly when it names no instance, no category or no host and port, then exactly when the gate does not admit its address, and otherwise records its manifest, address and id under its id; nothing else changes. |
| `Registry.GatesComeLast` | remote_registry.go:64-82 | A message that does not open is reported with that error; only then the gates judge, and exactly when each of their refusals is reported. |
| `Registry.RemoteRegistry.Handle` | announce.go:189-196 | The handler of one message: at most one report, and the specified entries. |
| `Registry.RemoteRegistry.ByCategory` | remote_registry.go:89-100 | Exactly the entries of the category, each once, whatever the map order. |
| `Registry.RemoteRegistry.Watch` | announce.go:182-188 | A nil hook is refused before a missing key, and nothing else is. |
| `Registry.RemoteRegistry.constructor` | remote_registry.go:47-53 | The registry starts empty with the gate of the last option, and without a gate when there is none. |
| `Codec.ArgsRoundTrip` | codec.go:14-30 | What `encodeArgs` encodes, `decodeArgs` restores into destinations of the same types. |
| `Codec.ArityMustMatch` | codec.go:21-23 | A payload is refused for its length exactly when it is a tuple of another length, whatever it holds, and the refusal names both lengths; encoding keeps the number of values. |
| `Codec.UnmarshalMeans` | codec.go:12 | Decoding accepts exactly the JSON values of the variable's type, and null, which leaves it alone or sets a slice to nil. |
| `Codec.DecodeArgsMeans` | codec.go:16-30 | `decodeArgs` succeeds with exactly the values that the elements hold. |
| `Codec.DecodeArgsInto` | codec.go:16-30 | The loop over the destinations computes `DecodeArgs` in place; at a bad element the destinations before it hold the decoded values, the failing one may be filled in part, and those behind it are untouched. |
| `WireError.FindBudgetIsFirst` | wire_error.go:17-21 | The search returns the first budget error of the tree in pre-order, and none only if there is none. |
| `WireError.ErrorCrossesWire` | wire_error.go:17-48 | An error arrives exactly when its text is not empty, as its first budget error or as a remote error with its text. |
| `WireError.WireErrorsMean` | wire_error.go:17-48 | Whatever payload arrives with an error: a budget error exactly if it is of that kind and its data decodes, and otherwise the remote text; and what the sender writes. |
| `WireError.RelaysAreTransparent` | wire_error.go:17-48 | Two or more hops give what one gives if and only if what travels has a text; otherwise the error becomes success. |
| `PluginRouter.Router.Add` | plugin_router.go:64-72 | A port keeps its first skeleton, and a second registration is refused and changes nothing. A new skeleton gets the calls on its port, and calls on other ports are answered as before. |
| `PluginRouter.Router.Call` | plugin_router.go:76-84 | The call goes to the skeleton of its port and to no other; without one nothing changes and the error names the port. |
| `PluginRouter.RouteGoesByPort` | plugin_router.go:76-84 | A skeleton gets exactly the calls on its own port, whatever else is served. |
| `PluginClaims.OneRouterPerServer` | plugin_router.go:22-62 | In every run a server gets at most one router, a router of a live server keeps its claim, and the claim set is exactly the servers whose cleanup is due. |
| `PluginClaims.OnlyOwnCleanupFrees` | plugin_router.go:34-38 | In every run a claim, once made, lasts until the cleanup of its own server, which is dead by then. |
| `PluginClaims.CleanupIsFinal` | plugin_router.go:25-38 | In every run the cleanup of a server runs at most once, and afterwards the server has no claim and no waiting call, ever. |
| `PluginClaims.RefusedOnlyBySecondClaim` | plugin_router.go:22-32 | A call is refused exactly when another call of the same server was granted before. |
| `PluginClaims.Claims.Claim` | plugin_router.go:22-32 | A claim is granted once, a granted one registers one cleanup, and one cleanup stays due for each claimed server. |
| `RemoteMemory.RemoteIsLocal` | memory_proxy.go:23-80 | Over a reliable connection every session does to the world what a local session of the calls that have an encoding does. World and replies are the local ones, up to the wire image of errors, if and only if all arguments have an encoding and all replies carry. |
| `MemoryCalls.AtMostOnce` | memory_proxy.go:23-36 | Over any connection and for any number of concurrent calls, delayed, lost or given up: the world is that of a local session of the calls performed so far, each of which was issued, has an encoding and was performed once. |
| `MemoryCalls.RepliesAreReal` | memory_proxy.go:23-36 | A call whose reply arrived was performed, and its caller sees what the real memory replied at its place in that session, through the wire. |
| `MemoryCalls.RepliedComesFirst` | memory_proxy.go:28-35 | A call whose reply has arrived took effect before every call issued after that. |
| `MemoryCalls.OneAtATimeInOrder` | memory_proxy.go:23-36 | The calls of a caller that waits for each reply take effect in the order in which they were issued. |
| `MemoryCalls.SettledRunIsLocal` | memory_proxy.go:23-36 | When such a caller has every answer, the world is that of a local session of its calls that have an encoding. |
| `MemoryCalls.OvertakenIffPending` | memory_proxy.go:28-31 | In every run: some continuation lets a call that is yet to be issued take effect before a given call, if and only if the request of that call is still pending. |
| `MemoryCalls.CanBeOvertaken` | memory_proxy.go:28-31 | A pending request can take effect behind any call that is yet to be issued, even behind its answer. |
| `MemoryCalls.AbandonedCallCanComeLast` | memory_proxy.go:28-31 | In particular a call that was given up can take effect after a later call has been answered. |
| `RemoteMemory.RemoteCall` | memory_proxy.go:23-80 | One remote call on every input: lost request, lost reply, arguments without an encoding, and the reply through the wire. |
| `RemoteMemory.TransmitIsFaithful` | memory_skeleton.go:34-36 | The caller sees the real reply if and only if it carries; an error with an empty text reads as success for calls without a result. |
| `RemoteMemory.SkeletonReplays` | memory_skeleton.go:38-124 | The skeleton hands the real memory the very call the proxy encoded, argument by argument. |
| `RemoteMemory.EnvelopeReads` | memory_proxy.go:32-80 | What the proxy reads from the skeleton's envelope, for every reply. |
| `RemoteMemory.DispatchMeans` | memory_skeleton.go:38-124 | Every envelope either stands for one call of the real memory and is answered with its reply, or has no effect and never reads as success. |
| `RemoteMemory.ReadRequestsMean` | memory_skeleton.go:58-102 | Which envelopes stand for a `Recall` or a `Search`, and for which; null arguments are zero values. |
| `RemoteMemory.WriteRequestsMean` | memory_skeleton.go:77-124 | The same for `Record` and `Unlink`. |
| `RemoteMemory.LinksRequestsMean` | memory_skeleton.go:104-113 | The same for `Links`, with its three arguments in order. |
| `RemoteMemory.RefusalsMean` | memory_skeleton.go:38-124 | Every other envelope is refused without effect, and the answer names the port, the method, or why the tuple does not decode. |
| `RemoteMemory.CallsOnTheWire` | memory_proxy.go:23-80 | The requests that travel, element by element. |
| `RemoteMemory.RepliesOnTheWire` | memory_skeleton.go:34-124 | The answers that travel. |
| `RemoteMemory.AnswersMean` | memory_proxy.go:32-80 | What the caller makes of every answer: a call with a result succeeds exactly on a tuple of one element that decodes. |
| `RemoteMemory.ProxySendsAndReceives` | memory_proxy.go:23-80 | Each of the five proxy methods sends the request of its call and reads the answer by its own result type, and sends nothing when the arguments have no encoding. |
| `RemoteMemory.UnservedPortFails` | plugin_router.go:76-84 | Without a memory skeleton every call fails with the router's text and changes nothing. |
| `MemoryRelays.HostsAreTransparent` | memory_proxy.go:23-80 | In every session two or more hosts in a row leave the world that one leaves, and give the replies that one gives if and only if every reply of the real memory passes. |
| `MemoryRelays.ReplyBehind` | wire_error.go:17-48 | A reply is the same after one hop and after more if and only if it is no textless error of a call with a result, and no budget error without a text travels for it. |
| `MemoryRelays.CallBehind` | memory_skeleton.go:38-124 | Behind n hosts a call is performed once and its reply takes n hops; a call without an encoding is not performed. |
| `Directives.ClosingQuote` | tools/commentcheck/directives.go:111-121 | The first matching quote that no odd run of backslashes escapes; between backquotes plainly the first; -1 without one. |
| `Directives.DirectiveWords` | tools/commentcheck/directives.go:91-109 | The loop stays in bounds, terminates, and returns the words of the specification. |
| `Directives.WordsMean` | tools/commentcheck/directives.go:91-128 | A text is accepted, with certain words, if and only if it is a printing of them: legal words, only spaces around and between them, and some behind each bare one. So an unterminated quote, a bad escape or a word glued to a bare one is refused. |
| `Directives.PrintThenParse` | tools/commentcheck/directives.go:91-128 | Parsing undoes printing, for every list of words, any spaces around and between them, and every legal way to write each: bare, in backquotes, or in double quotes with any mixture of plain characters and one-letter, octal, hexadecimal and rune escapes. |
| `Directives.ParsedIsPrinted` | tools/commentcheck/directives.go:91-128 | Every accepted text is a printing of the words it gives. |
| `Directives.SpacesAre` | tools/commentcheck/directives.go:93-94 | The characters that count as spaces. |
| `Directives.EscapesAre` | tools/commentcheck/directives.go:127 | The one-letter escapes and what they stand for. |
| `Directives.EscapeReads` | tools/commentcheck/directives.go:127 | Every escape decodes to its bytes and ends where it was written to end. |
| `Utf8.EncodeInjective` | tools/commentcheck/directives.go:123-125 | Different texts are different words. |
| `Utf8.EncodeCharMeans` | tools/commentcheck/directives.go:123-125 | The bytes of a character are its shortest form in UTF-8. |
| `Directives.EveryListCanBeWritten` | tools/commentcheck/directives.go:91-128 | Every list of Go strings, of whatever bytes, can be written and read back. |
| `Directives.UnquoteShow` | tools/commentcheck/directives.go:123-128 | A legal word unquotes to itself in each of the three forms. |
| `Directives.IsFlagList` | tools/commentcheck/directives.go:156-167 | The skipping loop accepts exactly the lists in which every argument is a flag or follows a flag without an equals sign. |
| `Report.StraysUnder` | tools/commentcheck/main.go:133-173 | The lines are those of some sorting of everything collected: the quoted name, the line and the column unless the line is zero, and the reason. |
| `Report.ReportHoldsAll` | tools/commentcheck/main.go:133-139 | What is reported is what the walk found and every finding of every file of every directory, and as many as there are. |
| `Report.DeterministicIffDistinct` | tools/commentcheck/main.go:133-145 | All map orders and all sorts, stable or not, print the same lines if and only if no two of the collected findings share a position and differ in their reason. |
| `Report.SortIsUnique` | tools/commentcheck/main.go:140 | Without ties there is one sorted permutation. |
| `Report.CollectPermutes` | tools/commentcheck/main.go:133-139 | Another map order collects the same findings. |
| `Report.FindingsOrdered` | tools/commentcheck/main.go:175-183 | The comparison is antisymmetric and is zero exactly on equal positions. |
| `Report.FindingsByPosition` | tools/commentcheck/main.go:175-183 | One finding comes before another exactly by file name in lexicographic order, then line, then column. |
| `Report.FindingsTransitive` | tools/commentcheck/main.go:175-183 | The comparison is transitive, strictly if one side is strict. |

## Left out

- Connections, TLS, subjects and dialling (`dialConn`, `Dial*`, tls.go, subjects.go, proto/*.go): library wrappers; a connection is an abstract step.
- JSON text parsing (RFC 8259): payloads are the values they parse to; duplicate keys, case-insensitive field names, fractional numbers and invalid UTF-8 are not modelled.
- HMAC-SHA256, constant-time comparison, `ParseAnnounceKey` and key masking: the MAC is ideal and a usable key is any byte string.
- orchestrator_proxy.go and orchestrator_skeleton.go: they repeat the memory pair with fewer cases.
- Notices of errors.go: constant texts. The quoting of a port name inside an error text, and the texts of JSON errors, are simplified.
- Contexts and cancellation: a cancelled turn is one whose stream broke, and a cancelled memory call is one that was given up; that a context also reaches the real object is not modelled.
- `MemoryCalls.AtMostOnce`: each call of the real memory is one atomic step; what overlapping handlers do inside the real object is not part of this model.
- `VisitOrder.DescriptorsInDependencyOrder`: on a graph with a reachable import cycle, which protobuf refuses, the order of the files is not determined by the contract.
- Fairness: that a turn can always end is proved; that the scheduler and the network let it end is not stated.
- `PluginClaims`: the fatal exit of grpc on registration after `Serve` is not modelled.
- `HostPort.SplitHostPort` and the path functions model the standard library on Unix; symbolic links and case-insensitive file systems are not modelled.
- Directives that are not valid UTF-8: the Go parser refuses such a file before its comments are read.
- `Report.SortFindings`: the library sorts in place; here a method on values stands for it, and only its contract is used.
- `Report.Quoted`: escapes of the %q verb are not modelled.
- `outputFlagValues`, `splitDirective`, `isKnownDirective`, docs.go and comments.go: they depend on the Go syntax tree or are direct case splits.
- Walking directories, globbing, `declaredTools`, `moduleRoot`, running plugins, flags and exit codes: input and output, or one branch.
- A stateful allow function: the gate is a pure predicate on addresses.
