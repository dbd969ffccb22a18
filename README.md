# Serverless peer-to-peer negotiation, modelled in Dafny

The page sets up a WebRTC data channel between two browsers without a
signalling server. Each side shows its own *offer* (a session description plus
the ICE candidates gathered for it) as text. A person copies that text into
the other side's remote text area. The negotiation logic of `src/App.tsx` has
three parts, and this project models all three:

- **Candidate gathering** (`gatherICECandidates`). It listens for
  `icecandidate` events and appends each non-null candidate to a list. The
  promise resolves with that list at the first event seen while
  `iceGatheringState` is `"complete"`. A 1000 ms timer rejects it otherwise.
- **Remote payload validation**. `JSON.parse` runs first, then three
  `assert`s: the value is truthy; `description` is truthy with `typeof`
  `"object"`; and `iceCandidates` is an array.
- **The accept-remote transition** (the remote text area's `onChange`), plus
  the module's top-level code that builds the first local offer. The handler
  applies the remote description and records the remote offer. When the
  description's `type` is `"offer"`, it then creates a local description,
  adds the remote candidates one at a time, gathers, and replaces the local
  offer. It catches every failure.

Files, one module each:

- `wrappers.dfy`: `Option` and `Result`.
- `values.dfy` (module `JsValues`): the JavaScript values that `JSON.parse`
  produces, plus `undefined`. Also truthiness, `typeof`, `Array.isArray`,
  property reads and `&&`.
- `connection.dfy` (module `PeerConnection`): the browser's
  `RTCPeerConnection`, abstracted.
  - The connection's internals are a `Browser` value of four functions of
    the operation history. They say:
    - whether the next operation is accepted;
    - which description `setLocalDescription()` creates;
    - which `icecandidate` events a newly added listener receives before
      the deadline;
    - what `localDescription` has become by the end of a gathering window.
  - The `Connection` class keeps an append-only `log` of the operations
    issued to it (`SetRemote(d)`, `SetLocal`, `AddCandidate(c)`, `Gather`)
    and its `localDescription`.
- `gathering.dfy` (module `Gathering`): `Settlement`, the reference
  definition of what the gathering promise settles to. `GatherIceCandidates`
  is the listener's fold written as a loop, proved to compute `Settlement`.
- `payload.dfy` (module `Payload`): the `Offer` type, `Decode` (the parse and
  the asserts), and a structural description of the payloads it accepts.
- `negotiation.dfy` (module `Negotiation`):
  - `AcceptRemote` is the transition, written as a function of the state
    before it.
  - `Boot` is the initial state.
  - Class `App` has the handler `OnChange`, proved to compute `AcceptRemote`.
    `Launch` is the top-level code, proved to compute `Boot`.
  - The lemmas state the ordering, branching and "nothing else changes"
    properties.

Abstracted or taken as parameters:

- `JSON.parse` is the `parse` field of `App`, a function from text to
  `Option<Value>`, where `None` means it throws.
- The browser's answers are the `Browser` functions.
  - `events(log)` gives the events a listener added after `log` receives. In
    the offer branch the listener is added only after the `addIceCandidate`
    loop (src/App.tsx:93-96). Events the browser fires while those awaits are
    pending never reach it, possibly including the `"complete"` one. A trace
    without that event then times out, and `events` can express this.
  - `annotates(log, d)` gives what `localDescription` has become by the end
    of a gathering window that starts after `log` with description `d`. The
    browser writes each candidate it surfaces, and the end-of-candidates
    marker, into the pending local description. So the description
    published at src/App.tsx:15 and :98, read after gathering, is the
    created one as updated during gathering. While no description is set,
    it stays null.
  - `SetRemoteDescription` leaves `localDescription` unchanged. In the
    browser, applying a remote offer while a local offer is pending rolls
    the local description back. The code never reads `localDescription`
    between `setRemoteDescription` and the next `setLocalDescription()`
    (src/App.tsx:88-92), which replaces it; the read at :98 comes after
    that. So the model does not record the rollback.
- The timer becomes the finite trace of events: "the deadline fires first"
  means "no event of the trace shows `"complete"`".
- `console.error` becomes the `Outcome` that `OnChange` returns.

Behaviour of the code a reader might not expect. The model follows the code
in each case:

- In the offer branch the code calls `setLocalDescription()` before adding
  the remote candidates (src/App.tsx:91-95), not after.
- When the remote description is not an offer (an answer), the code adds
  none of the payload's candidates (src/App.tsx:91).
- `typeof [] === "object"`, so a payload whose `description` is an array
  passes validation (src/App.tsx:85). The model's `WellFormed` admits
  arrays there.
- A payload that fails to parse or fails an assertion leaves `remoteOffer`
  as it was. Nothing resets it (src/App.tsx:102-104).
- There is no in-flight guard: a second `onChange` is not rejected.
- The gathering listener is never removed (src/App.tsx:151).

## Model

| member | source | states |
|---|---|---|
| `JsValues.TypeOf` | src/App.tsx:85 | `typeof` is "object" exactly for null, arrays and objects |
| `JsValues.Truthy` | src/App.tsx:166 | reference definition of JS truthiness (what `assert` tests); `DecodeAcceptsExactlyWellFormed` characterises its use in the three checks |
| `JsValues.Get` | src/App.tsx:84-91 | reference definition of a property read (`remoteOffer.description`, `.iceCandidates`, `description.type`); characterised through `DecodeAcceptsExactlyWellFormed` and `IsOfferType` |
| `JsValues.IsArray` | src/App.tsx:86 | reference definition of `Array.isArray`; characterised with the other checks by `DecodeAcceptsExactlyWellFormed` |
| `JsValues.And` | src/App.tsx:85 | `x && y` is truthy iff both operands are, and is `x` when `x` is falsy |
| `PeerConnection.Connection.constructor` | src/App.tsx:113-116 | a new connection has issued nothing and has a null local description |
| `PeerConnection.Connection.SetLocalDescription` | src/App.tsx:92 | appends `SetLocal` to the log; on success the local description becomes the one the browser creates, otherwise it is unchanged |
| `PeerConnection.Connection.SetRemoteDescription` | src/App.tsx:88 | appends `SetRemote(d)`; success is the browser's answer; the local description is unchanged |
| `PeerConnection.Connection.AddIceCandidate` | src/App.tsx:94 | appends `AddCandidate(c)`; success is the browser's answer; the local description is unchanged |
| `PeerConnection.Connection.ListenForIceCandidates` | src/App.tsx:151 | appends `Gather`, yields the events the new listener receives, and leaves `localDescription` as the browser has updated it by the end of gathering (null stays null) |
| `Gathering.Pushed` | src/App.tsx:152-154 | what one event appends: its candidate unless it is null; characterised by `NonNullReceived` and `ResolvesAtFirstComplete` |
| `Gathering.Settlement` | src/App.tsx:147-163 | reference definition of what the gathering promise settles to; characterised by `TimeoutIffNeverComplete`, `ResolvesAtFirstComplete`, `CompletingCandidateIncluded` and `LaterEventsIgnored`, and computed by `GatherIceCandidates` |
| `Gathering.NonNullReceived` | src/App.tsx:152-154 | every returned candidate is non-null and was carried by a received event: null end markers are never appended |
| `Gathering.TimeoutIffNeverComplete` | src/App.tsx:156-161 | gathering times out exactly when no event shows the state "complete" |
| `Gathering.ResolvesAtFirstComplete` | src/App.tsx:149-158 | gathering resolves at the first complete event with exactly the non-null candidates up to and including that event, in arrival order |
| `Gathering.CompletingCandidateIncluded` | src/App.tsx:152-157 | a candidate carried by the completing event itself is the last one returned, because the push precedes the check |
| `Gathering.LaterEventsIgnored` | src/App.tsx:156-158 | once resolved, events after the settling one do not change the result (the first settlement wins) |
| `Gathering.GatherIceCandidates` | src/App.tsx:147-163 | the loop settles to `Settlement` of the received events; the log gains only `Gather`; the local description becomes the browser's post-gathering update of it |
| `Payload.Decode` | src/App.tsx:83-86 | a syntax error exactly when parsing fails; on success the result carries the parsed value, its `description` and the items of its `iceCandidates` array |
| `Payload.IsOfferType` | src/App.tsx:91 | reference definition of the branch test `description.type === "offer"`; the branch it selects is characterised by `OfferRoundLog` and `AnswerIssuesOnlySetRemote` |
| `Payload.DecodeAcceptsExactlyWellFormed` | src/App.tsx:165-169 | since `assert` throws iff its argument is falsy, a payload is accepted iff it parses to an object whose `description` is an object or array and whose `iceCandidates` is an array |
| `Negotiation.AddCandidates` | src/App.tsx:93-95 | reference definition of the candidate loop, stopping at the first rejection; characterised by `AddCandidatesAllAccepted`, `AddCandidatesStopsAtRejection` and `AddCandidatesIssuesPrefix`, and computed by the loop in `App.OnChange` |
| `Negotiation.Publish` | src/App.tsx:96-100 | reference definition of gathering and then replacing the local offer with the post-gathering local description and the gathered candidates; characterised by `OfferRoundLog` and `LocalOfferReplacedOnlyByCompletedOffer` |
| `Negotiation.RespondToOffer` | src/App.tsx:91-100 | reference definition of the offer branch; characterised by `OfferRoundLog`, `RoundLogShape` and `FailedRoundKeepsLocalOffer` |
| `Negotiation.AcceptRemote` | src/App.tsx:81-105 | reference definition of the whole transition; characterised by the lemmas `RejectedPayloadIsInert` to `RunExtendsLog`, and computed by `App.OnChange` |
| `Negotiation.Boot` | src/App.tsx:8-18 | reference definition of start-up; characterised by `BootState` and computed by `Launch` |
| `Negotiation.AddCandidatesAllAccepted` | src/App.tsx:93-95 | when every candidate is accepted, one `AddCandidate` per payload candidate is issued, in payload order, and none is rejected |
| `Negotiation.AddCandidatesStopsAtRejection` | src/App.tsx:93-95 | the first rejected candidate is the last one issued; no later candidate is issued |
| `Negotiation.AddCandidatesIssuesPrefix` | src/App.tsx:93-95 | for any browser, the loop issues a prefix of the candidates in order, all of them when none is rejected, and the rejected one is the last issued |
| `Negotiation.RejectedPayloadIsInert` | src/App.tsx:82-86 | a payload that fails parsing or an assertion issues no operation, changes no state, and the failure is returned, not propagated |
| `Negotiation.RemoteOfferRecordedAfterSetRemote` | src/App.tsx:88-89 | `SetRemote` is the first operation for every accepted payload; `remoteOffer` becomes the payload iff the connection accepted it, and is unchanged otherwise |
| `Negotiation.AnswerIssuesOnlySetRemote` | src/App.tsx:88-101 | a non-offer description issues only `SetRemote`, with no `SetLocal`, `AddCandidate` or `Gather`, and leaves the local description and local offer unchanged |
| `Negotiation.OfferRoundLog` | src/App.tsx:91-100 | a fully successful offer round logs `SetRemote`, `SetLocal`, one `AddCandidate` per payload candidate in order, then `Gather`, and only then replaces the local offer with the gathered candidates and the created description as the browser updated it during gathering |
| `Negotiation.FailedRoundKeepsLocalOffer` | src/App.tsx:89-104 | any failure, including one after `SetRemote` succeeded, leaves the local offer unchanged |
| `Negotiation.LocalOfferReplacedOnlyByCompletedOffer` | src/App.tsx:96-100 | the local offer changes only in a completed offer round, and then to the current local description with the candidates that gathering just resolved |
| `Negotiation.RoundLogShape` | src/App.tsx:88-100 | each round's operations are one of: nothing; `SetRemote`; `SetRemote, SetLocal` plus a prefix of the candidates; or `SetRemote, SetLocal`, all candidates, then `Gather` |
| `Negotiation.RunExtendsLog` | src/App.tsx:81-105 | handling payloads one after another only appends to the connection's log |
| `Negotiation.BootState` | src/App.tsx:8-18 | start-up succeeds iff `setLocalDescription()` is accepted and gathering resolves; it logs `SetLocal, Gather`, builds the local offer from the gathered candidates and the created description as updated during gathering, and has no remote offer |
| `Negotiation.App.constructor` | src/App.tsx:14-18 | the page starts with the given local offer and no remote offer |
| `Negotiation.App.OnChange` | src/App.tsx:81-105 | the handler's new state and reported outcome are those of `AcceptRemote` on the state before it; it always returns normally |
| `Negotiation.Launch` | src/App.tsx:8-18 | the top-level code succeeds iff `Boot` does, fails with `Boot`'s failure, and otherwise mounts a page on a fresh connection whose state is `Boot`'s |

## Left out

- Rendering: the text areas, `JSON.stringify` display, and hiding the UI once a channel exists (src/App.tsx:49-110). These are presentation only.
- `createConnection`: the STUN server configuration, the logging listeners and `createDataChannel("chat")` (src/App.tsx:113-145). These are foreign-API setup with no logic; the model's connection starts with an empty log.
- The data channel effects (src/App.tsx:19-47). They only store the inbound channel and log its events.
- `RTCPeerConnection` semantics (SDP, ICE). They are behind the `Browser` functions. Only `setLocalDescription()` and gathering change `localDescription` in the model.
- `JSON.parse` internals. `parse` is an arbitrary function, so it may also return values that real JSON text cannot denote (such as `undefined` inside an object). Every lemma holds for any `parse`.
- Numbers are reals, and `parse` may map a numeric literal to any real. `JSON.parse` rounds out-of-range literals to `Infinity` or `0`, and this changes no check's outcome. A top-level number fails an assertion whether it is truthy or not, because a number has no `description`. A number as `description` fails the `typeof` check, and a number as `iceCandidates` fails the array check. No check reads a number nested deeper.
- Timers, promises and the interleaving of asynchronous handlers. The steps are sequential. A second `onChange` that starts while one is pending is not modelled.
- The listener that `gatherICECandidates` never removes. In the browser, a later gathering round also runs every earlier listener, and each of those keeps pushing into the array it already resolved with. The model treats each resolved list as a value fixed at settlement, so it does not capture that aliasing.
- The error objects themselves (`SyntaxError`, the message-less `Error` of `assert`, the browser's rejection, "Gather ICE candidates timeout"). They reduce to the `Failure` kinds.
- `src/main.tsx` (error telemetry init and React mounting) and `vite.config.ts` (build configuration).
