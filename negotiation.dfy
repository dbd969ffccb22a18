/**
 * The negotiation state machine of the page: the initial local offer created
 * when the module loads, and the transition run when a remote payload is
 * entered. The transition is defined first as a function of the state before
 * it (`AcceptRemote`); the handler `App.OnChange` is proved to compute it, and
 * the lemmas state what the transition promises.
 */
module Negotiation {
  import opened Wrappers
  import opened JsValues
  import opened PeerConnection
  import opened Gathering
  import opened Payload

  /** Why a negotiation step stopped: what the handler hands to `console.error`. */
  datatype Failure =
    | Invalid(reason: DecodeError)  // the payload did not parse or failed an assertion
    | Rejected(op: Op)              // the connection rejected an operation
    | GatherTimedOut                // gathering did not complete before the deadline

  /** The handler catches every failure: it always returns, with this outcome. */
  datatype Outcome = Done | Failed(failure: Failure)

  /** Everything the negotiation reads or changes: the connection's log and local description, and the page's state. */
  datatype Snapshot = Snapshot(log: seq<Op>, localDescription: Value, localOffer: Offer, remoteOffer: Option<Value>)

  datatype Step = Step(next: Snapshot, outcome: Outcome)

  /** The log of adding the candidates, and the candidate that was rejected, if any. */
  datatype Added = Added(log: seq<Op>, rejected: Option<Value>)

  /** One `AddCandidate` operation per candidate, in order. */
  function Adds(cs: seq<Value>): seq<Op>
  {
    seq(|cs|, i requires 0 <= i < |cs| => AddCandidate(cs[i]))
  }

  /** Each candidate is added after the previous one was accepted; the first rejection stops the loop. */
  function AddCandidates(b: Browser, log: seq<Op>, cs: seq<Value>): Added
    decreases |cs|
  {
    if cs == [] then Added(log, None)
    else if !b.accepts(log, AddCandidate(cs[0])) then Added(log + [AddCandidate(cs[0])], Some(cs[0]))
    else AddCandidates(b, log + [AddCandidate(cs[0])], cs[1..])
  }

  /** The browser accepts every candidate of cs when they are added one after another after log. */
  predicate AllAccepted(b: Browser, log: seq<Op>, cs: seq<Value>)
  {
    forall i :: 0 <= i < |cs| ==> b.accepts(log + Adds(cs[..i]), AddCandidate(cs[i]))
  }

  /** Gather the local candidates and publish them with the current local description. */
  function Publish(b: Browser, s: Snapshot): Step
  {
    var listening := s.(log := s.log + [Gather], localDescription := AfterGathering(b, s.log, s.localDescription));
    match Settlement(b.events(s.log))
    case Timeout => Step(listening, Failed(GatherTimedOut))
    case Resolved(cs) => Step(listening.(localOffer := Offer(listening.localDescription, cs)), Done)
  }

  /** The offer branch: describe the local side, add the remote candidates, then publish. */
  function RespondToOffer(b: Browser, s: Snapshot, cs: seq<Value>): Step
  {
    var issued := s.(log := s.log + [SetLocal]);
    if !b.accepts(s.log, SetLocal) then Step(issued, Failed(Rejected(SetLocal)))
    else
      var described := issued.(localDescription := b.describes(s.log));
      var added := AddCandidates(b, described.log, cs);
      if added.rejected.Some? then Step(described.(log := added.log), Failed(Rejected(AddCandidate(added.rejected.value))))
      else Publish(b, described.(log := added.log))
  }

  /** The transition run on a remote payload, given what `JSON.parse` made of its text. */
  function AcceptRemote(b: Browser, s: Snapshot, parsed: Option<Value>): Step
  {
    match Decode(parsed)
    case Failure(e) => Step(s, Failed(Invalid(e)))
    case Success(remote) =>
      var op := SetRemote(remote.description);
      var issued := s.(log := s.log + [op]);
      if !b.accepts(s.log, op) then Step(issued, Failed(Rejected(op)))
      else
        var recorded := issued.(remoteOffer := Some(remote.payload));
        if IsOfferType(remote.description) then RespondToOffer(b, recorded, remote.iceCandidates)
        else Step(recorded, Done)
  }

  /** The module's top-level code: describe the local side, gather, and build the first local offer. */
  function Boot(b: Browser): Result<Snapshot, Failure>
  {
    if !b.accepts([], SetLocal) then Failure(Rejected(SetLocal))
    else
      match Settlement(b.events([SetLocal]))
      case Timeout => Failure(GatherTimedOut)
      case Resolved(cs) =>
        var described := AfterGathering(b, [SetLocal], b.describes([]));
        Success(Snapshot([SetLocal, Gather], described, Offer(described, cs), None))
  }

  /** A sequence of remote payloads handled one after another. */
  function Run(b: Browser, s: Snapshot, inputs: seq<Option<Value>>): Snapshot
    decreases |inputs|
  {
    if inputs == [] then s else Run(b, AcceptRemote(b, s, inputs[0]).next, inputs[1..])
  }

  // ---------------------------------------------------------------------
  // Adding the remote candidates

  /** Issuing the first candidate and then a prefix of the rest is issuing a prefix of all. */
  lemma AddsShift(log: seq<Op>, cs: seq<Value>, k: nat)
    requires 0 < k <= |cs|
    ensures log + [AddCandidate(cs[0])] + Adds(cs[1..][..k - 1]) == log + Adds(cs[..k])
  {
  }

  /** All candidates accepted: the first one is, and so are the rest after it. */
  lemma AllAcceptedTail(b: Browser, log: seq<Op>, cs: seq<Value>)
    requires cs != [] && AllAccepted(b, log, cs)
    ensures b.accepts(log, AddCandidate(cs[0]))
    ensures AllAccepted(b, log + [AddCandidate(cs[0])], cs[1..])
  {
    assert cs[..0] == [] && log + Adds([]) == log;
    assert b.accepts(log + Adds(cs[..0]), AddCandidate(cs[0]));
    forall i | 0 <= i < |cs[1..]|
      ensures b.accepts(log + [AddCandidate(cs[0])] + Adds(cs[1..][..i]), AddCandidate(cs[1..][i]))
    {
      AddsShift(log, cs, i + 1);
      assert b.accepts(log + Adds(cs[..i + 1]), AddCandidate(cs[i + 1]));
    }
  }

  /** When every candidate is accepted, one `AddCandidate` per candidate is issued, in payload order, and none is reported rejected. */
  lemma {:induction false} AddCandidatesAllAccepted(b: Browser, log: seq<Op>, cs: seq<Value>)
    requires AllAccepted(b, log, cs)
    ensures AddCandidates(b, log, cs) == Added(log + Adds(cs), None)
    decreases |cs|
  {
    if cs != [] {
      AllAcceptedTail(b, log, cs);
      AddCandidatesAllAccepted(b, log + [AddCandidate(cs[0])], cs[1..]);
      AddsShift(log, cs, |cs|);
      assert cs[1..][..|cs| - 1] == cs[1..] && cs[..|cs|] == cs;
    }
  }

  /** The first rejected candidate stops the loop: the candidates before it and it are issued, none after it. */
  lemma {:induction false} AddCandidatesStopsAtRejection(b: Browser, log: seq<Op>, cs: seq<Value>, k: nat)
    requires k < |cs|
    requires AllAccepted(b, log, cs[..k])
    requires !b.accepts(log + Adds(cs[..k]), AddCandidate(cs[k]))
    ensures AddCandidates(b, log, cs) == Added(log + Adds(cs[..k + 1]), Some(cs[k]))
    decreases k
  {
    if k == 0 {
      assert cs[..0] == [] && log + Adds([]) == log;
      assert cs[..1] == [cs[0]];
      assert Adds([cs[0]]) == [AddCandidate(cs[0])];
    } else {
      AllAcceptedTail(b, log, cs[..k]);
      assert cs[..k][1..] == cs[1..][..k - 1];
      AddsShift(log, cs, k);
      assert cs[1..][k - 1] == cs[k];
      AddCandidatesStopsAtRejection(b, log + [AddCandidate(cs[0])], cs[1..], k - 1);
      AddsShift(log, cs, k + 1);
    }
  }

  /** Whatever the browser answers, the loop issues a prefix of the candidates, in payload order; all of them when none is rejected. */
  lemma {:induction false} AddCandidatesIssuesPrefix(b: Browser, log: seq<Op>, cs: seq<Value>) returns (k: nat)
    ensures k <= |cs|
    ensures AddCandidates(b, log, cs).log == log + Adds(cs[..k])
    ensures AddCandidates(b, log, cs).rejected.None? ==> k == |cs|
    ensures AddCandidates(b, log, cs).rejected.Some? ==> 0 < k && AddCandidates(b, log, cs).rejected == Some(cs[k - 1])
    decreases |cs|
  {
    if cs == [] {
      k := 0;
    } else if !b.accepts(log, AddCandidate(cs[0])) {
      k := 1;
      assert cs[..1] == [cs[0]];
      assert Adds([cs[0]]) == [AddCandidate(cs[0])];
    } else {
      var log' := log + [AddCandidate(cs[0])];
      var j := AddCandidatesIssuesPrefix(b, log', cs[1..]);
      k := j + 1;
      assert cs[1..][..j] == cs[1..k];
      assert log' + Adds(cs[1..k]) == log + Adds(cs[..k]);
    }
  }

  // ---------------------------------------------------------------------
  // What one transition promises

  /** A payload that does not parse or fails an assertion issues no operation and changes no state; the failure is reported, not propagated. */
  lemma RejectedPayloadIsInert(b: Browser, s: Snapshot, parsed: Option<Value>)
    requires Decode(parsed).Failure?
    ensures AcceptRemote(b, s, parsed) == Step(s, Failed(Invalid(Decode(parsed).error)))
  {
  }

  /**
   * `setRemoteDescription` is the first operation of every accepted payload,
   * and the remote offer is recorded only once the connection has accepted it.
   */
  lemma RemoteOfferRecordedAfterSetRemote(b: Browser, s: Snapshot, parsed: Option<Value>)
    requires Decode(parsed).Success?
    ensures |AcceptRemote(b, s, parsed).next.log| > |s.log|
    ensures AcceptRemote(b, s, parsed).next.log[..|s.log| + 1] == s.log + [SetRemote(Decode(parsed).value.description)]
    ensures AcceptRemote(b, s, parsed).next.remoteOffer
         == if b.accepts(s.log, SetRemote(Decode(parsed).value.description)) then parsed else s.remoteOffer
  {
    var remote := Decode(parsed).value;
    var step := AcceptRemote(b, s, parsed);
    var first := s.log + [SetRemote(remote.description)];
    if b.accepts(s.log, SetRemote(remote.description)) && IsOfferType(remote.description) {
      var recorded := s.(log := first, remoteOffer := Some(remote.payload));
      var described := recorded.(log := first + [SetLocal], localDescription := b.describes(first));
      if b.accepts(first, SetLocal) {
        var k := AddCandidatesIssuesPrefix(b, described.log, remote.iceCandidates);
      }
      assert step.next.log[..|s.log| + 1] == first;
    }
  }

  /** A payload whose description is not an offer issues `setRemoteDescription` alone and leaves the local side as it was. */
  lemma AnswerIssuesOnlySetRemote(b: Browser, s: Snapshot, parsed: Option<Value>)
    requires Decode(parsed).Success? && !IsOfferType(Decode(parsed).value.description)
    ensures AcceptRemote(b, s, parsed).next.log == s.log + [SetRemote(Decode(parsed).value.description)]
    ensures AcceptRemote(b, s, parsed).next.localDescription == s.localDescription
    ensures AcceptRemote(b, s, parsed).next.localOffer == s.localOffer
    ensures AcceptRemote(b, s, parsed).outcome
         == if b.accepts(s.log, SetRemote(Decode(parsed).value.description)) then Done
            else Failed(Rejected(SetRemote(Decode(parsed).value.description)))
  {
  }

  /**
   * An offer whose every step succeeds issues, in this order,
   * `setRemoteDescription`, `setLocalDescription`, one `addIceCandidate` per
   * payload candidate in payload order, and the gathering listener; and only
   * then replaces the local offer with the gathered candidates and the
   * description `setLocalDescription()` created, as the browser has updated
   * it by the end of gathering.
   */
  lemma OfferRoundLog(b: Browser, s: Snapshot, parsed: Option<Value>, gathered: seq<Value>)
    requires Decode(parsed).Success? && IsOfferType(Decode(parsed).value.description)
    requires var first := s.log + [SetRemote(Decode(parsed).value.description)];
      && b.accepts(s.log, SetRemote(Decode(parsed).value.description))
      && b.accepts(first, SetLocal)
      && AllAccepted(b, first + [SetLocal], Decode(parsed).value.iceCandidates)
      && Settlement(b.events(first + [SetLocal] + Adds(Decode(parsed).value.iceCandidates))) == Resolved(gathered)
    ensures var remote := Decode(parsed).value;
      var first := s.log + [SetRemote(remote.description)];
      var beforeGather := first + [SetLocal] + Adds(remote.iceCandidates);
      var published := AfterGathering(b, beforeGather, b.describes(first));
      AcceptRemote(b, s, parsed) == Step(
        Snapshot(beforeGather + [Gather], published, Offer(published, gathered), parsed),
        Done)
  {
    var remote := Decode(parsed).value;
    var first := s.log + [SetRemote(remote.description)];
    AddCandidatesAllAccepted(b, first + [SetLocal], remote.iceCandidates);
  }

  /** A failed transition never touches the local offer, even when the remote offer was already recorded. */
  lemma FailedRoundKeepsLocalOffer(b: Browser, s: Snapshot, parsed: Option<Value>)
    requires AcceptRemote(b, s, parsed).outcome.Failed?
    ensures AcceptRemote(b, s, parsed).next.localOffer == s.localOffer
  {
  }

  /** The local offer changes only in a completed offer round, and then to the new description with the candidates just gathered. */
  lemma LocalOfferReplacedOnlyByCompletedOffer(b: Browser, s: Snapshot, parsed: Option<Value>)
    requires AcceptRemote(b, s, parsed).next.localOffer != s.localOffer
    ensures AcceptRemote(b, s, parsed).outcome == Done
    ensures Decode(parsed).Success? && IsOfferType(Decode(parsed).value.description)
    ensures var next := AcceptRemote(b, s, parsed).next;
      && |next.log| > 0 && next.log[|next.log| - 1] == Gather
      && next.localOffer.description == next.localDescription
      && Settlement(b.events(next.log[..|next.log| - 1])) == Resolved(next.localOffer.iceCandidates)
  {
  }

  /**
   * The operations of one transition form one of these shapes, so that the
   * remote description is always applied before any remote candidate, every
   * candidate comes after the local description was created, the candidates
   * keep payload order, and the listener comes last:
   * nothing; `SetRemote`; `SetRemote, SetLocal, AddCandidate*`;
   * `SetRemote, SetLocal, AddCandidate(c) for every c, Gather`.
   */
  lemma RoundLogShape(b: Browser, s: Snapshot, parsed: Option<Value>) returns (k: nat)
    ensures var next := AcceptRemote(b, s, parsed).next;
      if Decode(parsed).Failure? then next.log == s.log
      else
        var remote := Decode(parsed).value;
        var first := s.log + [SetRemote(remote.description)];
        && k <= |remote.iceCandidates|
        && (|| next.log == first
            || next.log == first + [SetLocal] + Adds(remote.iceCandidates[..k])
            || (k == |remote.iceCandidates| && next.log == first + [SetLocal] + Adds(remote.iceCandidates) + [Gather]))
  {
    k := 0;
    if Decode(parsed).Success? {
      var remote := Decode(parsed).value;
      var first := s.log + [SetRemote(remote.description)];
      if b.accepts(s.log, SetRemote(remote.description)) && IsOfferType(remote.description) && b.accepts(first, SetLocal) {
        k := AddCandidatesIssuesPrefix(b, first + [SetLocal], remote.iceCandidates);
        if k == |remote.iceCandidates| {
          assert remote.iceCandidates[..k] == remote.iceCandidates;
        }
      }
    }
  }

  /** Handling payloads one after another only appends to the connection's log. */
  lemma {:induction false} RunExtendsLog(b: Browser, s: Snapshot, inputs: seq<Option<Value>>)
    ensures |Run(b, s, inputs).log| >= |s.log|
    ensures Run(b, s, inputs).log[..|s.log|] == s.log
    decreases |inputs|
  {
    if inputs != [] {
      var step := AcceptRemote(b, s, inputs[0]);
      var k := RoundLogShape(b, s, inputs[0]);
      assert |step.next.log| >= |s.log| && step.next.log[..|s.log|] == s.log;
      RunExtendsLog(b, step.next, inputs[1..]);
    }
  }

  /** The first local offer: created by `setLocalDescription()` and the gathering that follows it, with no remote offer yet. */
  lemma BootState(b: Browser)
    ensures Boot(b).Success? <==> b.accepts([], SetLocal) && Settlement(b.events([SetLocal])).Resolved?
    ensures Boot(b).Success? ==>
      && Boot(b).value.log == [SetLocal, Gather]
      && Boot(b).value.localDescription == AfterGathering(b, [SetLocal], b.describes([]))
      && Boot(b).value.localOffer == Offer(Boot(b).value.localDescription, Settlement(b.events([SetLocal])).candidates)
      && Boot(b).value.remoteOffer == None
  {
  }

  // ---------------------------------------------------------------------
  // The page

  class App {
    /** The one connection of the session, created when the module loads. */
    const connection: Connection
    /** `JSON.parse`, as a partial function: None where it throws. */
    const parse: string -> Option<Value>
    /** The offer shown for copying to the peer. */
    var localOffer: Offer
    /** The last remote payload the connection accepted; undefined at first. */
    var remoteOffer: Option<Value>

    constructor (connection: Connection, parse: string -> Option<Value>, localOffer: Offer)
      ensures this.connection == connection && this.parse == parse
      ensures this.localOffer == localOffer && remoteOffer == None
    {
      this.connection := connection;
      this.parse := parse;
      this.localOffer := localOffer;
      remoteOffer := None;
    }

    function State(): Snapshot
      reads this, connection
    {
      Snapshot(connection.log, connection.localDescription, localOffer, remoteOffer)
    }

    /**
     * The remote text area's `onChange` handler: validate the payload, apply
     * it, and when it is an offer answer it with a new local offer. Every
     * failure is caught and reported as the outcome.
     */
    method OnChange(text: string) returns (outcome: Outcome)
      modifies this, connection
      ensures State() == AcceptRemote(connection.browser, old(State()), parse(text)).next
      ensures outcome == AcceptRemote(connection.browser, old(State()), parse(text)).outcome
    {
      var decoded := Decode(parse(text));
      if decoded.Failure? {
        return Failed(Invalid(decoded.error));
      }
      var remote := decoded.value;
      var ok := connection.SetRemoteDescription(remote.description);
      if !ok {
        return Failed(Rejected(SetRemote(remote.description)));
      }
      remoteOffer := Some(remote.payload);
      if IsOfferType(remote.description) {
        ok := connection.SetLocalDescription();
        if !ok {
          return Failed(Rejected(SetLocal));
        }
        ghost var start := connection.log;
        ghost var description := connection.localDescription;
        var cs := remote.iceCandidates;
        var i := 0;
        while i < |cs|
          invariant 0 <= i <= |cs|
          invariant AddCandidates(connection.browser, connection.log, cs[i..]) == AddCandidates(connection.browser, start, cs)
          invariant connection.localDescription == description
          modifies connection
        {
          assert cs[i..][1..] == cs[i + 1..];
          ok := connection.AddIceCandidate(cs[i]);
          if !ok {
            return Failed(Rejected(AddCandidate(cs[i])));
          }
          i := i + 1;
        }
        var gathered := GatherIceCandidates(connection);
        if gathered.Timeout? {
          return Failed(GatherTimedOut);
        }
        localOffer := Offer(connection.localDescription, gathered.candidates);
      }
      return Done;
    }
  }

  /**
   * The module's top-level code: create the connection, describe the local
   * side, gather, and mount the page with the first local offer. A failure
   * here is not caught: the page is never mounted.
   */
  method Launch(browser: Browser, parse: string -> Option<Value>) returns (r: Result<App, Failure>)
    ensures r.Success? <==> Boot(browser).Success?
    ensures r.Failure? ==> Boot(browser) == Failure(r.error)
    ensures r.Success? ==>
      && fresh(r.value) && fresh(r.value.connection)
      && r.value.connection.browser == browser && r.value.parse == parse
      && r.value.State() == Boot(browser).value
  {
    var connection := new Connection(browser);
    var ok := connection.SetLocalDescription();
    if !ok {
      return Failure(Rejected(SetLocal));
    }
    assert connection.log == [SetLocal];
    var gathered := GatherIceCandidates(connection);
    if gathered.Timeout? {
      return Failure(GatherTimedOut);
    }
    var app := new App(connection, parse, Offer(connection.localDescription, gathered.candidates));
    return Success(app);
  }
}
