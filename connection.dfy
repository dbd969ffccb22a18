/**
 * The browser's peer connection, seen from the negotiation code: an object
 * that accepts or rejects the operations issued to it, keeps the local
 * description it last created, as the browser updates it while gathering,
 * and delivers "icecandidate" events to a listener. Its internals are unknown; the model makes every answer it gives
 * a function of the operations issued so far.
 */
module PeerConnection {
  import opened JsValues

  /** The operations the negotiation code issues, in the order it issues them. */
  datatype Op =
    | SetRemote(description: Value)   // setRemoteDescription(description)
    | SetLocal                        // setLocalDescription()
    | AddCandidate(candidate: Value)  // addIceCandidate(candidate)
    | Gather                          // addEventListener("icecandidate", ...)

  /** The values of `iceGatheringState`. */
  datatype GatheringState = New | Gathering | Complete

  /**
   * One "icecandidate" event: its `candidate` (JS null for the end-of-candidates
   * marker) and the connection's gathering state when the listener runs.
   */
  datatype IceEvent = IceEvent(candidate: Value, gatheringState: GatheringState)

  /**
   * How the browser answers, given the operations issued before:
   * whether it accepts (resolves) the next operation, which description
   * `setLocalDescription()` creates, which events a listener added now
   * receives before the gathering deadline, and what the local description
   * has become by the end of that window: the browser writes every
   * candidate it surfaces, and the end-of-candidates marker, into the
   * pending local description.
   */
  datatype Browser = Browser(
    accepts: (seq<Op>, Op) -> bool,
    describes: seq<Op> -> Value,
    events: seq<Op> -> seq<IceEvent>,
    annotates: (seq<Op>, Value) -> Value)

  /**
   * `localDescription` at the end of a gathering window that starts after
   * log with description d; nothing is gathered while no description is set.
   */
  function AfterGathering(b: Browser, log: seq<Op>, d: Value): Value
  {
    if d == Null then Null else b.annotates(log, d)
  }

  class Connection {
    const browser: Browser
    /** Every operation issued to this connection, oldest first. */
    var log: seq<Op>
    /** `connection.localDescription`: null until a description is set. */
    var localDescription: Value

    constructor (browser: Browser)
      ensures this.browser == browser
      ensures log == [] && localDescription == Null
    {
      this.browser := browser;
      log := [];
      localDescription := Null;
    }

    /** `await connection.setLocalDescription()`; ok is false when it rejects. */
    method SetLocalDescription() returns (ok: bool)
      modifies this
      ensures log == old(log) + [SetLocal]
      ensures ok == browser.accepts(old(log), SetLocal)
      ensures localDescription == if ok then browser.describes(old(log)) else old(localDescription)
    {
      ok := browser.accepts(log, SetLocal);
      if ok {
        localDescription := browser.describes(log);
      }
      log := log + [SetLocal];
    }

    /** `await connection.setRemoteDescription(description)` */
    method SetRemoteDescription(description: Value) returns (ok: bool)
      modifies this
      ensures log == old(log) + [SetRemote(description)]
      ensures ok == browser.accepts(old(log), SetRemote(description))
      ensures localDescription == old(localDescription)
    {
      ok := browser.accepts(log, SetRemote(description));
      log := log + [SetRemote(description)];
    }

    /** `await connection.addIceCandidate(candidate)` */
    method AddIceCandidate(candidate: Value) returns (ok: bool)
      modifies this
      ensures log == old(log) + [AddCandidate(candidate)]
      ensures ok == browser.accepts(old(log), AddCandidate(candidate))
      ensures localDescription == old(localDescription)
    {
      ok := browser.accepts(log, AddCandidate(candidate));
      log := log + [AddCandidate(candidate)];
    }

    /**
     * `addEventListener("icecandidate", ...)`: the events the new listener
     * receives, in dispatch order, before the gathering deadline passes.
     */
    method ListenForIceCandidates() returns (events: seq<IceEvent>)
      modifies this
      ensures log == old(log) + [Gather]
      ensures events == browser.events(old(log))
      ensures localDescription == AfterGathering(browser, old(log), old(localDescription))
    {
      events := browser.events(log);
      localDescription := AfterGathering(browser, log, localDescription);
      log := log + [Gather];
    }
  }
}
