/**
 * Candidate gathering: the listener collects every non-null candidate it
 * receives and settles the result at the first event that arrives while the
 * gathering state is "complete"; a deadline rejects the result when no such
 * event arrives. Over a finite trace of events, "the deadline passes first"
 * is "the trace holds no complete event".
 */
module Gathering {
  import opened Wrappers
  import opened JsValues
  import opened PeerConnection

  /**
   * What the gathering promise settles to. `Timeout` stands for the
   * rejection with the error "Gather ICE candidates timeout" that the
   * 1000 ms timer raises.
   */
  datatype Gathered = Resolved(candidates: seq<Value>) | Timeout

  /** What one event appends to the listener's list. */
  function Pushed(e: IceEvent): seq<Value>
  {
    if e.candidate != Null then [e.candidate] else []
  }

  /** The non-null candidates of a trace, in arrival order. */
  function NonNull(events: seq<IceEvent>): seq<Value>
  {
    if events == [] then [] else Pushed(events[0]) + NonNull(events[1..])
  }

  /**
   * Every candidate returned was carried by some event: null end-of-candidates
   * markers are never appended, and nothing is invented.
   */
  lemma {:induction false} NonNullReceived(events: seq<IceEvent>, c: Value)
    requires c in NonNull(events)
    ensures c != Null
    ensures exists i :: 0 <= i < |events| && events[i].candidate == c
  {
    if c !in Pushed(events[0]) {
      NonNullReceived(events[1..], c);
      var i :| 0 <= i < |events[1..]| && events[1..][i].candidate == c;
      assert events[i + 1].candidate == c;
    }
  }

  /** Event k is the first one seen with the gathering state "complete". */
  predicate FirstCompleteAt(events: seq<IceEvent>, k: int)
  {
    && 0 <= k < |events|
    && events[k].gatheringState == Complete
    && forall j :: 0 <= j < k ==> events[j].gatheringState != Complete
  }

  /** No event of the trace is seen with the gathering state "complete". */
  predicate NeverComplete(events: seq<IceEvent>)
  {
    forall j :: 0 <= j < |events| ==> events[j].gatheringState != Complete
  }

  /**
   * The settlement of the gathering promise, event by event: the first
   * complete event resolves it with what has been pushed so far, including
   * its own candidate; without one, the deadline rejects it.
   */
  function Settlement(events: seq<IceEvent>): Gathered
  {
    if events == [] then Timeout
    else if events[0].gatheringState == Complete then Resolved(Pushed(events[0]))
    else
      match Settlement(events[1..])
      case Timeout => Timeout
      case Resolved(cs) => Resolved(Pushed(events[0]) + cs)
  }

  lemma {:induction false} NonNullAppend(a: seq<IceEvent>, b: seq<IceEvent>)
    ensures NonNull(a + b) == NonNull(a) + NonNull(b)
  {
    if a == [] {
      assert a + b == b;
    } else {
      assert (a + b)[1..] == a[1..] + b;
      NonNullAppend(a[1..], b);
    }
  }

  /** The deadline rejects exactly when no complete event arrives. */
  lemma {:induction false} TimeoutIffNeverComplete(events: seq<IceEvent>)
    ensures Settlement(events) == Timeout <==> NeverComplete(events)
  {
    if events != [] {
      TimeoutIffNeverComplete(events[1..]);
      if NeverComplete(events[1..]) && events[0].gatheringState != Complete {
        forall j | 0 <= j < |events| ensures events[j].gatheringState != Complete {
          if j > 0 { assert events[j] == events[1..][j - 1]; }
        }
      }
      if NeverComplete(events) {
        forall j | 0 <= j < |events[1..]| ensures events[1..][j].gatheringState != Complete {
          assert events[1..][j] == events[j + 1];
        }
      }
    }
  }

  /**
   * The promise resolves at the first complete event with exactly the
   * non-null candidates received up to and including that event, in
   * arrival order.
   */
  lemma {:induction false} ResolvesAtFirstComplete(events: seq<IceEvent>, k: int)
    requires FirstCompleteAt(events, k)
    ensures Settlement(events) == Resolved(NonNull(events[..k + 1]))
  {
    if k == 0 {
      assert events[..1][1..] == [];
    } else {
      assert FirstCompleteAt(events[1..], k - 1) by {
        forall j | 0 <= j < k - 1 ensures events[1..][j].gatheringState != Complete {
          assert events[1..][j] == events[j + 1];
        }
      }
      ResolvesAtFirstComplete(events[1..], k - 1);
      assert events[..k + 1][1..] == events[1..][..k];
    }
  }

  /** A candidate carried by the completing event itself is the last one returned. */
  lemma CompletingCandidateIncluded(events: seq<IceEvent>, k: int)
    requires FirstCompleteAt(events, k) && events[k].candidate != Null
    ensures Settlement(events).Resolved?
    ensures |Settlement(events).candidates| > 0
    ensures Settlement(events).candidates[|Settlement(events).candidates| - 1] == events[k].candidate
  {
    ResolvesAtFirstComplete(events, k);
    assert events[..k + 1] == events[..k] + [events[k]];
    NonNullAppend(events[..k], [events[k]]);
    assert [events[k]][1..] == [];
  }

  /** Once settled, later events do not change the result: the first settlement wins. */
  lemma {:induction false} LaterEventsIgnored(events: seq<IceEvent>, later: seq<IceEvent>)
    requires Settlement(events).Resolved?
    ensures Settlement(events + later) == Settlement(events)
  {
    assert events != [];
    assert (events + later)[0] == events[0];
    if events[0].gatheringState != Complete {
      assert (events + later)[1..] == events[1..] + later;
      LaterEventsIgnored(events[1..], later);
    }
  }

  /**
   * `gatherICECandidates(connection)`: adds the listener, folds the events it
   * receives into a list and settles at the first complete event.
   */
  method GatherIceCandidates(connection: Connection) returns (r: Gathered)
    modifies connection
    ensures connection.log == old(connection.log) + [Gather]
    ensures connection.localDescription
         == AfterGathering(connection.browser, old(connection.log), old(connection.localDescription))
    ensures r == Settlement(connection.browser.events(old(connection.log)))
  {
    var events := connection.ListenForIceCandidates();
    var candidates: seq<Value> := [];
    var i := 0;
    while i < |events|
      invariant 0 <= i <= |events|
      invariant candidates == NonNull(events[..i])
      invariant forall j :: 0 <= j < i ==> events[j].gatheringState != Complete
      modifies {}
    {
      var e := events[i];
      assert events[..i + 1] == events[..i] + [e];
      NonNullAppend(events[..i], [e]);
      assert [e][1..] == [];
      if e.candidate != Null {
        candidates := candidates + [e.candidate];
      }
      if e.gatheringState == Complete {
        ResolvesAtFirstComplete(events, i);
        return Resolved(candidates);
      }
      i := i + 1;
    }
    TimeoutIffNeverComplete(events);
    return Timeout;
  }
}
