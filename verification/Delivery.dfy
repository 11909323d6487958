/**
 * Out-of-order delivery callbacks: AdvanceDelivery and its precedence
 * (internal/notifications/dispatch.go) and the current state that a sequence of
 * callbacks leaves behind (ApplyDeliveryStatus, internal/adapter/postgres/notifications.go).
 */
module Delivery {
  import opened Wrappers

  datatype DeliveryStatus = UnknownStatus | Accepted | Sent | Delivered | Read | Failed

  /** Current state or callback: a canonical status with an optional timestamp. */
  datatype Stamp = Stamp(status: DeliveryStatus, at: Option<int>)

  function DeliveryPrecedence(status: DeliveryStatus): nat {
    match status
    case Accepted => 1
    case Sent => 2
    case Delivered => 3
    case Read => 4
    case Failed => 5
    case UnknownStatus => 0
  }

  predicate AdvanceDelivery(current: Stamp, event: Stamp) {
    if event.status == UnknownStatus then false
    else if event.at.None? then false
    else if current.status == Accepted then true
    else if current.at.None? then true
    else if event.at.value > current.at.value then true
    else event.at.value == current.at.value && DeliveryPrecedence(event.status) > DeliveryPrecedence(current.status)
  }

  function ApplyDeliveryStatus(current: Stamp, event: Stamp): Stamp {
    if AdvanceDelivery(current, event) then event else current
  }

  /** The state after callbacks, from the baseline that acceptance wrote. */
  function Current(baseline: int, events: seq<Stamp>): Stamp {
    if events == [] then Stamp(Accepted, Some(baseline))
    else ApplyDeliveryStatus(Current(baseline, events[..|events| - 1]), events[|events| - 1])
  }

  // ---- The order of provider evidence ----

  /** A timestamped SENT, DELIVERED, READ or FAILED callback. */
  predicate Evidence(e: Stamp) {
    e.at.Some? && e.status != UnknownStatus && e.status != Accepted
  }

  /** A timestamped callback that says ACCEPTED again. */
  predicate Reaccepts(e: Stamp) {
    e.at.Some? && e.status == Accepted
  }

  /** By timestamp, then by precedence. */
  predicate AtMost(e: Stamp, m: Stamp)
    requires e.at.Some? && m.at.Some?
  {
    e.at.value < m.at.value || (e.at == m.at && DeliveryPrecedence(e.status) <= DeliveryPrecedence(m.status))
  }

  ghost predicate IsLatest(m: Stamp, events: seq<Stamp>) {
    m in events && Evidence(m) && forall e | e in events && Evidence(e) :: AtMost(e, m)
  }

  /** The callbacks contain evidence and none of them says ACCEPTED at a later time than all of it. */
  ghost predicate SettlesOn(m: Stamp, events: seq<Stamp>) {
    IsLatest(m, events) && forall e | e in events && Reaccepts(e) :: e.at.value <= m.at.value
  }

  lemma {:induction false} LatestExists(events: seq<Stamp>) returns (m: Stamp)
    requires exists e | e in events :: Evidence(e)
    ensures IsLatest(m, events)
  {
    var k := |events| - 1;
    assert events == events[..k] + [events[k]];
    if exists e | e in events[..k] :: Evidence(e) {
      m := LatestExists(events[..k]);
      if Evidence(events[k]) && !AtMost(events[k], m) {
        m := events[k];
      }
    } else {
      m := events[k];
    }
  }

  /** Current state is the baseline, a repeated acceptance, or some evidence received. */
  lemma {:induction false} CurrentIsReceived(baseline: int, events: seq<Stamp>)
    ensures var c := Current(baseline, events);
      c.at.Some? && (c.status == Accepted || (Evidence(c) && c in events))
    ensures var c := Current(baseline, events);
      c.status == Accepted ==> c == Stamp(Accepted, Some(baseline)) || c in events
  {
    if events != [] {
      CurrentIsReceived(baseline, events[..|events| - 1]);
    }
  }

  /** Once the latest evidence has arrived it stays, whatever came before or comes after. */
  lemma {:induction false} LatestWins(baseline: int, events: seq<Stamp>, m: Stamp, i: nat)
    requires SettlesOn(m, events) && i <= |events|
    ensures m in events[..i] ==> Current(baseline, events[..i]) == m
  {
    if i > 0 {
      LatestWins(baseline, events, m, i - 1);
      assert events[..i][..i - 1] == events[..i - 1];
      CurrentIsReceived(baseline, events[..i - 1]);
      assert events[i - 1] in events;
    }
  }

  /** The outcome that a set of callbacks leads to, in whatever order and however often they arrive. */
  ghost predicate Converges(events: seq<Stamp>) {
    if exists e | e in events :: Evidence(e) then exists m :: SettlesOn(m, events)
    else forall e, f | e in events && f in events && Reaccepts(e) && Reaccepts(f) :: e == f
  }

  ghost predicate SameCallbacks(events: seq<Stamp>, others: seq<Stamp>) {
    forall e :: e in events <==> e in others
  }

  lemma {:induction false} WithoutEvidence(baseline: int, events: seq<Stamp>)
    requires forall e | e in events :: !Evidence(e)
    ensures (forall e | e in events :: !Reaccepts(e)) ==> Current(baseline, events) == Stamp(Accepted, Some(baseline))
    ensures (exists e | e in events :: Reaccepts(e)) ==>
      Reaccepts(Current(baseline, events)) && Current(baseline, events) in events
  {
    if events != [] {
      var k := |events| - 1;
      var rest, last := events[..k], events[k];
      assert events == rest + [last];
      assert forall e | e in rest :: e in events;
      assert last in events && !Evidence(last);
      WithoutEvidence(baseline, rest);
      CurrentIsReceived(baseline, rest);
      assert Current(baseline, rest).status == Accepted;
      assert Current(baseline, events) == if Reaccepts(last) then last else Current(baseline, rest);
    }
  }

  lemma SettlesOnSame(m: Stamp, events: seq<Stamp>, others: seq<Stamp>)
    requires SameCallbacks(events, others) && SettlesOn(m, events)
    ensures SettlesOn(m, others)
  {
  }

  /**
   * Callbacks that converge leave the same state in every order and under
   * duplication; with evidence among them, it is the latest by timestamp and
   * precedence.
   */
  lemma OrderIsIrrelevant(baseline: int, events: seq<Stamp>, others: seq<Stamp>)
    requires Converges(events) && SameCallbacks(events, others)
    ensures Current(baseline, events) == Current(baseline, others)
    ensures (exists e | e in events :: Evidence(e)) ==> IsLatest(Current(baseline, events), events)
  {
    if exists e | e in events :: Evidence(e) {
      var m :| SettlesOn(m, events);
      assert events[..|events|] == events && others[..|others|] == others;
      LatestWins(baseline, events, m, |events|);
      SettlesOnSame(m, events, others);
      LatestWins(baseline, others, m, |others|);
    } else {
      WithoutEvidence(baseline, events);
      WithoutEvidence(baseline, others);
    }
  }

  lemma Redelivered(baseline: int, events: seq<Stamp>, e: Stamp)
    requires e in events
    ensures Current(baseline, events + [e]) == ApplyDeliveryStatus(Current(baseline, events), e)
    ensures SameCallbacks(events, events + [e])
  {
    assert (events + [e])[..|events|] == events;
  }

  /** Callbacks that do not converge can leave two different states: the condition is exact. */
  lemma OrderMattersOtherwise(baseline: int, events: seq<Stamp>) returns (first: seq<Stamp>, second: seq<Stamp>)
    requires !Converges(events)
    ensures SameCallbacks(events, first) && SameCallbacks(events, second)
    ensures Current(baseline, first) != Current(baseline, second)
  {
    hide Current;
    CurrentIsReceived(baseline, events);
    if exists e | e in events :: Evidence(e) {
      var m := LatestExists(events);
      assert !SettlesOn(m, events);
      var a :| a in events && Reaccepts(a) && a.at.value > m.at.value;
      first, second := events + [a], (events + [a]) + [m];
      Redelivered(baseline, events, a);
      Redelivered(baseline, first, m);
    } else {
      var a, b :| a in events && b in events && Reaccepts(a) && Reaccepts(b) && a != b;
      first, second := events + [a], events + [b];
      Redelivered(baseline, events, a);
      Redelivered(baseline, events, b);
    }
  }

  const ORDER := [UnknownStatus, Accepted, Sent, Delivered, Read, Failed]

  /** Of two callbacks for one instant the one later in the order stays, whichever came first. */
  lemma OfOneInstant(baseline: int, t: int, i: nat, j: nat)
    requires 2 <= i <= j < |ORDER|
    ensures var a, b := Stamp(ORDER[i], Some(t)), Stamp(ORDER[j], Some(t));
      Current(baseline, [a, b]) == b && Current(baseline, [b, a]) == b
    ensures DeliveryPrecedence(ORDER[i]) <= DeliveryPrecedence(ORDER[j])
  {
    var a, b := Stamp(ORDER[i], Some(t)), Stamp(ORDER[j], Some(t));
    assert [a, b][..1] == [a] && [b, a][..1] == [b] && [a][..0] == [] && [b][..0] == [];
    assert Current(baseline, []) == Stamp(Accepted, Some(baseline));
    assert Current(baseline, [a]) == a && Current(baseline, [b]) == b;
  }

  /** A callback without a time or a known status is ignored in every state. */
  lemma NothingSaid(baseline: int, events: seq<Stamp>, e: Stamp)
    requires e.at == None || e.status == UnknownStatus
    ensures Current(baseline, events + [e]) == Current(baseline, events)
  {
    assert (events + [e])[..|events|] == events;
  }

  /** Without an ACCEPTED callback there is always convergence. */
  lemma EvidenceAloneConverges(events: seq<Stamp>)
    requires forall e | e in events :: !Reaccepts(e)
    ensures Converges(events)
  {
    if exists e | e in events :: Evidence(e) {
      var m := LatestExists(events);
      assert SettlesOn(m, events);
    }
  }
}
