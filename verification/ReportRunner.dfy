/**
 * The report runner (internal/businessreports/runner.go) running step by step
 * against the shared rows, with the events of all other workers scheduled by an
 * adversary between its steps.
 *
 * The rows, bodies and flags it computes in its loops are proved to be what the
 * protocol of module ReportRun prescribes: every event it contributes is one it may
 * take at that moment, so what is proved there of every run holds of this code.
 */
module ReportRunner {
  import opened Wrappers
  import opened ReportRun
  import Backoff

  /** Everything one pass of processOne meets. The indexed parts are consulted per call or per delivery. */
  datatype Environment = Environment(
    kindUnknown: bool, periodInvalid: bool, listFails: bool, relistFails: bool, verdictListFails: bool,
      durableListFails: bool,
    summary: Composition, renders: nat -> Option<Composition>, services: nat -> Service, cancelled: nat -> bool,
    runFault: Fault, secondFault: Fault, persistFault: Fault, recordFault: nat -> Fault, clock: nat -> int,
    others: nat -> seq<Event>)
  {
    /** Composition errors are terminal codes or outages. */
    ghost predicate Possible() {
      && (summary.Refused? ==> summary.code in COMPOSITION_CODES)
      && (forall k | renders(k).Some? ::
            renders(k).value.Unavailable? || (renders(k).value.Refused? && renders(k).value.code in COMPOSITION_CODES))
      && (forall k | services(k).Rejects? :: services(k).code in ENQUEUE_CODES)
    }

    /** The pass may end early only when a listing fails or the context is cancelled. */
    ghost predicate MayStop() {
      listFails || verdictListFails || durableListFails || exists k :: cancelled(k)
    }
  }

  /** The composition of a pass: the summary, or what the first body that would not render failed with. */
  ghost predicate ComposedAs(rows: seq<Delivery>, env: Environment, c: Composition) {
    if env.summary.Composed? && exists i | 0 <= i < |rows| :: Missing(rows[i]) && env.renders(i).Some? then
      exists i: nat | i < |rows| ::
        && Missing(rows[i]) && env.renders(i) == Some(c)
        && forall j | 0 <= j < i && Missing(rows[j]) :: env.renders(j) == None
    else c == env.summary
  }

  /** A worker in this phase takes this action only on what its environment tells it. */
  ghost predicate Answers(p: Phase, a: Action, env: Environment) {
    match a
    case TakeRun(_, _, _) => true
    case List => !env.kindUnknown && !env.listFails
    case BlockUnresolved(fault) =>
      fault == env.runFault && if p.Claimed? then env.kindUnknown else env.periodInvalid
    case BlockEmpty(fault) => fault == env.runFault
    case PassBarrier => !env.periodInvalid
    case BlockInconsistent(fault) => !env.periodInvalid && fault == env.runFault
    case ComposeBodies(c) => !env.periodInvalid && p.Listed? && ComposedAs(p.rows, env, c)
    case BlockComposition(fault) => fault == env.runFault
    case Persist(now, fault) => now == env.clock(0) && fault == env.persistFault
    case ListAgain(listed) => listed == !env.relistFails
    case Skip => p.Enqueueing? && !env.cancelled(p.k)
    case Enqueue(service) => p.Enqueueing? && !env.cancelled(p.k) && service == env.services(p.k)
    case RecordEnqueued(now, fault) => p.Handed? && now == env.clock(1) && fault == env.recordFault(p.k)
    case RecordBlocked(now, fault) => p.Refusing? && now == env.clock(1) && fault == env.recordFault(p.k)
    case ListForVerdict => !env.verdictListFails
    case Conclude(now, fault) => now == env.clock(2) && fault == env.runFault
    case BlockAgain(fault) => !env.durableListFails && fault == env.secondFault
    case GiveUp(now, fault) => now == env.clock(2) && fault == env.secondFault
    case Crash =>
      || (p.Claimed? && !env.kindUnknown && env.listFails)
      || (p.Enqueueing? && if p.k < |p.rows| then env.cancelled(p.k) else env.verdictListFails)
      || (p.AlreadyBlocked? && env.durableListFails)
  }

  /** The step a worker may take now, and takes on what its environment tells it. */
  ghost predicate MayTake(s: State, w: WorkerId, a: Action, env: Environment) {
    Enabled(s, Event(w, a)) && Answers(PhaseOf(s, w), a, env)
  }

  /** How often a worker stopped in the middle, or took a step that was not due. */
  ghost function Departures(locales: seq<string>, events: seq<Event>, w: WorkerId, env: Environment): nat {
    if events == [] then 0
    else
      var before, e := events[..|events| - 1], events[|events| - 1];
      Departures(locales, before, w, env)
      + if e.worker == w && (e.action.Crash? || !MayTake(Run(locales, before), w, e.action, env)) then 1 else 0
  }

  /** The shared tables, the memory of every worker process and the log of all that happened. */
  class Deployment {
    const locales: seq<string>
    var state: State
    ghost var log: seq<Event>

    ghost predicate Valid()
      reads this
    {
      state == Run(locales, log)
    }

    constructor (locales: seq<string>)
      ensures Valid() && log == [] && this.locales == locales
    {
      this.locales := locales;
      state := Created(locales);
      log := [];
    }

    ghost function Missteps(w: WorkerId, env: Environment): nat
      reads this
    {
      Departures(locales, log, w, env)
    }

    /** A worker takes the step that is due. */
    method Act(w: WorkerId, a: Action, ghost env: Environment)
      requires Valid() && MayTake(state, w, a, env)
      modifies this
      ensures Valid() && log == old(log) + [Event(w, a)] && state == Next(old(state), Event(w, a))
      ensures Missteps(w, env) == old(Missteps(w, env)) + if a.Crash? then 1 else 0
    {
      state := Next(state, Event(w, a));
      log := log + [Event(w, a)];
      assert log[..|log| - 1] == old(log);
    }

    /** The adversary lets other workers act. */
    method Others(w: WorkerId, schedule: seq<Event>, ghost env: Environment)
      requires Valid()
      modifies this
      ensures Valid() && old(log) <= log
      ensures Missteps(w, env) == old(Missteps(w, env)) && PhaseOf(state, w) == old(PhaseOf(state, w))
    {
      for i := 0 to |schedule|
        invariant Valid() && old(log) <= log
        invariant Missteps(w, env) == old(Missteps(w, env)) && PhaseOf(state, w) == old(PhaseOf(state, w))
      {
        if schedule[i].worker != w {
          hide Next;
          OthersKeepPhase(state, schedule[i], w);
          ghost var before := log;
          state := Next(state, schedule[i]);
          log := log + [schedule[i]];
          assert log[..|log| - 1] == before;
        }
      }
    }
  }

  datatype BarrierOutcome = BarrierReady | BarrierBlocked | BarrierRetry

  lemma MissingAfter(rows: seq<Delivery>, i: nat)
    requires i < |rows|
    ensures AnyBody(rows[..i + 1]) <==> AnyBody(rows[..i]) || rows[i].body.Some?
  {
    assert rows[..i + 1] == rows[..i] + [rows[i]];
    if AnyBody(rows[..i]) {
      var j :| 0 <= j < i && rows[..i][j].body.Some?;
      assert rows[..i + 1][j].body.Some?;
    }
    if rows[i].body.Some? {
      assert rows[..i + 1][i].body.Some?;
    }
  }

  class Runner {
    const deployment: Deployment
    const me: WorkerId

    constructor (deployment: Deployment, me: WorkerId)
      ensures this.deployment == deployment && this.me == me
    {
      this.deployment := deployment;
      this.me := me;
    }

    /** One step, and then whatever the others do. */
    method Do(a: Action, schedule: seq<Event>, ghost env: Environment)
      requires deployment.Valid() && MayTake(deployment.state, me, a, env)
      modifies deployment
      ensures deployment.Valid() && old(deployment.log) <= deployment.log
      ensures PhaseOf(deployment.state, me) == PhaseOf(Next(old(deployment.state), Event(me, a)), me)
      ensures deployment.Missteps(me, env) == old(deployment.Missteps(me, env)) + if a.Crash? then 1 else 0
    {
      deployment.Act(me, a, env);
      deployment.Others(me, schedule, env);
    }

    /** The rows that lack a body, in order, and whether any row has one. */
    method Survey(rows: seq<Delivery>) returns (missing: seq<nat>, anyBody: bool)
      ensures forall i: nat :: i in missing <==> i < |rows| && Missing(rows[i])
      ensures anyBody == AnyBody(rows)
      ensures missing == [] <==> !AnyMissing(rows)
      ensures forall i, j | 0 <= i < j < |missing| :: missing[i] < missing[j]
    {
      missing, anyBody := [], false;
      for i := 0 to |rows|
        invariant forall j: nat :: j in missing <==> j < i && Missing(rows[j])
        invariant forall j | 0 <= j < |missing| :: missing[j] < i
        invariant forall j, k | 0 <= j < k < |missing| :: missing[j] < missing[k]
        invariant anyBody == AnyBody(rows[..i])
      {
        MissingAfter(rows, i);
        if rows[i].body.Some? {
          anyBody := true;
        } else if rows[i].status == DeliveryPending {
          missing := missing + [i];
        }
      }
      assert rows[..|rows|] == rows;
      if missing != [] {
        assert missing[0] in missing && Missing(rows[missing[0]]);
      } else {
        assert forall i: nat | i < |rows| :: i !in missing;
      }
    }

    /** Renders the missing bodies from one summary, or stops at the first failure. */
    method Render(rows: seq<Delivery>, missing: seq<nat>, summary: nat, env: Environment)
      returns (snapshots: map<nat, Body>, failure: Option<Composition>)
      requires forall i: nat :: i in missing <==> i < |rows| && Missing(rows[i])
      requires forall i, j | 0 <= i < j < |missing| :: missing[i] < missing[j]
      requires env.Possible()
      ensures failure.None? ==> snapshots == Compose(rows, summary)
      ensures env.summary == Composed(summary) ==>
        ComposedAs(rows, env, if failure.Some? then failure.value else env.summary)
      ensures failure.Some? ==>
        failure.value.Unavailable? || (failure.value.Refused? && failure.value.code in COMPOSITION_CODES)
    {
      snapshots, failure := map[], None;
      for j := 0 to |missing|
        invariant snapshots.Keys == set i | i in missing[..j]
        invariant forall i | i in snapshots :: i < |rows| && snapshots[i] == Body(summary, rows[i].locale)
        invariant forall i | 0 <= i < j :: env.renders(missing[i]) == None
      {
        var k := missing[j];
        assert k in missing;
        if env.renders(k).Some? {
          return snapshots, env.renders(k);
        }
        snapshots := snapshots[k := Body(summary, rows[k].locale)];
      }
      assert missing[..|missing|] == missing;
      assert snapshots.Keys == Compose(rows, summary).Keys;
    }

    /** One body set from one summary, persisted all at once, before anything is enqueued. */
    method SnapshotBarrier(claim: Claim, rows: seq<Delivery>, env: Environment) returns (r: BarrierOutcome)
      requires deployment.Valid() && PhaseOf(deployment.state, me) == Listed(claim, rows) && rows != []
        && env.Possible() && !env.periodInvalid
      modifies deployment
      ensures deployment.Valid() && old(deployment.log) <= deployment.log
      ensures deployment.Missteps(me, env) == old(deployment.Missteps(me, env))
      ensures PhaseOf(deployment.state, me) == match r
        case BarrierReady => BarrierPassed(claim)
        case BarrierBlocked => AlreadyBlocked(claim)
        case BarrierRetry => NoVerdict(claim)
    {
      var missing, anyBody := Survey(rows);
      if missing == [] {
        Do(PassBarrier, env.others(1), env);
        return BarrierReady;
      }
      if anyBody {
        Do(BlockInconsistent(env.runFault), env.others(1), env);
        return if PhaseOf(deployment.state, me).AlreadyBlocked? then BarrierBlocked else BarrierRetry;
      }
      var composition := env.summary;
      if composition.Composed? {
        var snapshots, failure := Render(rows, missing, composition.summary, env);
        if failure.Some? {
          composition := failure.value;
        }
      }
      Do(ComposeBodies(composition), env.others(1), env);
      match composition
      case Unavailable => return BarrierRetry;
      case Refused(_) =>
        Do(BlockComposition(env.runFault), env.others(2), env);
        return if PhaseOf(deployment.state, me).AlreadyBlocked? then BarrierBlocked else BarrierRetry;
      case Composed(_) =>
        Do(Persist(env.clock(0), env.persistFault), env.others(2), env);
        return if PhaseOf(deployment.state, me).BarrierPassed? then BarrierReady else BarrierRetry;
    }

    /** A worker between deliveries knows its delivery is still in the table. */
    lemma RowsStayInReach()
      requires deployment.Valid()
      requires PhaseOf(deployment.state, me).Handed? || PhaseOf(deployment.state, me).Refusing?
      ensures PhaseOf(deployment.state, me).k < |deployment.state.deliveries|
    {
      RunIsSafe(deployment.locales, deployment.log);
      assert PhaseFits(PhaseOf(deployment.state, me), deployment.state);
    }

    /** Enqueues one delivery from its persisted body; the pass goes on unless a finish could not be recorded. */
    method EnqueueDelivery(claim: Claim, rows: seq<Delivery>, k: nat, pendingRemain: bool, env: Environment)
      returns (aborted: bool, retry: bool)
      requires deployment.Valid() && PhaseOf(deployment.state, me) == Enqueueing(claim, rows, k, pendingRemain)
      requires k < |rows| && env.Possible() && !env.cancelled(k)
      modifies deployment
      ensures deployment.Valid() && old(deployment.log) <= deployment.log
      ensures deployment.Missteps(me, env) == old(deployment.Missteps(me, env))
      ensures PhaseOf(deployment.state, me) ==
        if aborted then Idle else Enqueueing(claim, rows, k + 1, pendingRemain || retry)
      ensures aborted ==> env.recordFault(k) != NoFault
      ensures !aborted && !retry && rows[k].status == DeliveryPending ==> rows[k].body.Some?
    {
      hide RecordDelivery, Run, Departures;
      var delivery := rows[k];
      if delivery.status != DeliveryPending {
        Do(Skip, env.others(3), env);
        return false, false;
      }
      if delivery.body.None? {
        Do(Skip, env.others(3), env);
        return false, true;
      }
      HandedPhase(deployment.state, me, env.services(k));
      hide Next;
      Do(Enqueue(env.services(k)), env.others(3), env);
      var p := PhaseOf(deployment.state, me);
      if p.Enqueueing? {
        return false, true;
      }
      aborted, retry := FinishDelivery(claim, rows, k, pendingRemain, env);
    }

    /** Records what became of the delivery: enqueued under its notification, or blocked with the refusal. */
    method FinishDelivery(claim: Claim, rows: seq<Delivery>, k: nat, pendingRemain: bool, env: Environment)
      returns (aborted: bool, retry: bool)
      requires deployment.Valid() && k < |rows|
      requires var p := PhaseOf(deployment.state, me);
        || (p.Handed? && p == Handed(claim, rows, k, pendingRemain, p.notificationId))
        || (p.Refusing? && p == Refusing(claim, rows, k, pendingRemain, p.code))
      modifies deployment
      ensures deployment.Valid() && old(deployment.log) <= deployment.log
      ensures deployment.Missteps(me, env) == old(deployment.Missteps(me, env))
      ensures PhaseOf(deployment.state, me) ==
        if aborted then Idle else Enqueueing(claim, rows, k + 1, pendingRemain || retry)
      ensures aborted ==> env.recordFault(k) != NoFault
    {
      RowsStayInReach();
      hide Run, Departures;
      var a := if PhaseOf(deployment.state, me).Handed? then RecordEnqueued(env.clock(1), env.recordFault(k))
               else RecordBlocked(env.clock(1), env.recordFault(k));
      RecordedPhase(deployment.state, me, a);
      hide Next;
      Do(a, env.others(4), env);
      var p := PhaseOf(deployment.state, me);
      return p.Idle?, p.Enqueueing? && p.pendingRemain;
    }

    /** What the loop over the rows decides, as the run row will record it. */
    method Decide(rows: seq<Delivery>, pendingRemain: bool, attempts: nat, now: int) returns (f: Finish)
      ensures f == Verdict(rows, pendingRemain, attempts, now)
    {
      var pending, blockedCode := pendingRemain, "";
      for i := 0 to |rows|
        invariant pending == (pendingRemain || AnyPending(rows[..i]))
        invariant blockedCode == BlockedCode(rows[..i])
      {
        DecideStep(rows, i);
        match rows[i].status
        case DeliveryPending => pending := true;
        case DeliveryBlocked => if blockedCode == "" { blockedCode := rows[i].lastErrorCode; }
        case DeliveryEnqueued =>
      }
      assert rows[..|rows|] == rows;
      if pending {
        var delay := Backoff.CappedDoubling(RUN_BASE_DELAY, RUN_MAX_DELAY, attempts);
        return FinishRetry(now + delay, INTERNAL_RETRY);
      } else if blockedCode != "" {
        return FinishBlocked(blockedCode);
      } else {
        return FinishCompleted;
      }
    }

    /** The verdict from authoritative rows. */
    method FinishAggregate(claim: Claim, rows: seq<Delivery>, pendingRemain: bool, env: Environment)
        returns (interrupted: bool)
      requires deployment.Valid() && PhaseOf(deployment.state, me) == Enqueueing(claim, rows, |rows|, pendingRemain)
      modifies deployment
      ensures deployment.Valid() && old(deployment.log) <= deployment.log && PhaseOf(deployment.state, me) == Idle
      ensures deployment.Missteps(me, env) == old(deployment.Missteps(me, env)) + if interrupted then 1 else 0
      ensures interrupted <==> env.verdictListFails
    {
      if env.verdictListFails {
        Do(Crash, env.others(5), env);
        return true;
      }
      Do(ListForVerdict, env.others(5), env);
      var f := Decide(PhaseOf(deployment.state, me).rows, pendingRemain, claim.attempts, env.clock(2));
      FinishRun(f, env);
      return false;
    }

    /** The finish that was decided is the one that is written, if the claim still holds. */
    method FinishRun(f: Finish, env: Environment)
      requires deployment.Valid() && PhaseOf(deployment.state, me).Deciding?
      requires var p := PhaseOf(deployment.state, me);
        f == Verdict(p.rows, p.pendingRemain, p.claim.attempts, env.clock(2))
      modifies deployment
      ensures deployment.Valid() && old(deployment.log) <= deployment.log && PhaseOf(deployment.state, me) == Idle
      ensures deployment.Missteps(me, env) == old(deployment.Missteps(me, env))
    {
      Do(Conclude(env.clock(2), env.runFault), env.others(6), env);
    }

    /**
     * Phase two: every pending delivery is enqueued from its persisted body, in order,
     * and then the verdict is given.
     */
    method EnqueueAll(claim: Claim, env: Environment) returns (interrupted: bool)
      requires deployment.Valid() && PhaseOf(deployment.state, me) == BarrierPassed(claim) && env.Possible()
      modifies deployment
      ensures deployment.Valid() && old(deployment.log) <= deployment.log && PhaseOf(deployment.state, me) == Idle
      ensures deployment.Missteps(me, env) == old(deployment.Missteps(me, env)) + if interrupted then 1 else 0
      ensures interrupted ==> env.MayStop()
    {
      Do(ListAgain(!env.relistFails), env.others(2), env);
      var rows := PhaseOf(deployment.state, me).rows;
      hide RecordDelivery, Run, Departures, Environment.Possible, EnqueueUnder;
      var pendingRemain := false;
      for k := 0 to |rows|
        invariant deployment.Valid() && old(deployment.log) <= deployment.log
        invariant deployment.Missteps(me, env) == old(deployment.Missteps(me, env))
        invariant PhaseOf(deployment.state, me) == Enqueueing(claim, rows, k, pendingRemain)
      {
        if env.cancelled(k) {
          Do(Crash, env.others(3), env);
          return true;
        }
        var aborted, retry := EnqueueDelivery(claim, rows, k, pendingRemain, env);
        if aborted {
          return false;
        }
        pendingRemain := pendingRemain || retry;
      }
      interrupted := FinishAggregate(claim, rows, pendingRemain, env);
    }

    /**
     * One claimed run, from claim to finish. Every step is one the protocol allows
     * at that moment, and the worker ends with nothing in hand; it stops in the
     * middle only when a listing fails or the context is cancelled.
     */
    method ProcessOne(claim: Claim, env: Environment) returns (interrupted: bool)
      requires deployment.Valid() && PhaseOf(deployment.state, me) == Claimed(claim) && env.Possible()
      modifies deployment
      ensures deployment.Valid() && old(deployment.log) <= deployment.log && PhaseOf(deployment.state, me) == Idle
      ensures deployment.Missteps(me, env) == old(deployment.Missteps(me, env)) + if interrupted then 1 else 0
      ensures interrupted ==> env.MayStop()
    {
      hide RecordDelivery, Run, Departures, Environment.Possible;
      if env.kindUnknown {
        Do(BlockUnresolved(env.runFault), env.others(0), env);
        return false;
      }
      if env.listFails {
        Do(Crash, env.others(0), env);
        return true;
      }
      Do(List, env.others(0), env);
      var rows := PhaseOf(deployment.state, me).rows;
      if rows == [] {
        Do(BlockEmpty(env.runFault), env.others(1), env);
        return false;
      }
      if env.periodInvalid {
        Do(BlockUnresolved(env.runFault), env.others(1), env);
        return false;
      }
      var outcome := SnapshotBarrier(claim, rows, env);
      match outcome
      case BarrierBlocked =>
        if env.durableListFails {
          Do(Crash, env.others(5), env);
          return true;
        }
        Do(BlockAgain(env.secondFault), env.others(5), env);
        return false;
      case BarrierRetry =>
        Do(GiveUp(env.clock(2), env.secondFault), env.others(5), env);
        return false;
      case BarrierReady =>
        interrupted := EnqueueAll(claim, env);
    }
  }

  /** Some composition is what the environment makes of the rows. */
  lemma CompositionOf(rows: seq<Delivery>, env: Environment) returns (c: Composition)
    ensures ComposedAs(rows, env, c)
    ensures c == env.summary || exists k :: env.renders(k) == Some(c)
  {
    c := env.summary;
    if !c.Composed? {
      return;
    }
    for i := 0 to |rows|
      invariant forall j | 0 <= j < i && Missing(rows[j]) :: env.renders(j) == None
    {
      if Missing(rows[i]) && env.renders(i).Some? {
        return env.renders(i).value;
      }
    }
  }

  lemma SomeStepIsNext(s: State, w: WorkerId, env: Environment)
    requires env.Possible() && !PhaseOf(s, w).Idle?
    requires var p := PhaseOf(s, w);
      && (p.Enqueueing? ==> p.k <= |p.rows|)
      && (p.Handed? || p.Refusing? ==> p.k < |s.deliveries|)
    ensures exists a :: MayTake(s, w, a, env)
  {
    hide Missing;
    var p := PhaseOf(s, w);
    var composition := CompositionOf(if p.Listed? then p.rows else [], env);
    var a := match p
      case Claimed(_) => if env.kindUnknown then BlockUnresolved(env.runFault) else if env.listFails then Crash
        else List
      case Listed(_, rows) =>
        if rows == [] then BlockEmpty(env.runFault)
        else if env.periodInvalid then BlockUnresolved(env.runFault)
        else if !AnyMissing(rows) then PassBarrier
        else if AnyBody(rows) then BlockInconsistent(env.runFault)
        else ComposeBodies(composition)
      case Rendered(_, _) => Persist(env.clock(0), env.persistFault)
      case Condemned(_, _) => BlockComposition(env.runFault)
      case BarrierPassed(_) => ListAgain(!env.relistFails)
      case Enqueueing(_, rows, k, _) =>
        if k == |rows| then (if env.verdictListFails then Crash else ListForVerdict)
        else if env.cancelled(k) then Crash
        else if rows[k].status == DeliveryPending && rows[k].body.Some? then Enqueue(env.services(k)) else Skip
      case Handed(_, _, k, _, _) => RecordEnqueued(env.clock(1), env.recordFault(k))
      case Refusing(_, _, k, _, _) => RecordBlocked(env.clock(1), env.recordFault(k))
      case Deciding(_, _, _) => Conclude(env.clock(2), env.runFault)
      case AlreadyBlocked(_) => if env.durableListFails then Crash else BlockAgain(env.secondFault)
      case NoVerdict(_) => GiveUp(env.clock(2), env.secondFault)
      case Idle => Crash;
    assert MayTake(s, w, a, env);
  }

  lemma AtMostOneStepIsNext(s: State, w: WorkerId, env: Environment, a: Action, b: Action)
    requires !PhaseOf(s, w).Idle? && MayTake(s, w, a, env) && MayTake(s, w, b, env)
    ensures a == b
  {
    hide Missing;
  }

  /** Whatever the others have done, exactly one step may be taken by a worker in the middle of a pass. */
  lemma OneStepIsNext(locales: seq<string>, events: seq<Event>, w: WorkerId, env: Environment)
    requires env.Possible() && !PhaseOf(Run(locales, events), w).Idle?
    ensures exists a :: MayTake(Run(locales, events), w, a, env)
    ensures forall a, b | MayTake(Run(locales, events), w, a, env) && MayTake(Run(locales, events), w, b, env) :: a == b
  {
    var s := Run(locales, events);
    RunIsSafe(locales, events);
    assert PhaseFits(PhaseOf(s, w), s);
    hide MayTake, Run;
    SomeStepIsNext(s, w, env);
    forall a, b | MayTake(s, w, a, env) && MayTake(s, w, b, env) ensures a == b {
      AtMostOneStepIsNext(s, w, env, a, b);
    }
  }

  /** After handing over, the worker knows an id, knows a refusal, or leaves the delivery for later. */
  lemma HandedPhase(s: State, w: WorkerId, service: Service)
    requires Enabled(s, Event(w, Enqueue(service)))
    ensures var p, q := PhaseOf(s, w), PhaseOf(Next(s, Event(w, Enqueue(service))), w);
      || q == Enqueueing(p.claim, p.rows, p.k + 1, true)
      || (q.Handed? && q == Handed(p.claim, p.rows, p.k, p.pendingRemain, q.notificationId))
      || (q.Refusing? && q == Refusing(p.claim, p.rows, p.k, p.pendingRemain, q.code))
  {
  }

  /** After recording, the worker is back between deliveries, or stops on a store failure. */
  lemma RecordedPhase(s: State, w: WorkerId, a: Action)
    requires Enabled(s, Event(w, a)) && (a.RecordEnqueued? || a.RecordBlocked?)
    ensures var p, q := PhaseOf(s, w), PhaseOf(Next(s, Event(w, a)), w);
      if a.fault != NoFault then q == Idle
      else q == Enqueueing(p.claim, p.rows, p.k + 1, p.pendingRemain) || q == Enqueueing(p.claim, p.rows, p.k + 1, true)
  {
  }

  lemma {:induction false} DecideStep(rows: seq<Delivery>, i: nat)
    requires i < |rows|
    ensures AnyPending(rows[..i + 1]) <==> AnyPending(rows[..i]) || rows[i].status == DeliveryPending
    ensures BlockedCode(rows[..i + 1]) ==
      if BlockedCode(rows[..i]) == ""
        && rows[i].status == DeliveryBlocked then rows[i].lastErrorCode else BlockedCode(rows[..i])
  {
    assert rows[..i + 1] == rows[..i] + [rows[i]];
    BlockedCodeOfAppend(rows[..i], rows[i]);
    if AnyPending(rows[..i]) {
      var j :| 0 <= j < i && rows[..i][j].status == DeliveryPending;
      assert rows[..i + 1][j].status == DeliveryPending;
    }
    if rows[i].status == DeliveryPending {
      assert rows[..i + 1][i].status == DeliveryPending;
    }
  }

  lemma {:induction false} BlockedCodeOfAppend(rows: seq<Delivery>, d: Delivery)
    ensures BlockedCode(rows + [d]) ==
      if BlockedCode(rows) == "" && d.status == DeliveryBlocked then d.lastErrorCode else BlockedCode(rows)
  {
    if rows == [] {
      assert rows + [d] == [d];
    } else {
      assert (rows + [d])[1..] == rows[1..] + [d];
      BlockedCodeOfAppend(rows[1..], d);
    }
  }
}
