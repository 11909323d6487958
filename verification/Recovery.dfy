/**
 * The reconnect recovery of one incident (internal/operations/recovery.go) over its
 * action row (db/queries/operations.sql). A claim takes no lease: it reads a due
 * pending row and commits, so several workers can hold the same row, each with the
 * attempt count it read.
 */
module Recovery {
  import opened Wrappers
  import Backoff

  const MAX_RECOVERY_ATTEMPTS := 10
  const MAX_BACKOFF := 30 * Backoff.MINUTE
  const RECOVERY_FAILED := "OPS_RECOVERY_FAILED"
  const RECOVERY_QUEUED := "OPS_RECOVERY_QUEUED"
  const RECOVERY_EXISTING := "OPS_RECOVERY_EXISTING"
  const NO_LONGER_ACTIVE := "DEVICE_NO_LONGER_ACTIVE"

  type WorkerId = nat

  type CommandId = nat

  datatype RowState = Pending | Completed(target: CommandId, result: string) | Blocked(code: string)

  datatype Row = Row(state: RowState, attempts: nat, nextAttemptAt: Option<int>)

  /** What a worker learns: about the incident, and then from asking for the command. */
  datatype Outcome = IncidentMissing | DeviceRevoked | Queued(command: CommandId) | AlreadyActive(command: CommandId)
    | NotResolved

  /** Whether the worker asked for a command. */
  predicate Asked(o: Outcome) {
    !o.IncidentMissing? && !o.DeviceRevoked?
  }

  datatype Finish = Complete(target: CommandId, result: string) | RetryLater(next: int) | Block(code: string)

  /** The decision, from the attempt count that was read with the claim. */
  function Decide(snapshot: nat, o: Outcome, now: int): Finish {
    match o
    case IncidentMissing => Block(RECOVERY_FAILED)
    case DeviceRevoked => Block(NO_LONGER_ACTIVE)
    case Queued(command) => Complete(command, RECOVERY_QUEUED)
    case AlreadyActive(command) => Complete(command, RECOVERY_EXISTING)
    case NotResolved =>
      if snapshot + 1 >= MAX_RECOVERY_ATTEMPTS then Block(RECOVERY_FAILED)
      else RetryLater(now + if (snapshot + 1) * Backoff.MINUTE > MAX_BACKOFF then MAX_BACKOFF
        else (snapshot + 1) * Backoff.MINUTE)
  }

  /** One guarded statement on a pending row; a retry counts on the row, not on what was read. */
  function FinishRow(row: Row, f: Finish): Row {
    if row.state != Pending then row else
    match f
    case Complete(target, result) => row.(state := Completed(target, result))
    case RetryLater(next) => row.(attempts := row.attempts + 1, nextAttemptAt := Some(next))
    case Block(code) => row.(state := Blocked(code))
  }

  /** calls counts the requests for a command, unrecorded those whose result never reached the row. */
  datatype State = State(row: Row, held: map<WorkerId, nat>, calls: nat, unrecorded: nat)

  datatype Action =
    | Claim(now: int)
    | Resolve(outcome: Outcome, now: int, finish: Finish, recorded: bool)
    | Vanish(asked: bool)

  datatype Event = Event(worker: WorkerId, action: Action)

  predicate Due(row: Row, now: int) {
    row.state == Pending && (row.nextAttemptAt.Some? ==> row.nextAttemptAt.value <= now)
  }

  predicate Enabled(s: State, e: Event) {
    match e.action
    case Claim(now) => e.worker !in s.held && Due(s.row, now)
    case Resolve(outcome, now, finish, _) => e.worker in s.held && finish == Decide(s.held[e.worker], outcome, now)
    case Vanish(_) => e.worker in s.held
  }

  function Next(s: State, e: Event): State {
    if !Enabled(s, e) then s else
    match e.action
    case Claim(_) => s.(held := s.held[e.worker := s.row.attempts])
    case Resolve(outcome, _, finish, recorded) =>
      State(if recorded then FinishRow(s.row, finish) else s.row, s.held - {e.worker},
            s.calls + if Asked(outcome) then 1 else 0,
            s.unrecorded + if Asked(outcome) && !recorded then 1 else 0)
    case Vanish(asked) =>
      s.(held := s.held - {e.worker}, calls := s.calls + if asked then 1 else 0,
        unrecorded := s.unrecorded + if asked then 1 else 0)
  }

  const START := State(Row(Pending, 0, None), map[], 0, 0)

  function Run(events: seq<Event>): State {
    if events == [] then START else Next(Run(events[..|events| - 1]), events[|events| - 1])
  }

  /** A worker takes a pending row that is due, and remembers how many attempts it has counted. */
  lemma ClaimsRead(s: State, w: WorkerId, now: int)
    ensures Enabled(s, Event(w, Claim(now))) <==>
      && w !in s.held && s.row.state == Pending
      && (s.row.nextAttemptAt == None || s.row.nextAttemptAt.value <= now)
    ensures Enabled(s, Event(w, Claim(now))) ==>
      Next(s, Event(w, Claim(now))) == s.(held := s.held[w := s.row.attempts])
  {
  }

  /**
   * What a recorded result leaves in a pending row: the command there is, or a block
   * for good, or the next attempt, one minute later for every attempt that was read.
   */
  lemma ResultsAreRecorded(s: State, e: Event)
    requires Enabled(s, e) && e.action.Resolve?
    ensures var row, after, count := s.row, Next(s, e).row, s.held[e.worker];
      if !e.action.recorded || row.state != Pending then after == row
      else match e.action.outcome
           case IncidentMissing => after == row.(state := Blocked("OPS_RECOVERY_FAILED"))
           case DeviceRevoked => after == row.(state := Blocked("DEVICE_NO_LONGER_ACTIVE"))
           case Queued(command) => after == row.(state := Completed(command, "OPS_RECOVERY_QUEUED"))
           case AlreadyActive(command) => after == row.(state := Completed(command, "OPS_RECOVERY_EXISTING"))
           case NotResolved =>
             if count < 9
             then after == Row(Pending, row.attempts + 1, Some(e.action.now + (count + 1) * Backoff.MINUTE))
             else after == row.(state := Blocked("OPS_RECOVERY_FAILED"))
    ensures var asked := e.action.outcome.Queued? || e.action.outcome.AlreadyActive? || e.action.outcome.NotResolved?;
      && Next(s, e).calls == s.calls + (if asked then 1 else 0)
      && Next(s, e).unrecorded == s.unrecorded + (if asked && !e.action.recorded then 1 else 0)
      && Next(s, e).held == s.held - {e.worker}
  {
  }

  predicate WorkersBelow(events: seq<Event>, n: nat) {
    forall i | 0 <= i < |events| :: events[i].worker < n
  }

  // ---- How many attempts there can be ----

  /** Workers that will still count an attempt. */
  function Counting(held: map<WorkerId, nat>): set<WorkerId> {
    set w | w in held && held[w] + 1 < MAX_RECOVERY_ATTEMPTS
  }

  lemma {:induction false} SetBelow(s: set<nat>, n: nat)
    requires forall w | w in s :: w < n
    ensures |s| <= n
  {
    if n == 0 {
      assert s == {};
    } else {
      SetBelow(s - {n - 1}, n - 1);
    }
  }

  ghost predicate Invariant(s: State, n: nat) {
    && (forall w | w in s.held :: w < n)
    && (s.row.attempts <= 8 || s.row.attempts + |Counting(s.held)| <= 8 + n)
    && (s.row.state == Pending ==> s.calls == s.unrecorded + s.row.attempts)
    && (s.row.state != Pending ==> s.calls + |s.held.Keys| <= s.unrecorded + s.row.attempts + n)
  }

  lemma ClaimKeeps(s: State, w: WorkerId, n: nat)
    requires Invariant(s, n) && w < n && w !in s.held && s.row.state == Pending
    ensures Invariant(s.(held := s.held[w := s.row.attempts]), n)
  {
    var held := s.held[w := s.row.attempts];
    assert Counting(held) == if s.row.attempts <= 8 then Counting(s.held) + {w} else Counting(s.held);
  }

  /** A worker lets go: at most one counted attempt, at most one request. */
  lemma ReleaseKeeps(s: State, w: WorkerId, f: Finish, recorded: bool, asked: bool, n: nat)
    requires Invariant(s, n) && w in s.held
    requires f.RetryLater? ==> s.held[w] + 1 < MAX_RECOVERY_ATTEMPTS && asked
    requires f.Complete? ==> asked
    ensures Invariant(State(if recorded then FinishRow(s.row, f) else s.row, s.held - {w},
      s.calls + if asked then 1 else 0,
                            s.unrecorded + if asked && !recorded then 1 else 0), n)
  {
    var held := s.held - {w};
    SetBelow(s.held.Keys, n);
    SetBelow(Counting(s.held), n);
    assert held.Keys == s.held.Keys - {w} && Counting(held) == Counting(s.held) - {w};
    hide Counting;
  }

  lemma NextKeeps(s: State, e: Event, n: nat)
    requires Invariant(s, n) && e.worker < n
    ensures Invariant(Next(s, e), n)
  {
    hide Counting, Invariant, FinishRow;
    if Enabled(s, e) {
      match e.action
      case Claim(_) => ClaimKeeps(s, e.worker, n);
      case Resolve(outcome, _, finish, recorded) => ReleaseKeeps(s, e.worker, finish, recorded, Asked(outcome), n);
      case Vanish(asked) => ReleaseKeeps(s, e.worker, Block(RECOVERY_FAILED), false, asked, n);
    }
  }

  lemma {:induction false} RunIsSafe(events: seq<Event>, n: nat)
    requires WorkersBelow(events, n)
    ensures Invariant(Run(events), n)
  {
    if events != [] {
      RunIsSafe(events[..|events| - 1], n);
      NextKeeps(Run(events[..|events| - 1]), events[|events| - 1], n);
    }
  }

  /**
   * With n workers the row counts at most 8 + n failed attempts, and the device is
   * asked at most 8 + 2n times, not counting requests whose result was lost.
   */
  lemma AttemptsAreBounded(events: seq<Event>, n: nat)
    requires WorkersBelow(events, n) && n > 0
    ensures Run(events).row.attempts <= 8 + n
    ensures Run(events).calls <= 8 + 2 * n + Run(events).unrecorded
  {
    RunIsSafe(events, n);
  }

  /** Once completed or blocked, the action never changes. */
  lemma {:induction false} FinishedForever(events: seq<Event>, more: seq<Event>)
    requires Run(events).row.state != Pending
    ensures Run(events + more).row == Run(events).row
    decreases |more|
  {
    if more == [] {
      assert events + more == events;
    } else {
      FinishedForever(events, more[..|more| - 1]);
      assert (events + more)[..|events + more| - 1] == events + more[..|more| - 1];
    }
  }

  // ---- The bound is reached ----

  function ClaimAll(n: nat, now: int): (r: seq<Event>)
    ensures |r| == n && WorkersBelow(r, n)
  {
    if n == 0 then [] else ClaimAll(n - 1, now) + [Event(n - 1, Claim(now))]
  }

  function FailAll(n: nat, snapshot: nat, now: int): (r: seq<Event>)
    ensures |r| == n && WorkersBelow(r, n)
  {
    if n == 0 then [] else
    FailAll(n - 1, snapshot, now) + [Event(n - 1, Resolve(NotResolved, now, Decide(snapshot, NotResolved, now), true))]
  }

  /** n workers claim the same row at the same time, and all fail. */
  function Round(n: nat, snapshot: nat, now: int): (r: seq<Event>)
    ensures WorkersBelow(r, n)
  {
    ClaimAll(n, now) + FailAll(n, snapshot, now)
  }

  /** Exactly the workers from k to n hold the row, all with the same count. */
  ghost predicate HeldBy(held: map<WorkerId, nat>, k: nat, n: nat, snapshot: nat) {
    forall w: nat :: (w in held <==> k <= w < n) && (w in held ==> held[w] == snapshot)
  }

  lemma {:induction false} AllClaim(events: seq<Event>, n: nat, now: int)
    requires Run(events).held == map[] && Due(Run(events).row, now)
    ensures var s, u := Run(events), Run(events + ClaimAll(n, now));
      u == s.(held := u.held) && HeldBy(u.held, 0, n, s.row.attempts)
  {
    if n == 0 {
      assert events + ClaimAll(n, now) == events;
    } else {
      hide Next, HeldBy, Due;
      AllClaim(events, n - 1, now);
      var more := events + ClaimAll(n, now);
      assert more[..|more| - 1] == events + ClaimAll(n - 1, now);
      ClaimOne(Run(events + ClaimAll(n - 1, now)), n - 1, Run(events).row.attempts, now);
    }
  }

  lemma ClaimOne(s: State, n: nat, snapshot: nat, now: int)
    requires HeldBy(s.held, 0, n, snapshot) && Due(s.row, now) && s.row.attempts == snapshot
    ensures var u := Next(s, Event(n, Claim(now))); u == s.(held := u.held) && HeldBy(u.held, 0, n + 1, snapshot)
  {
  }

  lemma FailOne(s: State, k: nat, n: nat, snapshot: nat, now: int)
    requires k < n && HeldBy(s.held, k, n, snapshot)
    ensures var u := Next(s, Event(k, Resolve(NotResolved, now, Decide(snapshot, NotResolved, now), true)));
      && HeldBy(u.held, k + 1, n, snapshot) && u.calls == s.calls + 1 && u.unrecorded == s.unrecorded
      && (snapshot + 1 < MAX_RECOVERY_ATTEMPTS && s.row.state == Pending ==>
            Due(u.row, now + MAX_BACKOFF) && u.row.attempts == s.row.attempts + 1)
  {
  }

  lemma {:induction false} AllFail(events: seq<Event>, n: nat, k: nat, snapshot: nat, now: int)
    requires k <= n && Run(events).row.state == Pending && HeldBy(Run(events).held, 0, n, snapshot)
    ensures var s, u := Run(events), Run(events + FailAll(k, snapshot, now));
      && HeldBy(u.held, k, n, snapshot) && u.calls == s.calls + k && u.unrecorded == s.unrecorded
      && (k > 0 && snapshot + 1 < MAX_RECOVERY_ATTEMPTS ==>
            Due(u.row, now + MAX_BACKOFF) && u.row.attempts == s.row.attempts + k)
      && (k == 0 ==> u.row == s.row)
    decreases k
  {
    hide Next, Decide, HeldBy;
    if k == 0 {
      assert events + FailAll(k, snapshot, now) == events;
    } else {
      AllFail(events, n, k - 1, snapshot, now);
      var more := events + FailAll(k, snapshot, now);
      assert more[..|more| - 1] == events + FailAll(k - 1, snapshot, now);
      FailOne(Run(events + FailAll(k - 1, snapshot, now)), k - 1, n, snapshot, now);
    }
  }

  lemma AfterRound(events: seq<Event>, n: nat, now: int)
    requires n > 0 && Run(events).held == map[] && Due(Run(events).row, now)
    ensures var s, u := Run(events), Run(events + Round(n, Run(events).row.attempts, now));
      && u.held == map[] && u.calls == s.calls + n && u.unrecorded == s.unrecorded
      && (s.row.attempts + 1 < MAX_RECOVERY_ATTEMPTS ==>
            Due(u.row, now + MAX_BACKOFF) && u.row.attempts == s.row.attempts + n)
  {
    var a := Run(events).row.attempts;
    AllClaim(events, n, now);
    AllFail(events + ClaimAll(n, now), n, n, a, now);
    assert Run(events + ClaimAll(n, now) + FailAll(n, a, now)).held.Keys == {};
    assert events + Round(n, a, now) == events + ClaimAll(n, now) + FailAll(n, a, now);
  }

  /** A single worker asks and loses the result, again and again. */
  function Losing(lost: nat): (r: seq<Event>)
    ensures WorkersBelow(r, 1)
  {
    if lost == 0 then [] else Losing(lost - 1) + [Event(0, Claim(0))] + [Event(0, Vanish(true))]
  }

  lemma OneMore(events: seq<Event>, e: Event)
    ensures Run(events + [e]) == Next(Run(events), e)
  {
    assert (events + [e])[..|events|] == events;
  }

  /** The row shows nothing of requests whose result was lost. */
  lemma {:induction false} AfterLosing(lost: nat)
    ensures Run(Losing(lost)) == State(START.row, map[], lost, lost)
  {
    if lost > 0 {
      hide Run;
      AfterLosing(lost - 1);
      OneMore(Losing(lost - 1), Event(0, Claim(0)));
      OneMore(Losing(lost - 1) + [Event(0, Claim(0))], Event(0, Vanish(true)));
    }
  }

  /** Some lost requests, then the first k recorded attempts of a single worker, all failing. */
  function Alone(lost: nat, k: nat): (r: seq<Event>)
    ensures WorkersBelow(r, 1)
    decreases k
  {
    if k == 0 then Losing(lost) else Alone(lost, k - 1) + Round(1, k - 1, (k - 1) * MAX_BACKOFF)
  }

  lemma {:induction false} AfterAlone(lost: nat, k: nat)
    requires k < MAX_RECOVERY_ATTEMPTS
    ensures var s := Run(Alone(lost, k));
      s == State(s.row, map[], lost + k, lost) && s.row.attempts == k && Due(s.row, k * MAX_BACKOFF)
    decreases k
  {
    hide Next, ClaimAll, FailAll, Decide, Round, Losing, Run;
    if k > 0 {
      AfterAlone(lost, k - 1);
      AfterRound(Alone(lost, k - 1), 1, (k - 1) * MAX_BACKOFF);
    } else {
      AfterLosing(lost);
    }
  }

  /** Lost requests, eight failures alone, then all n workers hold the row at once, twice. */
  function Worst(n: nat, lost: nat): (r: seq<Event>)
    requires n > 0
    ensures WorkersBelow(r, n)
  {
    Alone(lost, 8) + Round(n, 8, 8 * MAX_BACKOFF) + Round(n, 8 + n, 9 * MAX_BACKOFF)
  }

  lemma WorstIsReached(n: nat, lost: nat)
    requires n > 0
    ensures Run(Worst(n, lost)).calls == 8 + 2 * n + lost && Run(Worst(n, lost)).unrecorded == lost
  {
    hide Run, Round, Alone;
    AfterAlone(lost, 8);
    AfterRound(Alone(lost, 8), n, 8 * MAX_BACKOFF);
    AfterRound(Alone(lost, 8) + Round(n, 8, 8 * MAX_BACKOFF), n, 9 * MAX_BACKOFF);
  }

  /** Every run of n workers that loses at most so many results asks at most limit times. */
  ghost predicate Limit(limit: nat, n: nat, lost: nat) {
    forall events: seq<Event> | WorkersBelow(events, n) && Run(events).unrecorded <= lost :: Run(events).calls <= limit
  }

  /** A limit on requests holds over all runs if and only if it leaves room for 8 + 2n and for every lost result. */
  lemma LimitIff(limit: nat, n: nat, lost: nat)
    requires n > 0
    ensures Limit(limit, n, lost) <==> 8 + 2 * n + lost <= limit
  {
    hide Run, Worst;
    if 8 + 2 * n + lost <= limit {
      forall events: seq<Event> | WorkersBelow(events, n) && Run(events).unrecorded <= lost
        ensures Run(events).calls <= limit {
        AttemptsAreBounded(events, n);
      }
    } else {
      WorstIsReached(n, lost);
      assert WorkersBelow(Worst(n, lost), n);
    }
  }

  /**
   * Ten requests are the limit exactly when a single worker serves the table and no
   * result is lost; ten requests besides those whose result was lost, exactly when a
   * single worker serves it.
   */
  lemma TenAttemptsIffOneWorker(n: nat, lost: nat)
    requires n > 0
    ensures Limit(MAX_RECOVERY_ATTEMPTS, n, lost) <==> n == 1 && lost == 0
    ensures (forall events: seq<Event> | WorkersBelow(events, n) ::
      Run(events).calls <= MAX_RECOVERY_ATTEMPTS + Run(events).unrecorded) <==> n == 1
  {
    LimitIff(MAX_RECOVERY_ATTEMPTS, n, lost);
    hide Run, Worst, Limit;
    if n == 1 {
      forall events: seq<Event> | WorkersBelow(events, n)
        ensures Run(events).calls <= MAX_RECOVERY_ATTEMPTS + Run(events).unrecorded {
        AttemptsAreBounded(events, n);
      }
    } else {
      WorstIsReached(n, 0);
      assert WorkersBelow(Worst(n, 0), n);
    }
  }

  /** The failing input with a single worker: eleven lost results, eleven requests, and a row that counted none. */
  lemma LostResultsAreNotCounted()
    ensures WorkersBelow(Losing(11), 1) && Run(Losing(11)).calls > MAX_RECOVERY_ATTEMPTS
      && Run(Losing(11)).row == START.row
  {
    AfterLosing(11);
    hide Losing;
  }

  // ---- The worker ----

  /** The actions of one worker among a log of events. */
  function OwnActions(events: seq<Event>, w: WorkerId): seq<Action> {
    if events == [] then []
    else
      var last := events[|events| - 1];
      OwnActions(events[..|events| - 1], w) + if last.worker == w then [last.action] else []
  }

  /** The action row, the memory of every worker and the log of all that happened. */
  class Deployment {
    var state: State
    ghost var log: seq<Event>

    ghost predicate Valid()
      reads this
    {
      state == Run(log)
    }

    constructor ()
      ensures Valid() && log == []
    {
      state, log := START, [];
    }

    method Step(e: Event)
      requires Valid()
      modifies this
      ensures Valid() && log == old(log) + [e] && state == Next(old(state), e)
      ensures forall w :: OwnActions(log, w) == old(OwnActions(log, w)) + if e.worker == w then [e.action] else []
    {
      state := Next(state, e);
      log := log + [e];
      assert log[..|log| - 1] == old(log);
    }

    /** Other workers act. */
    method Others(w: WorkerId, schedule: seq<Event>)
      requires Valid()
      modifies this
      ensures Valid() && old(log) <= log && OwnActions(log, w) == old(OwnActions(log, w))
      ensures w in state.held <==> w in old(state).held
      ensures w in state.held ==> state.held[w] == old(state).held[w]
    {
      for i := 0 to |schedule|
        invariant Valid() && old(log) <= log && OwnActions(log, w) == old(OwnActions(log, w))
        invariant w in state.held <==> w in old(state).held
        invariant w in state.held ==> state.held[w] == old(state).held[w]
      {
        if schedule[i].worker != w {
          Step(schedule[i]);
        }
      }
    }
  }

  datatype Incident = Unreadable | Missing | Revoked | Found

  datatype Creation = Created(command: CommandId) | ActiveConflict(active: Option<CommandId>) | CreationFailed

  /** Everything one pass meets: the store, the incident, the command service, the clock and the other workers. */
  datatype Environment = Environment(
    now: int, claimFails: bool, incident: Incident, creation: Creation, recorded: bool, others: nat -> seq<Event>)

  /** What the answers of incident store and command service amount to. */
  function OutcomeOf(incident: Incident, creation: Creation): Outcome {
    match incident
    case Missing => IncidentMissing
    case Revoked => DeviceRevoked
    case _ =>
      match creation
      case Created(command) => Queued(command)
      case ActiveConflict(Some(command)) => AlreadyActive(command)
      case _ => NotResolved
  }

  /** A created command is queued, the command in its way is adopted, and everything else is still to be resolved. */
  lemma AnswersMean(incident: Incident, creation: Creation)
    ensures var o := OutcomeOf(incident, creation);
      && (o == IncidentMissing <==> incident == Missing) && (o == DeviceRevoked <==> incident == Revoked)
      && (o.Queued? || o.AlreadyActive? ==> incident in {Found, Unreadable})
      && (incident == Found ==>
            && (forall c :: o == Queued(c) <==> creation == Created(c))
            && (forall c :: o == AlreadyActive(c) <==> creation == ActiveConflict(Some(c))))
  {
  }

  class RecoveryWorker {
    const deployment: Deployment
    const me: WorkerId

    constructor (deployment: Deployment, me: WorkerId)
      ensures this.deployment == deployment && this.me == me
    {
      this.deployment, this.me := deployment, me;
    }

    /**
     * One pass: nothing without a due row; otherwise one claim, at most one request
     * for a command, and the one decision on the count that was claimed.
     */
    method ProcessOne(env: Environment) returns (snapshot: Option<nat>)
      requires deployment.Valid() && me !in deployment.state.held
      modifies deployment
      ensures deployment.Valid() && old(deployment.log) <= deployment.log && me !in deployment.state.held
      ensures env.claimFails ==> snapshot == None
      ensures snapshot == None && !env.claimFails ==>
        var row := deployment.state.row;
        row.state != Pending || (row.nextAttemptAt.Some? && env.now < row.nextAttemptAt.value)
      ensures OwnActions(deployment.log, me) == old(OwnActions(deployment.log, me)) +
        match snapshot
        case None => []
        case Some(count) =>
          if env.incident == Unreadable then [Claim(env.now), Vanish(false)]
          else
            var outcome := OutcomeOf(env.incident, env.creation);
            [Claim(env.now), Resolve(outcome, env.now, Decide(count, outcome, env.now), env.recorded)]
    {
      hide Run, OwnActions, FinishRow;
      deployment.Others(me, env.others(0));
      if env.claimFails || !Due(deployment.state.row, env.now) {
        return None;
      }
      var attempts := deployment.state.row.attempts;
      snapshot := Some(attempts);
      deployment.Step(Event(me, Claim(env.now)));
      deployment.Others(me, env.others(1));
      match env.incident
      case Unreadable => deployment.Step(Event(me, Vanish(false)));
      case Missing => Record(env, attempts, IncidentMissing, Block(RECOVERY_FAILED));
      case Revoked => Record(env, attempts, DeviceRevoked, Block(NO_LONGER_ACTIVE));
      case Found =>
        match env.creation
        case Created(command) => Record(env, attempts, Queued(command), Complete(command, RECOVERY_QUEUED));
        case ActiveConflict(Some(command)) =>
          Record(env, attempts, AlreadyActive(command), Complete(command, RECOVERY_EXISTING));
        case _ => RetryOrBlock(env, attempts);
    }

    method RetryOrBlock(env: Environment, attempts: nat)
      requires deployment.Valid() && me in deployment.state.held && deployment.state.held[me] == attempts
      modifies deployment
      ensures deployment.Valid() && old(deployment.log) <= deployment.log && me !in deployment.state.held
      ensures OwnActions(deployment.log, me) == old(OwnActions(deployment.log, me)) +
        [Resolve(NotResolved, env.now, Decide(attempts, NotResolved, env.now), env.recorded)]
    {
      if attempts + 1 >= MAX_RECOVERY_ATTEMPTS {
        Record(env, attempts, NotResolved, Block(RECOVERY_FAILED));
        return;
      }
      var backoff := (attempts + 1) * Backoff.MINUTE;
      if backoff > MAX_BACKOFF {
        backoff := MAX_BACKOFF;
      }
      Record(env, attempts, NotResolved, RetryLater(env.now + backoff));
    }

    /** Others may still act before the one statement that records the result. */
    method Record(env: Environment, attempts: nat, outcome: Outcome, f: Finish)
      requires deployment.Valid() && me in deployment.state.held && deployment.state.held[me] == attempts
      requires f == Decide(attempts, outcome, env.now)
      modifies deployment
      ensures deployment.Valid() && old(deployment.log) <= deployment.log && me !in deployment.state.held
      ensures OwnActions(deployment.log, me) == old(OwnActions(deployment.log, me))
        + [Resolve(outcome, env.now, f, env.recorded)]
    {
      deployment.Others(me, env.others(2));
      deployment.Step(Event(me, Resolve(outcome, env.now, f, env.recorded)));
    }
  }
}
