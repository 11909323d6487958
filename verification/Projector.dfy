/**
 * The drain loop of a catalog projector (internal/catalog/projector.go) over the
 * processing rows (db/queries/catalog_projection.sql), while other projectors, other
 * instances and ingestion act between its steps.
 *
 * Arrivals and graph advances come from outside; `left` is how many of them are
 * still to come, and `failing` how many attempts of other instances are still to
 * fail, if that is bounded. Everything else the others do is free.
 */
module Projector {
  import opened Wrappers

  type EventId = nat

  /** No row yet, or its status. A block on a missing relation remembers when it was decided. */
  datatype Row = Fresh | Pending | Retry(next: int) | Blocked(relation: bool, at: nat) | Processed

  datatype Outcome = OutcomeProcessed | OutcomeAlready | OutcomeBlocked | OutcomeNotDue | OutcomeRetryable

  /** Terminal outcomes leave discovery; the others get one attempt in a drain. */
  predicate Settles(o: Outcome) {
    o.OutcomeProcessed? || o.OutcomeAlready? || o.OutcomeBlocked?
  }

  /** graph says when a category that an event refers to was last projected. */
  datatype State = State(rows: map<EventId, Row>, graph: map<EventId, nat>, now: nat, left: nat, failing: Option<nat>)

  predicate IsTerminal(row: Row) {
    row.Blocked? || row.Processed?
  }

  /** The graph has advanced since the block was decided. */
  predicate Rearmable(s: State, id: EventId) {
    id in s.rows && s.rows[id].Blocked? && s.rows[id].relation && id in s.graph && s.graph[id] > s.rows[id].at
  }

  /** Done with until the graph advances again. */
  predicate Settled(s: State, id: EventId) {
    id in s.rows && IsTerminal(s.rows[id]) && !Rearmable(s, id)
  }

  predicate Due(s: State, id: EventId, asOf: int) {
    id in s.rows && (s.rows[id].Fresh? || s.rows[id].Pending? || (s.rows[id].Retry? && s.rows[id].next <= asOf))
  }

  /** One atomic step on the tables. */
  datatype Op =
    | Arrive(id: EventId)
    | Advance(related: set<EventId>, reset: bool)
    | Rearm
    | Project(id: EventId, attempt: Attempt, asOf: int)
    | Pass

  /** How projecting goes when the row does not decide already. A condemned event is refused for its content alone. */
  datatype Attempt = Fails(next: int) | Succeeds(already: bool) | Blocks(relation: bool) | Condemns

  /**
   * The claim honours terminal and not-due rows; otherwise the attempt marks the row.
   * A condemned event is answered as blocked also when its row is not due.
   */
  function Projected(row: Row, attempt: Attempt, asOf: int, now: nat): (Outcome, Row) {
    if row.Processed? then (OutcomeProcessed, row)
    else if row.Blocked? then (OutcomeBlocked, row)
    else if row.Retry? && row.next > asOf then (if attempt.Condemns? then OutcomeBlocked else OutcomeNotDue, row)
    else
      match attempt
      case Fails(next) => (OutcomeRetryable, Retry(next))
      case Succeeds(already) => (if already then OutcomeAlready else OutcomeProcessed, Processed)
      case Blocks(relation) => (OutcomeBlocked, Blocked(relation, now))
      case Condemns => (OutcomeBlocked, Blocked(false, now))
  }

  function Apply(s: State, op: Op): State {
    match op
    case Arrive(id) =>
      if s.left == 0 || id in s.rows then s else s.(rows := s.rows[id := Fresh], left := s.left - 1)
    case Advance(related, reset) =>
      if s.left == 0 then s else
      var graph := map id | id in s.graph.Keys + related :: if id in related then s.now + 1 else s.graph[id];
      var rows := map id | id in s.rows ::
        if reset && id in related
          && (s.rows[id].Retry? || (s.rows[id].Blocked? && s.rows[id].relation)) then Pending else s.rows[id];
      State(rows, graph, s.now + 1, s.left - 1, s.failing)
    case Rearm => s.(rows := map id | id in s.rows :: if Rearmable(s, id) then Pending else s.rows[id])
    case Project(id, attempt, asOf) =>
      if id in s.rows then s.(rows := s.rows[id := Projected(s.rows[id], attempt, asOf, s.now).1]) else s
    case Pass => s
  }

  /** A step of another instance: where failures are bounded, only so many of its attempts fail. */
  function Elsewhere(s: State, op: Op): State {
    if op.Project? && op.attempt.Fails? && s.failing.Some? then
      if s.failing.value == 0 then s else Apply(s, op).(failing := Some(s.failing.value - 1))
    else Apply(s, op)
  }

  function Failing(s: State): nat {
    if s.failing.Some? then s.failing.value else 0
  }

  /** No outside change was added. */
  predicate Fewer(s: State, t: State) {
    t.left <= s.left && Failing(t) <= Failing(s) && (t.failing.Some? <==> s.failing.Some?)
  }

  predicate Clocked(s: State) {
    forall id | id in s.graph :: s.graph[id] <= s.now
  }

  /** Events that may still be worked on: not tried in vain, not done with. */
  ghost function Open(s: State, deferred: set<EventId>): set<EventId> {
    set id | id in s.rows && id !in deferred && !Settled(s, id)
  }

  /** Without an arrival or a graph advance nothing becomes open, and nothing done with comes back. */
  ghost predicate Settling(s: State, t: State) {
    && Fewer(s, t) && s.rows.Keys <= t.rows.Keys
    && (t.left == s.left ==>
          && s.rows.Keys == t.rows.Keys
          && (forall id | id in s.rows && Settled(s, id) :: Settled(t, id))
          && (forall id | id in s.rows && Rearmable(t, id) :: Rearmable(s, id)))
  }

  /** No retry was scheduled for the event, unless another instance failed on something. */
  predicate NoNewRetry(s: State, t: State, id: EventId) {
    s.failing.Some? && id in t.rows && t.rows[id].Retry? ==>
      Failing(t) < Failing(s) || (id in s.rows && s.rows[id] == t.rows[id])
  }

  lemma ApplySettles(s: State, op: Op)
    requires Clocked(s)
    ensures Clocked(Apply(s, op)) && Settling(s, Apply(s, op))
    ensures Clocked(Elsewhere(s, op)) && Settling(s, Elsewhere(s, op))
  {
  }

  /** Only attempts of this projector, and failing ones of others, schedule retries. */
  lemma RetriesAreCounted(s: State, op: Op, id: EventId)
    ensures NoNewRetry(s, Elsewhere(s, op), id)
    ensures op.Project? && op.id != id ==> NoNewRetry(s, Apply(s, op), id)
    ensures op.Pass? || op.Rearm? ==> NoNewRetry(s, Apply(s, op), id)
  {
  }

  lemma NoNewRetryTransitive(s: State, t: State, u: State, id: EventId)
    requires NoNewRetry(s, t, id) && NoNewRetry(t, u, id) && Fewer(s, t) && Fewer(t, u)
    ensures NoNewRetry(s, u, id)
  {
  }

  /** A blocked answer leaves no terminal row exactly for a condemned event whose row is not due. */
  lemma BlockedButOpenIff(row: Row, attempt: Attempt, asOf: int, now: nat)
    ensures var (outcome, after) := Projected(row, attempt, asOf, now);
      && (Settles(outcome) && !IsTerminal(after) <==> attempt.Condemns? && row.Retry? && row.next > asOf)
      && (Settles(outcome) && !IsTerminal(after) ==> outcome.OutcomeBlocked? && after == row)
  {
  }

  lemma SettlingTransitive(s: State, t: State, u: State)
    requires Settling(s, t) && Settling(t, u)
    ensures Settling(s, u)
  {
  }

  lemma SettlingShrinks(s: State, t: State, deferred: set<EventId>, more: set<EventId>)
    requires Settling(s, t) && t.left == s.left && deferred <= more
    ensures Open(t, more) <= Open(s, deferred)
  {
  }

  /** Passing changes nothing, and re-arming only what may be re-armed. */
  lemma PassesBy(s: State, op: Op)
    ensures op.Pass? || (op.Rearm? && forall id | id in s.rows :: !Rearmable(s, id)) ==> Apply(s, op) == s
  {
    if op.Rearm? && forall id | id in s.rows :: !Rearmable(s, id) {
      assert Apply(s, op).rows == s.rows;
    }
  }

  /**
   * Re-arming makes exactly those blocked rows pending again whose missing category has
   * been projected since they were blocked, and leaves none of them behind.
   */
  lemma RearmsExactly(s: State, id: EventId, asOf: int)
    requires id in s.rows
    ensures var t, row := Apply(s, Rearm), s.rows[id];
      && t.rows.Keys == s.rows.Keys && t == s.(rows := t.rows) && !Rearmable(t, id)
      && (if row.Blocked? && row.relation && id in s.graph && row.at < s.graph[id]
          then t.rows[id] == Pending && Due(t, id, asOf)
          else t.rows[id] == row)
  {
  }

  lemma NothingRearmable(s: State)
    ensures forall id | id in Apply(s, Rearm).rows :: !Rearmable(Apply(s, Rearm), id)
  {
  }

  /** Without an arrival or a graph advance no row becomes one to re-arm. */
  lemma StaysUnarmed(head: State, s: State, t: State)
    requires Settling(head, s) && Settling(s, t)
    ensures (forall id | id in s.rows :: !Rearmable(s, id)) && t.left == head.left ==>
      forall id | id in t.rows :: !Rearmable(t, id)
  {
  }

  /** A claim works on new, pending and fallen-due rows alone, and marks them with what the attempt came to. */
  lemma ClaimsMark(row: Row, attempt: Attempt, asOf: int, now: nat)
    ensures var (outcome, after) := Projected(row, attempt, asOf, now);
      if row == Fresh || row == Pending || (row.Retry? && row.next <= asOf) then
        && (attempt == Succeeds(true) ==> outcome == OutcomeAlready && after == Processed)
        && (attempt == Succeeds(false) ==> outcome == OutcomeProcessed && after == Processed)
        && (attempt.Fails? ==> outcome == OutcomeRetryable && after == Retry(attempt.next))
        && (attempt.Blocks? ==> outcome == OutcomeBlocked && after == Blocked(attempt.relation, now))
        && (attempt.Condemns? ==> outcome == OutcomeBlocked && after == Blocked(false, now))
      else
        && after == row
        && (outcome.OutcomeNotDue? <==> row.Retry? && !attempt.Condemns?)
        && (outcome.OutcomeProcessed? <==> row.Processed?)
        && (outcome.OutcomeBlocked? <==> row.Blocked? || (row.Retry? && attempt.Condemns?))
  {
  }

  /** What happens around one store call. */
  datatype Moment = Moment(others: seq<Op>, cancelled: bool, fails: bool, asOf: int, attempt: Attempt)

  /** An attempt, its outcome and how many outside changes were still to come when its batch was discovered. */
  datatype Record = Record(id: EventId, outcome: Outcome, left: nat, failing: nat)

  /** Nobody interferes and nothing fails. */
  predicate Calm(m: Moment) {
    m.others == [] && !m.cancelled && !m.fails
  }

  ghost predicate ForwardFrom(moments: nat -> Moment, n: nat) {
    forall i: nat, j: nat | n <= i <= j :: moments(i).asOf <= moments(j).asOf
  }

  ghost predicate NothingCondemned(moments: nat -> Moment) {
    forall i: nat :: !moments(i).attempt.Condemns?
  }

  /**
   * From moment n on every terminal outcome closes its event or is accounted for:
   * nothing is condemned, or the clock goes forward and the others stop failing.
   */
  ghost predicate Closes(moments: nat -> Moment, s: State, n: nat) {
    NothingCondemned(moments) || (s.failing.Some? && ForwardFrom(moments, n))
  }

  /** Sooner or later. */
  ghost predicate Ends(moments: nat -> Moment, s: State) {
    exists n: nat :: Closes(moments, s, n)
  }

  lemma ClosesLater(moments: nat -> Moment, s: State, t: State, m: nat, n: nat)
    requires Closes(moments, s, m) && m <= n && Fewer(s, t)
    ensures Closes(moments, t, n)
  {
  }

  // ---- A single condemned event ----

  /** What the clock says at the discovery and at the claim of one round. */
  datatype Reading = Reading(found: int, claimed: int)

  /** A round over a condemned event that nobody else touches: the drain stops, or goes on in the state that is left. */
  function CondemnedRound(s: State, id: EventId, r: Reading): Option<State> {
    if Due(s, id, r.found) then Some(Apply(s, Project(id, Condemns, r.claimed))) else None
  }

  function CondemnedRounds(s: State, id: EventId, readings: seq<Reading>): Option<State> {
    if readings == [] then Some(s)
    else
      var before := CondemnedRounds(s, id, readings[..|readings| - 1]);
      if before.None? then None else CondemnedRound(before.value, id, readings[|readings| - 1])
  }

  /** Due when it is looked for, and not when it is claimed. */
  predicate StepsBack(r: Reading, next: int) {
    r.claimed < next <= r.found
  }

  predicate AllStepBack(readings: seq<Reading>, next: int) {
    forall i | 0 <= i < |readings| :: StepsBack(readings[i], next)
  }

  /**
   * A drain meets a condemned event whose retry falls due at `next`. After any number
   * of rounds it goes on as it began exactly when in each of them the clock stepped
   * back across `next` between discovery and claim; otherwise it has stopped, or
   * closed the event.
   */
  lemma {:induction false} RepeatsIff(s: State, id: EventId, next: int, readings: seq<Reading>)
    requires s.rows == map[id := Retry(next)]
    ensures CondemnedRounds(s, id, readings) == Some(s) <==> AllStepBack(readings, next)
    ensures CondemnedRounds(s, id, readings).Some? && CondemnedRounds(s, id, readings) != Some(s) ==>
      CondemnedRounds(s, id, readings) == Some(s.(rows := map[id := Blocked(false, s.now)]))
  {
    if readings != [] {
      var k := |readings| - 1;
      RepeatsIff(s, id, next, readings[..k]);
      assert s.rows[id := Retry(next)] == s.rows;
      assert s.rows[id := Blocked(false, s.now)] == map[id := Blocked(false, s.now)];
      assert AllStepBack(readings, next) <==> AllStepBack(readings[..k], next) && StepsBack(readings[k], next);
    }
  }

  function FirstReadings(clock: nat -> Reading, k: nat): (r: seq<Reading>)
    ensures |r| == k && forall i | 0 <= i < k :: r[i] == clock(i)
  {
    seq(k, i requires 0 <= i < k => clock(i))
  }

  lemma OneMoreReading(s: State, id: EventId, clock: nat -> Reading, k: nat)
    ensures var before := CondemnedRounds(s, id, FirstReadings(clock, k));
      CondemnedRounds(s, id, FirstReadings(clock, k + 1)) ==
        if before.None? then None else CondemnedRound(before.value, id, clock(k))
  {
    assert FirstReadings(clock, k + 1)[..k] == FirstReadings(clock, k);
  }

  /** Such a drain goes on for ever exactly when the clock steps back across `next` in every round. */
  lemma NeverEndsIff(s: State, id: EventId, next: int, clock: nat -> Reading)
    requires s.rows == map[id := Retry(next)]
    ensures (forall k: nat :: CondemnedRounds(s, id, FirstReadings(clock, k)).Some?) <==> forall i: nat ::
      StepsBack(clock(i), next)
  {
    if forall i: nat :: StepsBack(clock(i), next) {
      forall k: nat ensures CondemnedRounds(s, id, FirstReadings(clock, k)).Some? {
        RepeatsIff(s, id, next, FirstReadings(clock, k));
      }
    } else {
      var i: nat :| !StepsBack(clock(i), next);
      StopsAfter(s, id, next, clock, i);
    }
  }

  lemma StopsAfter(s: State, id: EventId, next: int, clock: nat -> Reading, i: nat)
    requires s.rows == map[id := Retry(next)] && !StepsBack(clock(i), next)
    ensures CondemnedRounds(s, id, FirstReadings(clock, i + 2)).None?
  {
    var one, two := FirstReadings(clock, i + 1), FirstReadings(clock, i + 2);
    RepeatsIff(s, id, next, one);
    assert !StepsBack(one[i], next);
    assert two[..i + 1] == one;
  }

  datatype Stop = Cancelled | StoreFailed | NothingDue(asOf: int) | NothingNew(batch: seq<EventId>)

  predicate Distinct(ids: seq<EventId>) {
    forall i, j | 0 <= i < j < |ids| :: ids[i] != ids[j]
  }

  /** Discovery: up to a batch of due events, and all of them when they fit. */
  predicate Discovers(s: State, asOf: int, batchSize: nat, ids: seq<EventId>) {
    && Distinct(ids) && |ids| <= batchSize
    && (forall i | 0 <= i < |ids| :: Due(s, ids[i], asOf))
    && (|ids| < batchSize ==> forall id | id in s.rows && Due(s, id, asOf) :: id in ids)
  }

  lemma LoneBatch(s: State, id: EventId, asOf: int, batchSize: nat, ids: seq<EventId>)
    requires s.rows.Keys == {id} && batchSize > 0 && Discovers(s, asOf, batchSize, ids)
    ensures ids == if Due(s, id, asOf) then [id] else []
  {
    forall i | 0 <= i < |ids| ensures ids[i] == id {
      assert Due(s, ids[i], asOf);
      assert ids[i] in s.rows.Keys;
    }
    assert id in s.rows.Keys;
    if ids != [] {
      var last := |ids| - 1;
      assert ids[0] == ids[last];
      assert ids == [ids[0]];
    } else {
      assert Due(s, id, asOf) ==> id in ids;
    }
  }

  /** An arrival or advance came since, or, behind a blocked answer, another instance's attempt failed. */
  predicate Reopened(r: Record, left: nat, failing: nat) {
    left < r.left || (r.outcome.OutcomeBlocked? && failing < r.failing)
  }

  /** An event that was tried in vain is not tried again. */
  ghost predicate OnceInVain(attempts: seq<Record>) {
    forall i, j | 0 <= i < j < |attempts| && attempts[i].id == attempts[j].id :: Settles(attempts[i].outcome)
  }

  /** What is tried again was reopened from outside. */
  ghost predicate OnlyReopened(attempts: seq<Record>) {
    forall i, j | 0 <= i < j < |attempts| && attempts[i].id == attempts[j].id ::
      Reopened(attempts[i], attempts[j].left, attempts[j].failing)
  }

  /** Tried once in this drain, without a terminal outcome. */
  ghost predicate TriedInVain(attempts: seq<Record>, id: EventId) {
    exists i | 0 <= i < |attempts| :: attempts[i].id == id && !Settles(attempts[i].outcome)
  }

  ghost predicate AnyProcessed(attempts: seq<Record>) {
    exists i | 0 <= i < |attempts| :: attempts[i].outcome == OutcomeProcessed
  }

  /** What a drain keeps, whatever the clock says: exactly the events tried in vain are deferred. */
  ghost predicate Tracked(attempts: seq<Record>, deferred: set<EventId>, progressed: bool) {
    && OnceInVain(attempts)
    && (forall i | 0 <= i < |attempts| && !Settles(attempts[i].outcome) :: attempts[i].id in deferred)
    && (forall id | id in deferred :: TriedInVain(attempts, id))
    && (progressed <==> AnyProcessed(attempts))
  }

  /** What an earlier attempt says about an event now. */
  ghost predicate Remembered(attempts: seq<Record>, s: State) {
    forall i | 0 <= i < |attempts| ::
      && s.left <= attempts[i].left && Failing(s) <= attempts[i].failing && attempts[i].id in s.rows
      && (Settles(attempts[i].outcome) ==> Reopened(attempts[i], s.left, Failing(s)) || Settled(s, attempts[i].id))
  }

  ghost predicate Accounted(attempts: seq<Record>, s: State) {
    OnlyReopened(attempts) && Remembered(attempts, s)
  }

  /** Tried before only ahead of an outside change. */
  ghost predicate Untried(attempts: seq<Record>, start: State, id: EventId) {
    forall k | 0 <= k < |attempts| && attempts[k].id == id :: Reopened(attempts[k], start.left, Failing(start))
  }

  /** Fewer outside changes are to come, or fewer events are open. */
  ghost predicate Nearer(s: State, deferred: set<EventId>, t: State, more: set<EventId>) {
    || t.left < s.left
    || (t.left == s.left
          && (Failing(t) < Failing(s) || (Failing(t) == Failing(s) && Open(t, more) < Open(s, deferred))))
  }

  lemma OneMore(attempts: seq<Record>, r: Record)
    ensures AnyProcessed(attempts + [r]) <==> AnyProcessed(attempts) || r.outcome == OutcomeProcessed
    ensures forall id :: TriedInVain(attempts + [r], id) <==>
      TriedInVain(attempts, id) || (r.id == id && !Settles(r.outcome))
  {
    var all := attempts + [r];
    assert all[|attempts|] == r && forall i | 0 <= i < |attempts| :: all[i] == attempts[i];
  }

  class Projector {
    const rearmBlocked: bool
    const batchSize: nat
    const moments: nat -> Moment
    var tick: nat
    var state: State

    ghost predicate Valid()
      reads this
    {
      Clocked(state)
    }

    constructor (rearmBlocked: bool, batchSize: nat, moments: nat -> Moment, state: State)
      requires Clocked(state)
      ensures Valid() && this.state == state && this.rearmBlocked == rearmBlocked && this.batchSize == batchSize
    {
      this.rearmBlocked, this.batchSize, this.moments := rearmBlocked, batchSize, moments;
      this.tick, this.state := 0, state;
    }

    /** A drain gives up only because it was cancelled, or because a store call failed. */
    ghost predicate Stopped(stop: Stop, begin: nat, end: nat) {
      && (stop.Cancelled? ==> exists i | begin <= i <= end :: moments(i).cancelled)
      && (stop.StoreFailed? ==> exists i | begin <= i <= end :: moments(i).fails)
    }

    lemma StoppedSince(stop: Stop, earlier: nat, begin: nat, end: nat)
      requires earlier <= begin && Stopped(stop, begin, end)
      ensures Stopped(stop, earlier, end)
    {
    }

    /** One step of this projector, after whatever the others do. */
    method Step(op: Op) returns (m: Moment, ghost met: State)
      requires Valid()
      modifies this
      ensures Valid() && Clocked(met) && Settling(old(state), met) && state == Apply(met, op)
        && Settling(old(state), state)
      ensures m == moments(old(tick)) && tick == old(tick) + 1
      ensures m.others == [] ==> met == old(state)
      ensures op.Pass? ==> state == met
      ensures forall id :: NoNewRetry(old(state), met, id)
      ensures op.Pass? || op.Rearm? ==> forall id :: NoNewRetry(old(state), state, id)
    {
      hide Apply, Elsewhere;
      m := moments(tick);
      tick := tick + 1;
      for i := 0 to |m.others|
        invariant Valid() && Settling(old(state), state) && tick == old(tick) + 1
        invariant i == 0 ==> state == old(state)
        invariant forall id :: NoNewRetry(old(state), state, id)
      {
        ghost var before := state;
        ApplySettles(state, m.others[i]);
        state := Elsewhere(state, m.others[i]);
        SettlingTransitive(old(state), before, state);
        forall id ensures NoNewRetry(old(state), state, id) {
          RetriesAreCounted(before, m.others[i], id);
          NoNewRetryTransitive(old(state), before, state, id);
        }
      }
      met := state;
      ApplySettles(state, op);
      PassesBy(state, op);
      state := Apply(state, op);
      SettlingTransitive(old(state), met, state);
      if op.Pass? || op.Rearm? {
        forall id ensures NoNewRetry(old(state), state, id) {
          RetriesAreCounted(met, op, id);
          NoNewRetryTransitive(old(state), met, state, id);
        }
      }
    }

    /** The pending events, in some order. */
    method PendingCatalogEvents() returns (r: Option<seq<EventId>>, asOf: int)
      requires Valid()
      modifies this
      ensures Valid() && Settling(old(state), state)
      ensures asOf == moments(old(tick)).asOf && tick == old(tick) + 1
      ensures Calm(moments(old(tick))) ==> r.Some? && state == old(state)
      ensures r.None? ==> moments(old(tick)).fails
      ensures r.Some? ==> Discovers(state, asOf, batchSize, r.value)
    {
      var m, met := Step(Pass);
      asOf := m.asOf;
      if m.fails {
        return None, asOf;
      }
      var ids: seq<EventId> := [];
      var remaining := set id | id in state.rows && Due(state, id, m.asOf);
      while remaining != {} && |ids| < batchSize
        invariant Distinct(ids) && |ids| <= batchSize
        invariant forall id | id in remaining :: Due(state, id, asOf)
        invariant forall i | 0 <= i < |ids| :: Due(state, ids[i], asOf) && ids[i] !in remaining
        invariant forall id | id in state.rows && Due(state, id, asOf) :: id in ids || id in remaining
        decreases |remaining|
      {
        var id :| id in remaining;
        ids := ids + [id];
        remaining := remaining - {id};
      }
      return Some(ids), asOf;
    }

    /**
     * What a terminal outcome leaves: a terminal row, or a condemned event whose row is
     * not due at the moment of its claim.
     */
    ghost predicate Leaves(outcome: Outcome, id: EventId, before: State, claimed: nat)
      reads this
    {
      Settles(outcome) ==>
        && id in state.rows
        && (state.rows[id].Processed? || outcome.OutcomeBlocked?)
        && (IsTerminal(state.rows[id])
            || (outcome.OutcomeBlocked? && moments(claimed).attempt.Condemns? && NoNewRetry(before, state, id)
                && state.rows[id].Retry? && state.rows[id].next > moments(claimed).asOf))
    }

    /** A claim that nobody interferes with. */
    predicate ClaimedAlone(outcome: Outcome, id: EventId, before: State, after: State, claimed: nat) {
      var m := moments(claimed);
      && id in before.rows
      && outcome == Projected(before.rows[id], m.attempt, m.asOf, before.now).0
      && after == Apply(before, Project(id, m.attempt, m.asOf))
    }

    /** Loads and projects one event; what cannot be loaded is retried later. */
    method ProjectOnce(id: EventId) returns (outcome: Outcome, ghost claimed: nat)
      requires Valid()
      modifies this
      ensures Valid() && Settling(old(state), state) && old(tick) <= claimed <= tick
      ensures forall other | other != id :: NoNewRetry(old(state), state, other)
      ensures Leaves(outcome, id, old(state), claimed)
      ensures Calm(moments(old(tick))) && Calm(moments(old(tick) + 1)) && id in old(state).rows ==>
        tick == old(tick) + 2 && ClaimedAlone(outcome, id, old(state), state, old(tick) + 1)
    {
      hide Apply;
      var loading, _ := Step(Pass);
      claimed := tick;
      if loading.fails || id !in state.rows {
        return OutcomeRetryable, claimed;
      }
      ghost var loaded := state;
      outcome := Attempted(id);
      SettlingTransitive(old(state), loaded, state);
      forall other ensures NoNewRetry(loaded, state, other) ==> NoNewRetry(old(state), state, other) {
        if NoNewRetry(loaded, state, other) {
          NoNewRetryTransitive(old(state), loaded, state, other);
        }
      }
    }

    /** One atomic claim and projection; a failed transaction is a retryable outcome. */
    method Attempted(id: EventId) returns (outcome: Outcome)
      requires Valid()
      modifies this
      ensures Valid() && Settling(old(state), state) && tick == old(tick) + 1
      ensures forall other | other != id :: NoNewRetry(old(state), state, other)
      ensures Leaves(outcome, id, old(state), old(tick))
      ensures Calm(moments(old(tick))) && id in old(state).rows ==>
        ClaimedAlone(outcome, id, old(state), state, old(tick))
    {
      var m, met := Step(Pass);
      assert met == state;
      if m.fails || id !in state.rows {
        return OutcomeRetryable;
      }
      outcome := Projected(state.rows[id], m.attempt, m.asOf, state.now).0;
      BlockedButOpenIff(met.rows[id], m.attempt, m.asOf, met.now);
      ApplySettles(state, Project(id, m.attempt, m.asOf));
      state := Apply(state, Project(id, m.attempt, m.asOf));
      SettlingTransitive(old(state), met, state);
      forall other | other != id ensures NoNewRetry(old(state), state, other) {
        RetriesAreCounted(met, Project(id, m.attempt, m.asOf), other);
        NoNewRetryTransitive(old(state), met, state, other);
      }
      assert state.rows[id] == Projected(met.rows[id], m.attempt, m.asOf, met.now).1;
      if Settles(outcome) && !IsTerminal(state.rows[id]) {
        assert state.rows[id] == met.rows[id];
        assert NoNewRetry(old(state), met, id);
      }
    }

    /**
     * One batch of due events. Whatever the clock says, deferred events are skipped
     * and those tried in vain become deferred; and where every terminal outcome
     * closes its event, a batch that attempts anything comes nearer to the end.
     */
    method DrainBatch(ids: seq<EventId>, ghost found: nat, progressed0: bool, deferred0: set<EventId>,
        ghost attempts0: seq<Record>)
      returns (outOfTime: bool, attempted: bool, progressed: bool, deferred: set<EventId>, ghost attempts: seq<Record>,
               ghost last: Outcome)
      requires Valid() && found < tick
      requires Distinct(ids) && forall i | 0 <= i < |ids| :: Due(state, ids[i], moments(found).asOf)
      requires Tracked(attempts0, deferred0, progressed0)
      modifies this
      ensures Valid() && Fewer(old(state), state) && old(tick) <= tick
      ensures Tracked(attempts, deferred, progressed)
      ensures outOfTime ==> Stopped(Cancelled, old(tick), tick)
      ensures Closes(moments, old(state), found) && Accounted(attempts0, old(state)) ==> Accounted(attempts, state)
      ensures Closes(moments, old(state), found) && !outOfTime && attempted ==>
        Nearer(old(state), deferred0, state, deferred)
      ensures !outOfTime && !attempted ==> deferred == deferred0 && forall id | id in ids :: id in deferred
      ensures |ids| == 1 && ids[0] !in deferred0 && Calm(moments(old(tick))) && Calm(moments(old(tick) + 1)) ==>
        && !outOfTime && attempted && tick == old(tick) + 2
        && ClaimedAlone(last, ids[0], old(state), state, old(tick) + 1) && (Settles(last) ==> deferred == deferred0)
    {
      hide Apply, Projected, Settled, Settling, Tracked, Accounted, Due, Open, NoNewRetry, Closes, Untried, Fewer,
        ClaimedAlone, Leaves;
      attempted, progressed, deferred, attempts, last := false, progressed0, deferred0, attempts0, OutcomeRetryable;
      ghost var start, closed: set<EventId>, asOf := state, {}, moments(found).asOf;
      ghost var closes := Closes(moments, start, found);
      ghost var accounted := closes && Accounted(attempts, start);
      ghost var calm := Calm(moments(tick)) && Calm(moments(tick + 1));
      SettlingReflexive(start);
      NoNewRetryReflexive(start);
      if accounted {
        DueIsUntried(ids, asOf, attempts, start, deferred, progressed);
      }
      for i := 0 to |ids|
        invariant Valid() && Settling(start, state) && deferred0 <= deferred && found < tick && old(tick) <= tick
        invariant i == 0 ==> state == start && tick == old(tick) && deferred == deferred0 && !attempted
        invariant i == 1 && |ids| == 1 && ids[0] !in deferred0 && calm ==>
          && attempted && tick == old(tick) + 2
          && ClaimedAlone(last, ids[0], start, state, old(tick) + 1) && (Settles(last) ==> deferred == deferred0)
        invariant Tracked(attempts, deferred, progressed)
        invariant forall j | i <= j < |ids| && ids[j] !in deferred0 :: ids[j] !in deferred
        invariant forall j | i <= j < |ids| :: NoNewRetry(start, state, ids[j])
        invariant accounted ==> Accounted(attempts, state)
        invariant accounted ==> forall j | i <= j < |ids| && ids[j] !in deferred0 :: Untried(attempts, start, ids[j])
        invariant closed <= Open(start, deferred0) && (attempted <==> closed != {})
        invariant closes && Quiet(start, state) ==> closed !! Open(state, deferred)
        invariant !attempted ==> deferred == deferred0 && forall j | 0 <= j < i :: ids[j] in deferred
      {
        if moments(tick).cancelled {
          outOfTime := true;
          SettlingIsFewer(start, state);
          return;
        }
        var id := ids[i];
        if id !in deferred {
          ghost var before := state;
          DueIsOpen(start, id, asOf, deferred0);
          var outcome;
          ghost var claimed;
          outcome, claimed := ProjectOnce(id);
          last := outcome;
          ghost var r, deferredNow := Record(id, outcome, start.left, Failing(start)),
            if Settles(outcome) then deferred else deferred + {id};
          SettlingIsFewer(start, before);
          SettlingIsFewer(before, state);
          SettlingTransitive(start, before, state);
          NoNewRetriesYet(start, before, state, ids, i);
          TrackKeeps(attempts, r, deferred, progressed);
          if closes {
            AttemptCloses(start, before, id, outcome, found, claimed);
            AttemptKeeps(start, before, state, id, outcome, asOf, deferredNow);
            ClosedStays(before, state, deferred, deferredNow, start, closed);
          }
          if accounted {
            AccountKeeps(attempts, start, before, state, r, asOf);
            StillUntried(attempts, r, start, ids, i, deferred0);
          }
          attempts := attempts + [r];
          attempted := true;
          closed := closed + {id};
          if outcome == OutcomeProcessed {
            progressed := true;
          } else if !Settles(outcome) {
            deferred := deferred + {id};
          }
        }
      }
      outOfTime := false;
      SettlingIsFewer(start, state);
      if closes && attempted {
        ClosedIsNearer(start, state, deferred0, deferred, closed);
      }
    }

    /** A due event that is answered as blocked is closed, or another instance failed since it was discovered. */
    lemma AttemptCloses(start: State, before: State, id: EventId, outcome: Outcome, found: nat, claimed: nat)
      requires Closes(moments, start, found) && found <= claimed && Due(start, id, moments(found).asOf)
      requires NoNewRetry(start, before, id) && Fewer(start, before) && Fewer(before, state)
      requires Leaves(outcome, id, before, claimed)
      ensures Settles(outcome) ==>
        id in state.rows && (IsTerminal(state.rows[id]) || (outcome.OutcomeBlocked? && Failing(state) < Failing(start)))
    {
      if Settles(outcome) && !IsTerminal(state.rows[id]) {
        NoNewRetryTransitive(start, before, state, id);
        assert moments(found).asOf <= moments(claimed).asOf;
      }
    }

    function Lead(): nat {
      if rearmBlocked then 1 else 0
    }

    /** A round of three or four calls, over nothing but one condemned event. */
    ghost predicate Alone(s: State, id: EventId, at: nat, deferred: set<EventId>) {
      && s.rows.Keys == {id} && !Rearmable(s, id) && id !in deferred && batchSize > 0
      && (forall i | at <= i <= at + 3 :: Calm(moments(i))) && moments(at + Lead() + 2).attempt.Condemns?
    }

    function ReadingAt(at: nat): Reading {
      Reading(moments(at + Lead()).asOf, moments(at + Lead() + 2).asOf)
    }

    lemma AloneRound(s: State, id: EventId, at: nat, deferred: set<EventId>, t: State, outcome: Outcome)
      requires Alone(s, id, at, deferred) && ClaimedAlone(outcome, id, s, t, at + Lead() + 2)
      ensures Settles(outcome)
      ensures Due(s, id, ReadingAt(at).found) ==> CondemnedRound(s, id, ReadingAt(at)) == Some(t)
    {
    }

    /** Re-arms and looks for due events; or the reason to stop. */
    method Discover() returns (stop: Option<Stop>, ids: seq<EventId>, ghost found: nat)
      requires Valid()
      modifies this
      ensures Valid() && Settling(old(state), state) && old(tick) <= tick
      ensures stop.None? ==>
        old(tick) <= found < tick && ids != [] && Discovers(state, moments(found).asOf, batchSize, ids)
      ensures stop.Some? && stop.value.NothingDue? && batchSize > 0 ==>
        forall id | id in state.rows :: !Due(state, id, stop.value.asOf)
      ensures stop.Some? ==> !stop.value.NothingNew? && Stopped(stop.value, old(tick), tick)
      ensures rearmBlocked && (stop.None? || stop.value.NothingDue?) && state.left == old(state).left ==>
        forall id | id in state.rows :: !Rearmable(state, id)
      ensures (forall i | old(tick) <= i <= old(tick) + Lead() :: Calm(moments(i))) ==>
        && (stop.None? || stop.value.NothingDue?) && tick == old(tick) + Lead() + 1
        && state == if rearmBlocked then Apply(old(state), Rearm) else old(state)
      ensures forall id: EventId, deferred | Alone(old(state), id, old(tick), deferred) ::
        if !Due(old(state), id, ReadingAt(old(tick)).found) then stop.Some?
        else stop.None? && ids == [id] && state == old(state) && tick == old(tick) + Lead() + 1
    {
      hide NoNewRetry, Settling, Apply, Due;
      ghost var head, at := state, tick;
      SettlingReflexive(head);
      ids, found := [], tick;
      if moments(tick).cancelled {
        return Some(Cancelled), ids, found;
      }
      if rearmBlocked {
        var m, met := Step(Rearm);
        PassesBy(head, Rearm);
        NothingRearmable(met);
        if m.fails {
          return Some(StoreFailed), ids, found;
        }
      }
      ghost var armed := state;
      found := tick;
      var batch, asOf := PendingCatalogEvents();
      SettlingTransitive(head, armed, state);
      StaysUnarmed(head, armed, state);
      if batch.None? {
        return Some(StoreFailed), ids, found;
      }
      ids := batch.value;
      forall id: EventId, deferred | Alone(head, id, at, deferred)
        ensures ids == if Due(head, id, asOf) then [id] else [] {
        LoneBatch(head, id, asOf, batchSize, ids);
      }
      stop := if ids == [] then Some(NothingDue(asOf)) else None;
    }

    /** One round of a drain: discovers, and projects what is not deferred; or the reason to stop. */
    method Round(progressed0: bool, deferred0: set<EventId>, ghost attempts0: seq<Record>)
      returns (stop: Option<Stop>, progressed: bool, deferred: set<EventId>, ghost attempts: seq<Record>)
      requires Valid() && Tracked(attempts0, deferred0, progressed0)
      modifies this
      ensures Valid() && Fewer(old(state), state) && old(tick) <= tick && (stop.None? ==> old(tick) < tick)
      ensures Tracked(attempts, deferred, progressed)
      ensures stop.Some? ==> Stopped(stop.value, old(tick), tick)
      ensures Closes(moments, old(state), old(tick)) && Accounted(attempts0, old(state)) ==> Accounted(attempts, state)
      ensures Closes(moments, old(state), old(tick)) && stop.None? ==> Nearer(old(state), deferred0, state, deferred)
      ensures stop.Some? && stop.value.NothingDue? && batchSize > 0 ==>
        forall id | id in state.rows :: !Due(state, id, stop.value.asOf)
      ensures rearmBlocked && stop.Some? && stop.value.NothingDue? && state.left == old(state).left ==>
        forall id | id in state.rows :: !Rearmable(state, id)
      ensures stop.Some? && stop.value.NothingNew? ==> forall id | id in stop.value.batch :: TriedInVain(attempts, id)
      ensures forall id: EventId | Alone(old(state), id, old(tick), deferred0) ::
        var after := CondemnedRound(old(state), id, ReadingAt(old(tick)));
        if after.None? then stop.Some?
        else stop.None? && state == after.value && deferred == deferred0 && tick == old(tick) + Lead() + 3
    {
      hide NoNewRetry, Settling, Open, Apply, Fewer, Closes, Accounted, Nearer, Due, Rearmable, ClaimedAlone;
      progressed, deferred, attempts := progressed0, deferred0, attempts0;
      ghost var head, at := state, tick;
      var ids;
      ghost var found;
      stop, ids, found := Discover();
      ghost var seen := state;
      SettlingIsFewer(head, seen);
      AccountedLater(attempts, head, seen);
      if stop.Some? {
        return;
      }
      if Closes(moments, head, at) {
        ClosesLater(moments, head, seen, at, found);
      }
      var outOfTime, attempted;
      ghost var last, tickFound := OutcomeRetryable, tick;
      outOfTime, attempted, progressed, deferred, attempts,
        last := DrainBatch(ids, found, progressed, deferred, attempts);
      FewerTransitive(head, seen, state);
      forall id: EventId | Alone(head, id, at, deferred0) && Due(head, id, ReadingAt(at).found)
        ensures !outOfTime && attempted && deferred == deferred0 && tick == at + Lead() + 3
        ensures CondemnedRound(head, id, ReadingAt(at)) == Some(state)
      {
        AloneRound(head, id, at, deferred0, state, last);
      }
      if outOfTime {
        StoppedSince(Cancelled, at, tickFound, tick);
        stop := Some(Cancelled);
      } else if !attempted {
        stop := Some(NothingNew(ids));
      } else {
        NearerSince(head, seen, deferred0, state, deferred);
      }
    }

    /** Nothing but one event, which is condemned, and nobody interferes from some moment on. */
    ghost predicate AloneFrom(s: State, id: EventId, at: nat) {
      && s.rows.Keys == {id} && !Rearmable(s, id) && batchSize > 0
      && forall i | at <= i :: Calm(moments(i)) && moments(i).attempt.Condemns?
    }

    /** What the clock says in each round, as long as the rounds go on. */
    function Clock(at: nat): nat -> Reading {
      (i: nat) => ReadingAt(at + i * (Lead() + 3))
    }

    lemma AloneAgain(s: State, id: EventId, at: nat, r: Reading, later: nat)
      requires AloneFrom(s, id, at) && CondemnedRound(s, id, r).Some? && at <= later
      ensures AloneFrom(CondemnedRound(s, id, r).value, id, later) && Alone(s, id, at, {})
    {
    }

    /**
     * The first rounds of a drain, however long it goes on and whatever the clock
     * says: no event is tried again that was tried in vain. Over a single condemned
     * event they go as CondemnedRounds says.
     */
    method FirstRounds(limit: nat)
      returns (rounds: nat, progressed: bool, deferred: set<EventId>, ghost attempts: seq<Record>, stop: Option<Stop>)
      requires Valid()
      modifies this
      ensures Valid() && Tracked(attempts, deferred, progressed)
      ensures rounds <= limit && (stop.None? ==> rounds == limit)
      ensures forall id | AloneFrom(old(state), id, old(tick)) ::
        var clock := Clock(old(tick));
        if stop.None? then CondemnedRounds(old(state), id, FirstReadings(clock, rounds)) == Some(state)
        else CondemnedRounds(old(state), id, FirstReadings(clock, rounds + 1)) == None
    {
      hide Tracked, Alone, AloneFrom, CondemnedRound;
      ghost var start, at := state, tick;
      rounds, progressed, deferred, attempts, stop := 0, false, {}, [], None;
      NothingTracked();
      while rounds < limit
        invariant Valid() && Tracked(attempts, deferred, progressed) && rounds <= limit && stop.None?
        invariant forall id | AloneFrom(start, id, at) ::
          && tick == at + rounds * (Lead() + 3) && deferred == {} && AloneFrom(state, id, tick)
          && CondemnedRounds(start, id, FirstReadings(Clock(at), rounds)) == Some(state)
      {
        ghost var head, now := state, tick;
        stop, progressed, deferred, attempts := Round(progressed, deferred, attempts);
        forall id | AloneFrom(start, id, at)
          ensures CondemnedRounds(start, id, FirstReadings(Clock(at), rounds + 1)) ==
            CondemnedRound(head, id, ReadingAt(now))
          ensures stop.None? <==> CondemnedRound(head, id, ReadingAt(now)).Some?
          ensures stop.None? ==>
            CondemnedRound(head, id, ReadingAt(now)) == Some(state) && deferred == {} && tick == now + Lead() + 3
          ensures stop.None? ==> AloneFrom(state, id, tick)
        {
          OneMoreReading(start, id, Clock(at), rounds);
          AloneNow(head, id, now);
          if stop.None? {
            AloneAgain(head, id, now, ReadingAt(now), tick);
          }
        }
        if stop.Some? {
          return;
        }
        rounds := rounds + 1;
      }
    }

    lemma AloneNow(s: State, id: EventId, at: nat)
      requires AloneFrom(s, id, at)
      ensures Alone(s, id, at, {})
    {
    }

    /**
     * Projects everything due until discovery finds nothing, or nothing new. It ends
     * if sooner or later every terminal outcome closes its event or is accounted
     * for: every round from then on closes an open event, or follows one of the
     * finitely many outside changes. If no arrival or advance comes meanwhile, it finds
     * nothing due only when nothing is left to be re-armed.
     */
    method Drain() returns (progressed: bool, ghost attempts: seq<Record>, stop: Stop)
      requires Valid() && Ends(moments, state)
      modifies this
      ensures Valid() && OnceInVain(attempts)
      ensures Closes(moments, old(state), old(tick)) ==> OnlyReopened(attempts)
      ensures (progressed <==> AnyProcessed(attempts)) && Stopped(stop, old(tick), tick)
      ensures stop.NothingDue? && batchSize > 0 ==> forall id | id in state.rows ::
        IsTerminal(state.rows[id]) || (state.rows[id].Retry? && state.rows[id].next > stop.asOf)
      ensures rearmBlocked && stop.NothingDue? && state.left == old(state).left ==> forall id | id in state.rows ::
        var row := state.rows[id];
        row.Blocked? && row.relation && id in state.graph ==> state.graph[id] <= row.at
      ensures stop.NothingNew? ==> forall id | id in stop.batch :: TriedInVain(attempts, id)
    {
      hide Closes, Open, Fewer;
      progressed, attempts := false, [];
      var deferred: set<EventId> := {};
      ghost var n: nat :| Closes(moments, state, n);
      ghost var start := state;
      FewerReflexive(start);
      while true
        invariant Valid() && Tracked(attempts, deferred, progressed) && Fewer(start, state) && old(tick) <= tick
        invariant Closes(moments, start, old(tick)) ==> Accounted(attempts, state)
        decreases if tick < n then n - tick else 0, state.left, Failing(state), Open(state, deferred)
      {
        ghost var head, at := state, tick;
        if Closes(moments, start, old(tick)) {
          ClosesLater(moments, start, head, old(tick), at);
        }
        if n <= at {
          ClosesLater(moments, start, head, n, at);
        }
        var stopped;
        stopped, progressed, deferred, attempts := Round(progressed, deferred, attempts);
        FewerTransitive(start, head, state);
        NoOutsideChange(start, head, state);
        if stopped.Some? {
          StoppedSince(stopped.value, old(tick), at, tick);
          return progressed, attempts, stopped.value;
        }
      }
    }
  }

  /** No outside change came between two states. */
  predicate Quiet(s: State, t: State) {
    t.left == s.left && Failing(t) == Failing(s)
  }

  lemma FewerReflexive(s: State)
    ensures Fewer(s, s)
  {
  }

  lemma FewerTransitive(s: State, t: State, u: State)
    requires Fewer(s, t) && Fewer(t, u)
    ensures Fewer(s, u)
  {
  }

  lemma NoOutsideChange(s: State, t: State, u: State)
    requires Fewer(s, t) && Fewer(t, u)
    ensures u.left == s.left ==> u.left == t.left
  {
  }

  lemma SettlingReflexive(s: State)
    ensures Settling(s, s)
  {
  }

  lemma SettlingIsFewer(s: State, t: State)
    requires Settling(s, t)
    ensures Fewer(s, t)
  {
  }

  lemma NearerSince(s: State, t: State, deferred: set<EventId>, u: State, more: set<EventId>)
    requires Settling(s, t) && Fewer(t, u)
    ensures Nearer(t, deferred, u, more) ==> Nearer(s, deferred, u, more)
  {
    if t.left == s.left {
      SettlingShrinks(s, t, deferred, deferred);
    }
  }

  lemma ClosedIsNearer(s: State, t: State, deferred: set<EventId>, more: set<EventId>, closed: set<EventId>)
    requires Settling(s, t) && deferred <= more && closed != {} && closed <= Open(s, deferred)
    requires Quiet(s, t) ==> closed !! Open(t, more)
    ensures Nearer(s, deferred, t, more)
  {
    hide Settled;
    if Quiet(s, t) {
      SettlingShrinks(s, t, deferred, more);
      var id :| id in closed;
      assert id in Open(s, deferred) && id !in Open(t, more);
    }
  }

  lemma NoNewRetryReflexive(s: State)
    ensures forall id :: NoNewRetry(s, s, id)
  {
  }

  lemma NoNewRetriesYet(start: State, before: State, after: State, ids: seq<EventId>, i: nat)
    requires i < |ids| && Distinct(ids) && Fewer(start, before) && Fewer(before, after)
    requires forall j | i <= j < |ids| :: NoNewRetry(start, before, ids[j])
    requires forall other | other != ids[i] :: NoNewRetry(before, after, other)
    ensures forall j | i < j < |ids| :: NoNewRetry(start, after, ids[j])
  {
    forall j | i < j < |ids| ensures NoNewRetry(start, after, ids[j]) {
      NoNewRetryTransitive(start, before, after, ids[j]);
    }
  }

  lemma DueIsOpen(s: State, id: EventId, asOf: int, deferred: set<EventId>)
    requires Due(s, id, asOf) && id !in deferred
    ensures id in Open(s, deferred) && id in s.rows
  {
  }

  /** A due event was tried before only ahead of an outside change, or in vain. */
  lemma DueIsUntried(ids: seq<EventId>, asOf: int, attempts: seq<Record>, s: State, deferred: set<EventId>,
      progressed: bool)
    requires forall i | 0 <= i < |ids| :: Due(s, ids[i], asOf)
    requires Tracked(attempts, deferred, progressed) && Accounted(attempts, s)
    ensures forall j | 0 <= j < |ids| && ids[j] !in deferred :: Untried(attempts, s, ids[j])
  {
  }

  lemma StillUntried(attempts: seq<Record>, r: Record, start: State, ids: seq<EventId>, i: nat, deferred: set<EventId>)
    requires i < |ids| && Distinct(ids) && r.id == ids[i]
    requires forall j | i <= j < |ids| && ids[j] !in deferred :: Untried(attempts, start, ids[j])
    ensures forall j | i < j < |ids| && ids[j] !in deferred :: Untried(attempts + [r], start, ids[j])
  {
  }

  lemma NothingTracked()
    ensures Tracked([], {}, false)
  {
  }

  /** An attempt at an event that was not deferred is tracked, and defers the event if it was in vain. */
  lemma TrackKeeps(attempts: seq<Record>, r: Record, deferred: set<EventId>, progressed: bool)
    requires Tracked(attempts, deferred, progressed) && r.id !in deferred
    ensures Tracked(attempts + [r], if Settles(r.outcome) then deferred else deferred + {r.id}, progressed
      || r.outcome == OutcomeProcessed)
  {
    OneMore(attempts, r);
  }

  /** Without an outside change an attempted event is no longer open. */
  lemma AttemptKeeps(start: State, before: State, after: State, id: EventId, outcome: Outcome, asOf: int,
      deferredNow: set<EventId>)
    requires Due(start, id, asOf) && Settling(start, before) && Settling(before, after)
    requires Settles(outcome) ==>
      id in after.rows && (IsTerminal(after.rows[id]) || (outcome.OutcomeBlocked? && Failing(after) < Failing(start)))
    requires !Settles(outcome) ==> id in deferredNow
    ensures Quiet(start, after) ==> id !in Open(after, deferredNow)
  {
    SettlingTransitive(start, before, after);
  }

  /** Whatever an attempt comes to, it is remembered. */
  lemma AccountKeeps(attempts: seq<Record>, start: State, before: State, after: State, r: Record, asOf: int)
    requires Due(start, r.id, asOf) && Settling(start, before) && Settling(before, after)
    requires Accounted(attempts, before) && Untried(attempts, start, r.id) && r.left == start.left
      && r.failing == Failing(start)
    requires Settles(r.outcome) ==>
      r.id in after.rows && (IsTerminal(after.rows[r.id])
        || (r.outcome.OutcomeBlocked? && Failing(after) < Failing(start)))
    ensures Accounted(attempts + [r], after)
  {
    AccountedLater(attempts, before, after);
    SettlingTransitive(start, before, after);
  }

  lemma ClosedStays(s: State, t: State, deferred: set<EventId>, more: set<EventId>, start: State, closed: set<EventId>)
    requires Settling(start, s) && Settling(s, t) && deferred <= more
    requires Quiet(start, s) ==> closed !! Open(s, deferred)
    ensures Quiet(start, t) ==> closed !! Open(t, more)
  {
    if Quiet(start, t) {
      SettlingShrinks(s, t, deferred, more);
    }
  }

  lemma AccountedLater(attempts: seq<Record>, s: State, t: State)
    requires Settling(s, t)
    ensures Accounted(attempts, s) ==> Accounted(attempts, t)
  {
  }
}
