/**
 * The notification outbox as a transition system: the durable rows
 * (internal/notifications/store.go, db/queries/notifications.sql), the progress
 * of every dispatcher (internal/notifications/dispatcher.go) and, as history, the
 * provider sends of every notification.
 *
 * An event is one atomic action of one dispatcher. Next ignores an event that
 * the acting dispatcher cannot take, so that every sequence of events is a run:
 * dispatchers interleave freely, leases expire and dispatchers crash between any
 * two actions.
 */
module Outbox {
  import opened Wrappers
  import Backoff

  type NotificationId(==, !new) = nat
  type DispatcherId(==, !new) = nat

  datatype DispatchStatus = Pending | Retry | Accepted | Blocked | Ambiguous

  predicate IsOpen(status: DispatchStatus) {
    status == Pending || status == Retry
  }

  datatype Code =
    | ProviderUnknown | SendAmbiguous | ProviderRetry | ProviderRateLimited
    | ProviderAuth | ProviderValidation | ProviderConflict | DispatchError

  datatype Row = Row(
    status: DispatchStatus, providerKey: string,
    leaseOwner: Option<string>, leaseUntil: Option<int>, generation: nat,
    attempts: nat, nextAttemptAt: Option<int>, sendStarted: bool,
    providerMessageId: Option<string>, lastErrorCode: Option<Code>)

  function NewRow(providerKey: string): Row {
    Row(Pending, providerKey, None, None, 0, 0, None, false, None, None)
  }

  /** The fencing token of one claim. */
  datatype Token = Token(id: NotificationId, owner: string, generation: nat)

  // ---- Store operations ----

  predicate Due(row: Row, now: int) {
    && IsOpen(row.status)
    && (row.nextAttemptAt.Some? ==> row.nextAttemptAt.value <= now)
    && (row.leaseUntil.Some? ==> row.leaseUntil.value <= now)
  }

  function ClaimRow(row: Row, owner: string, until: int): Row {
    row.(leaseOwner := Some(owner), leaseUntil := Some(until), generation := row.generation + 1,
      attempts := row.attempts + 1)
  }

  /** The fence of every later write: the claim token, on an open row. */
  predicate Holds(rows: map<NotificationId, Row>, t: Token) {
    && t.id in rows && IsOpen(rows[t.id].status)
    && rows[t.id].leaseOwner == Some(t.owner) && rows[t.id].generation == t.generation
  }

  datatype Finish =
    | FinishAccepted(messageId: string)
    | FinishRetry(next: int, retryCode: Code)
    | FinishBlocked(blockedCode: Code)
    | FinishAmbiguous(ambiguousCode: Code)

  /** Only a retry clears the send-start marker. */
  function FinishRow(row: Row, f: Finish): Row {
    var released := row.(leaseOwner := None, leaseUntil := None);
    match f
    case FinishAccepted(messageId) =>
      released.(status := Accepted, providerMessageId := Some(messageId), lastErrorCode := None)
    case FinishRetry(next, code) =>
      released.(status := Retry, nextAttemptAt := Some(next), lastErrorCode := Some(code), sendStarted := false)
    case FinishBlocked(code) => released.(status := Blocked, lastErrorCode := Some(code))
    case FinishAmbiguous(code) => released.(status := Ambiguous, lastErrorCode := Some(code))
  }

  /** A store call can fail without effect, or take effect with its reply lost. */
  datatype Fault = NoFault | NotApplied | ReplyLost

  predicate TakesEffect(rows: map<NotificationId, Row>, t: Token, fault: Fault) {
    Holds(rows, t) && fault != NotApplied
  }

  // ---- Provider outcomes ----

  datatype ErrorKind = Temporary | RateLimited | Authentication | Validation | Conflict | AmbiguousError | OtherError

  datatype SendOutcome =
    | Sent(messageId: string)
    | Failed(kind: ErrorKind, retryAfter: Option<int>)
    | UnclassifiedError

  /** The outcomes that say the provider did not take the message and may be asked again. */
  predicate SafelyRetryable(outcome: SendOutcome) {
    outcome.Failed? && (outcome.kind == Temporary || outcome.kind == RateLimited)
  }

  const DISPATCH_LEASE := 5 * Backoff.MINUTE
  const DISPATCH_MAX_DELAY := Backoff.HOUR
  const DISPATCH_BASE_DELAY := 10 * Backoff.SECOND

  /** The readings of the clock that deciding a retry may take, in order. */
  datatype Readings = Readings(first: int, second: int, third: int)

  function RetryAt(outcome: SendOutcome, attempts: nat, r: Readings): int
    requires SafelyRetryable(outcome)
  {
    var next := r.first + Backoff.Delay(DISPATCH_BASE_DELAY, DISPATCH_MAX_DELAY, attempts);
    if outcome.kind == RateLimited && outcome.retryAfter.Some? then
      var after := outcome.retryAfter.value;
      if r.second + after > next && after <= DISPATCH_MAX_DELAY then r.second + after
      else if after > DISPATCH_MAX_DELAY then r.third + DISPATCH_MAX_DELAY
      else next
    else next
  }

  /** A retry waits at least the backoff of its attempt and at most an hour. */
  lemma RetryAtBounds(outcome: SendOutcome, attempts: nat, r: Readings)
    requires SafelyRetryable(outcome) && r.first <= r.second <= r.third
    ensures r.first + Backoff.Delay(DISPATCH_BASE_DELAY, DISPATCH_MAX_DELAY, attempts) <= RetryAt(outcome, attempts, r)
    ensures RetryAt(outcome, attempts, r) <= r.third + DISPATCH_MAX_DELAY
  {
    Backoff.DelayMonotone(DISPATCH_BASE_DELAY, DISPATCH_MAX_DELAY, attempts, attempts);
  }

  function ProviderErrorCode(kind: ErrorKind): Code {
    match kind
    case Authentication => ProviderAuth
    case Validation => ProviderValidation
    case Conflict => ProviderConflict
    case _ => DispatchError
  }

  /** How a returned send is recorded. */
  function Verdict(outcome: SendOutcome, attempts: nat, r: Readings): Finish {
    match outcome
    case Sent(messageId) => FinishAccepted(messageId)
    case UnclassifiedError => FinishAmbiguous(SendAmbiguous)
    case Failed(kind, _) =>
      if SafelyRetryable(outcome) then
        FinishRetry(RetryAt(outcome, attempts, r), if kind == RateLimited then ProviderRateLimited else ProviderRetry)
      else if kind == AmbiguousError then FinishAmbiguous(SendAmbiguous)
      else FinishBlocked(ProviderErrorCode(kind))
  }

  // ---- States and events ----

  /**
   * One call of a provider: the claim it was made under, what it returned, and whether
   * that was recorded as a retry.
   */
  datatype SendRecord = SendRecord(generation: nat, outcome: Option<SendOutcome>, retryRecorded: bool)

  /** Where a dispatcher stands in processOne. */
  datatype Phase =
    | Idle
    | Claimed(token: Token, attempts: nat, sendStarted: bool)
    | Marked(token: Token, attempts: nat)
    | Sending(token: Token, attempts: nat)
    | Returned(token: Token, attempts: nat, outcome: SendOutcome)

  datatype State = State(
    rows: map<NotificationId, Row>,
    sends: map<NotificationId, seq<SendRecord>>,
    phases: map<DispatcherId, Phase>)

  datatype Action =
    | Enqueue(id: NotificationId, providerKey: string)
    | Claim(id: NotificationId, owner: string, now: int, until: int)
    | GiveUp(fault: Fault)
    | RefuseProvider(fault: Fault)
    | MarkSendStarted(fault: Fault)
    | Send
    | Return(outcome: SendOutcome)
    | Conclude(readings: Readings, fault: Fault)
    | Crash

  datatype Event = Event(dispatcher: DispatcherId, action: Action)

  function PhaseOf(s: State, d: DispatcherId): Phase {
    if d in s.phases then s.phases[d] else Idle
  }

  function SetPhase(s: State, d: DispatcherId, p: Phase): State {
    s.(phases := s.phases[d := p])
  }

  /** A fenced write followed by the end of processOne. */
  function FinishAndRest(s: State, d: DispatcherId, t: Token, f: Finish, fault: Fault): State {
    SetPhase(if TakesEffect(s.rows, t, fault) then s.(rows := s.rows[t.id := FinishRow(s.rows[t.id], f)]) else s, d,
      Idle)
  }

  function UpdateLastSend(s: State, id: NotificationId, r: SendRecord): State
    requires id in s.sends && s.sends[id] != []
  {
    s.(sends := s.sends[id := s.sends[id][|s.sends[id]| - 1 := r]])
  }

  function LastSend(s: State, id: NotificationId): SendRecord
    requires id in s.sends && s.sends[id] != []
  {
    s.sends[id][|s.sends[id]| - 1]
  }

  predicate Enabled(s: State, e: Event) {
    var p := PhaseOf(s, e.dispatcher);
    match e.action
    case Enqueue(id, _) => id !in s.rows && id !in s.sends
    case Claim(id, _, now, _) => p.Idle? && id in s.rows && Due(s.rows[id], now)
    case GiveUp(_) => p.Claimed? && p.sendStarted
    case RefuseProvider(_) => p.Claimed? && !p.sendStarted
    case MarkSendStarted(_) => p.Claimed? && !p.sendStarted
    case Send => p.Marked? && p.token.id in s.sends
    case Return(_) => p.Sending? && p.token.id in s.sends && s.sends[p.token.id] != []
    case Conclude(_, _) => p.Returned? && p.token.id in s.sends && s.sends[p.token.id] != []
    case Crash => !p.Idle?
  }

  function Next(s: State, e: Event): State {
    if !Enabled(s, e) then s else
    var p := PhaseOf(s, e.dispatcher);
    match e.action
    case Enqueue(id, providerKey) => s.(rows := s.rows[id := NewRow(providerKey)], sends := s.sends[id := []])
    case Claim(id, owner, _, until) =>
      var row := ClaimRow(s.rows[id], owner, until);
      SetPhase(s.(rows := s.rows[id := row]), e.dispatcher,
        Claimed(Token(id, owner, row.generation), row.attempts, row.sendStarted))
    case GiveUp(fault) => FinishAndRest(s, e.dispatcher, p.token, FinishAmbiguous(SendAmbiguous), fault)
    case RefuseProvider(fault) => FinishAndRest(s, e.dispatcher, p.token, FinishBlocked(ProviderUnknown), fault)
    case MarkSendStarted(fault) =>
      var t := p.token;
      var rows := if TakesEffect(s.rows, t, fault) then s.rows[t.id := s.rows[t.id].(sendStarted := true)] else s.rows;
      SetPhase(s.(rows := rows), e.dispatcher,
        if Holds(s.rows, t) && fault == NoFault then Marked(t, p.attempts) else Idle)
    case Send =>
      var id := p.token.id;
      SetPhase(s.(sends := s.sends[id := s.sends[id] + [SendRecord(p.token.generation, None, false)]]), e.dispatcher,
               Sending(p.token, p.attempts))
    case Return(outcome) =>
      SetPhase(UpdateLastSend(s, p.token.id, LastSend(s, p.token.id).(outcome := Some(outcome))), e.dispatcher,
               Returned(p.token, p.attempts, outcome))
    case Conclude(readings, fault) =>
      var f := Verdict(p.outcome, p.attempts, readings);
      var recorded := f.FinishRetry? && TakesEffect(s.rows, p.token, fault);
      FinishAndRest(if recorded then UpdateLastSend(s, p.token.id, LastSend(s, p.token.id).(retryRecorded := true))
        else s,
                    e.dispatcher, p.token, f, fault)
    case Crash => SetPhase(s, e.dispatcher, Idle)
  }

  const START := State(map[], map[], map[])

  function Run(events: seq<Event>): State {
    if events == [] then START else Next(Run(events[..|events| - 1]), events[|events| - 1])
  }

  // ---- What every reachable state satisfies ----

  /** The send came back temporary or rate-limited and that was recorded under its own claim. */
  predicate ClosedByRetry(r: SendRecord) {
    && r.retryRecorded && r.outcome.Some? && r.outcome.value.Failed?
    && (r.outcome.value.kind == Temporary || r.outcome.value.kind == RateLimited)
  }

  /** Between marking the send start and concluding. */
  predicate Live(p: Phase) {
    p.Marked? || p.Sending? || p.Returned?
  }

  predicate LiveOn(s: State, d: DispatcherId, id: NotificationId) {
    Live(PhaseOf(s, d)) && PhaseOf(s, d).token.id == id
  }

  predicate OrderedSends(row: Row, sends: seq<SendRecord>) {
    && (forall i, j | 0 <= i < j < |sends| :: sends[i].generation < sends[j].generation)
    && (forall i | 0 <= i < |sends| :: sends[i].generation <= row.generation)
  }

  /** The safety property: every send except possibly the last was closed by a recorded retry. */
  predicate AtMostOneOpenSend(sends: seq<SendRecord>) {
    forall i | 0 <= i < |sends| - 1 :: ClosedByRetry(sends[i])
  }

  predicate AllClosed(sends: seq<SendRecord>) {
    forall i | 0 <= i < |sends| :: ClosedByRetry(sends[i])
  }

  predicate LastWasSent(row: Row, sends: seq<SendRecord>) {
    sends != [] && row.providerMessageId.Some? && sends[|sends| - 1].outcome == Some(Sent(row.providerMessageId.value))
  }

  /** The provider answered, with an explicit refusal. */
  predicate Refused(r: SendRecord) {
    r.outcome.Some? && r.outcome.value.Failed? && r.outcome.value.kind != AmbiguousError
  }

  /** What a terminal row says about the sends. */
  predicate StatusMatchesSends(row: Row, sends: seq<SendRecord>) {
    && (row.status == Accepted ==> LastWasSent(row, sends))
    && (row.status == Blocked ==> forall i | 0 <= i < |sends| :: Refused(sends[i]))
    && (row.status == Ambiguous ==> row.sendStarted)
  }

  predicate RowInvariant(row: Row, sends: seq<SendRecord>) {
    && OrderedSends(row, sends) && AtMostOneOpenSend(sends) && StatusMatchesSends(row, sends)
    && (!row.sendStarted ==> AllClosed(sends))
  }

  /** A dispatcher's view of the notification it works on. */
  predicate PhaseFits(p: Phase, row: Row, sends: seq<SendRecord>)
    requires !p.Idle?
  {
    && p.token.generation <= row.generation
    && (p.Claimed? && !p.sendStarted && p.token.generation == row.generation ==>
          !row.sendStarted && forall i | 0 <= i < |sends| :: sends[i].generation < p.token.generation)
    && (p.Claimed? && p.sendStarted && p.token.generation == row.generation ==> row.sendStarted)
    && (Live(p) ==> row.sendStarted && row.status != Accepted && row.status != Blocked)
    && (p.Marked? ==> AllClosed(sends) && forall i | 0 <= i < |sends| :: sends[i].generation < p.token.generation)
    && (p.Sending? ==> sends != [] && sends[|sends| - 1] == SendRecord(p.token.generation, None, false))
    && (p.Returned? ==> sends != [] && sends[|sends| - 1] == SendRecord(p.token.generation, Some(p.outcome), false))
  }

  /** Two dispatchers never share a claim, and at most one of them is past the mark. */
  predicate Compatible(p: Phase, q: Phase) {
    !p.Idle? && !q.Idle? && p.token.id == q.token.id ==>
      p.token.generation != q.token.generation && !(Live(p) && Live(q))
  }

  ghost predicate RowsOk(s: State) {
    && s.rows.Keys == s.sends.Keys
    && forall id | id in s.rows :: RowInvariant(s.rows[id], s.sends[id])
  }

  ghost predicate PhasesOk(s: State)
    requires s.rows.Keys == s.sends.Keys
  {
    forall d | d in s.phases && !s.phases[d].Idle? ::
      && s.phases[d].token.id in s.rows
      && PhaseFits(s.phases[d], s.rows[s.phases[d].token.id], s.sends[s.phases[d].token.id])
  }

  ghost predicate PhasesCompatible(s: State) {
    forall d, e | d in s.phases && e in s.phases && d != e :: Compatible(s.phases[d], s.phases[e])
  }

  ghost predicate Invariant(s: State) {
    RowsOk(s) && PhasesOk(s) && PhasesCompatible(s)
  }

  // ---- Every event keeps the invariant ----

  /** A dispatcher other than the acting one, seen through one notification. */
  ghost predicate Bystander(s: State, d: DispatcherId, id: NotificationId, e: DispatcherId) {
    e in s.phases && e != d && !s.phases[e].Idle? && s.phases[e].token.id == id
  }

  /** An event touches one notification and one dispatcher; it is enough to look at those. */
  lemma LocalStep(s: State, d: DispatcherId, id: NotificationId, row: Row, sends: seq<SendRecord>, p: Phase)
    requires Invariant(s) && id in s.rows
    requires RowInvariant(row, sends)
    requires p.Idle? || (p.token.id == id && PhaseFits(p, row, sends))
    requires PhaseOf(s, d).Idle? || PhaseOf(s, d).token.id == id
    requires forall e | Bystander(s, d, id, e) :: PhaseFits(s.phases[e], row, sends) && Compatible(p, s.phases[e])
    ensures Invariant(State(s.rows[id := row], s.sends[id := sends], s.phases[d := p]))
  {
    hide RowInvariant, PhaseFits;
    var t := State(s.rows[id := row], s.sends[id := sends], s.phases[d := p]);
    assert t.rows.Keys == t.sends.Keys;
    assert RowsOk(t);
    forall e | e in t.phases && !t.phases[e].Idle?
      ensures t.phases[e].token.id in t.rows
      ensures PhaseFits(t.phases[e], t.rows[t.phases[e].token.id], t.sends[t.phases[e].token.id])
    {
      assert e != d && t.phases[e].token.id == id ==> Bystander(s, d, id, e);
    }
    forall e, f | e in t.phases && f in t.phases && e != f
      ensures Compatible(t.phases[e], t.phases[f])
    {
      assert e == d && !t.phases[f].Idle? && t.phases[f].token.id == id ==> Bystander(s, d, id, f);
      assert f == d && !t.phases[e].Idle? && t.phases[e].token.id == id ==> Bystander(s, d, id, e);
    }
  }

  lemma EnqueueKeeps(s: State, e: Event)
    requires Invariant(s) && Enabled(s, e) && e.action.Enqueue?
    ensures Invariant(Next(s, e))
  {
    assert RowInvariant(NewRow(e.action.providerKey), []);
    hide RowInvariant, PhaseFits, Compatible;
    assert RowsOk(Next(s, e));
  }

  lemma ClaimKeeps(s: State, e: Event)
    requires Invariant(s) && Enabled(s, e) && e.action.Claim?
    ensures Invariant(Next(s, e))
  {
    var id := e.action.id;
    var row := ClaimRow(s.rows[id], e.action.owner, e.action.until);
    assert RowInvariant(s.rows[id], s.sends[id]);
    LocalStep(s, e.dispatcher, id, row, s.sends[id],
              Claimed(Token(id, e.action.owner, row.generation), row.attempts, row.sendStarted));
  }

  /** A bystander's view survives a write to the row made under a claim it does not hold. */
  lemma BystanderOfWrite(s: State, d: DispatcherId, id: NotificationId, e: DispatcherId)
    requires Invariant(s) && d in s.phases && Bystander(s, d, id, e)
    requires !s.phases[d].Idle? && s.phases[d].token.id == id
    ensures PhaseFits(s.phases[e], s.rows[id], s.sends[id]) && Compatible(s.phases[d], s.phases[e])
  {
  }

  lemma UnsentKeeps(s: State, e: Event)
    requires Invariant(s) && Enabled(s, e) && (e.action.GiveUp? || e.action.RefuseProvider?)
    ensures Invariant(Next(s, e))
  {
    var d, t := e.dispatcher, PhaseOf(s, e.dispatcher).token;
    var f := if e.action.GiveUp? then FinishAmbiguous(SendAmbiguous) else FinishBlocked(ProviderUnknown);
    var row := if TakesEffect(s.rows, t, e.action.fault) then FinishRow(s.rows[t.id], f) else s.rows[t.id];
    assert PhaseFits(s.phases[d], s.rows[t.id], s.sends[t.id]) && RowInvariant(s.rows[t.id], s.sends[t.id]);
    forall b | Bystander(s, d, t.id, b)
      ensures PhaseFits(s.phases[b], row, s.sends[t.id]) && Compatible(Idle, s.phases[b]) {
      BystanderOfWrite(s, d, t.id, b);
    }
    LocalStep(s, d, t.id, row, s.sends[t.id], Idle);
    assert Next(s, e).rows == s.rows[t.id := row] && Next(s, e).sends == s.sends[t.id := s.sends[t.id]];
  }

  lemma MarkKeeps(s: State, e: Event)
    requires Invariant(s) && Enabled(s, e) && e.action.MarkSendStarted?
    ensures Invariant(Next(s, e))
  {
    var d, p := e.dispatcher, PhaseOf(s, e.dispatcher);
    var t := p.token;
    var row := if TakesEffect(s.rows, t, e.action.fault) then s.rows[t.id].(sendStarted := true) else s.rows[t.id];
    var q := if Holds(s.rows, t) && e.action.fault == NoFault then Marked(t, p.attempts) else Idle;
    assert PhaseFits(p, s.rows[t.id], s.sends[t.id]) && RowInvariant(s.rows[t.id], s.sends[t.id]);
    forall b | Bystander(s, d, t.id, b)
      ensures PhaseFits(s.phases[b], row, s.sends[t.id]) && Compatible(q, s.phases[b]) {
      BystanderOfWrite(s, d, t.id, b);
    }
    LocalStep(s, d, t.id, row, s.sends[t.id], q);
    assert Next(s, e).rows == s.rows[t.id := row] && Next(s, e).sends == s.sends[t.id := s.sends[t.id]];
  }

  lemma SendKeeps(s: State, e: Event)
    requires Invariant(s) && Enabled(s, e) && e.action.Send?
    ensures Invariant(Next(s, e))
  {
    var d, p := e.dispatcher, PhaseOf(s, e.dispatcher);
    var t := p.token;
    var sends := s.sends[t.id] + [SendRecord(t.generation, None, false)];
    assert PhaseFits(p, s.rows[t.id], s.sends[t.id]) && RowInvariant(s.rows[t.id], s.sends[t.id]);
    forall b | Bystander(s, d, t.id, b)
      ensures PhaseFits(s.phases[b], s.rows[t.id], sends) && Compatible(Sending(t, p.attempts), s.phases[b]) {
      BystanderOfWrite(s, d, t.id, b);
    }
    LocalStep(s, d, t.id, s.rows[t.id], sends, Sending(t, p.attempts));
    assert Next(s, e).rows == s.rows[t.id := s.rows[t.id]] && Next(s, e).sends == s.sends[t.id := sends];
  }

  lemma ReturnKeeps(s: State, e: Event)
    requires Invariant(s) && Enabled(s, e) && e.action.Return?
    ensures Invariant(Next(s, e))
  {
    var d, p := e.dispatcher, PhaseOf(s, e.dispatcher);
    var t := p.token;
    var q := Returned(t, p.attempts, e.action.outcome);
    var last := |s.sends[t.id]| - 1;
    var sends := s.sends[t.id][last := s.sends[t.id][last].(outcome := Some(e.action.outcome))];
    assert PhaseFits(p, s.rows[t.id], s.sends[t.id]) && RowInvariant(s.rows[t.id], s.sends[t.id]);
    forall b | Bystander(s, d, t.id, b)
      ensures PhaseFits(s.phases[b], s.rows[t.id], sends) && Compatible(q, s.phases[b]) {
      BystanderOfWrite(s, d, t.id, b);
    }
    LocalStep(s, d, t.id, s.rows[t.id], sends, q);
    assert Next(s, e).rows == s.rows[t.id := s.rows[t.id]] && Next(s, e).sends == s.sends[t.id := sends];
  }

  /** The row and the sends after a verdict took effect. */
  lemma VerdictFitsRow(p: Phase, row: Row, sends: seq<SendRecord>, r: Readings)
    requires p.Returned? && PhaseFits(p, row, sends) && RowInvariant(row, sends)
      && p.token.generation == row.generation && IsOpen(row.status)
    ensures var f := Verdict(p.outcome, p.attempts, r);
      RowInvariant(FinishRow(row, f),
        if f.FinishRetry? then sends[|sends| - 1 := sends[|sends| - 1].(retryRecorded := true)] else sends)
  {
    hide RetryAt;
  }

  /** A dispatcher with an older claim sees the same after it. */
  lemma VerdictFitsBystander(p: Phase, q: Phase, row: Row, sends: seq<SendRecord>, r: Readings)
    requires p.Returned? && !q.Idle? && PhaseFits(p, row, sends) && PhaseFits(q, row, sends) && Compatible(p, q)
      && p.token.id == q.token.id
    requires p.token.generation == row.generation
    ensures var f := Verdict(p.outcome, p.attempts, r);
      PhaseFits(q, FinishRow(row, f),
        if f.FinishRetry? then sends[|sends| - 1 := sends[|sends| - 1].(retryRecorded := true)] else sends)
  {
    hide RetryAt;
  }

  /** The row and the sends of the notification after a verdict, taken effect or not. */
  function RowAfter(row: Row, f: Finish, effect: bool): Row {
    if effect then FinishRow(row, f) else row
  }

  function SendsAfter(sends: seq<SendRecord>, f: Finish, effect: bool): seq<SendRecord>
    requires sends != []
  {
    if f.FinishRetry? && effect then sends[|sends| - 1 := sends[|sends| - 1].(retryRecorded := true)] else sends
  }

  lemma ConcludeIs(s: State, e: Event)
    requires Enabled(s, e) && e.action.Conclude? && PhaseOf(s, e.dispatcher).token.id in s.rows
    ensures var p := PhaseOf(s, e.dispatcher);
      var id, f, effect := p.token.id, Verdict(p.outcome, p.attempts, e.action.readings),
        TakesEffect(s.rows, p.token, e.action.fault);
      Next(s, e) == State(s.rows[id := RowAfter(s.rows[id], f, effect)],
        s.sends[id := SendsAfter(s.sends[id], f, effect)], s.phases[e.dispatcher := Idle])
  {
    hide Verdict;
    var p := PhaseOf(s, e.dispatcher);
    assert s.rows == s.rows[p.token.id := s.rows[p.token.id]] && s.sends == s.sends[p.token.id := s.sends[p.token.id]];
  }

  lemma ConcludeKeeps(s: State, e: Event)
    requires Invariant(s) && Enabled(s, e) && e.action.Conclude?
    ensures Invariant(Next(s, e))
  {
    var d, p := e.dispatcher, PhaseOf(s, e.dispatcher);
    var t := p.token;
    assert PhaseFits(p, s.rows[t.id], s.sends[t.id]) && RowInvariant(s.rows[t.id], s.sends[t.id]);
    ConcludeIs(s, e);
    hide Next, RowInvariant, PhaseFits, Verdict, FinishRow;
    var f := Verdict(p.outcome, p.attempts, e.action.readings);
    var effect := TakesEffect(s.rows, t, e.action.fault);
    if effect {
      VerdictFitsRow(p, s.rows[t.id], s.sends[t.id], e.action.readings);
    }
    var row, sends := RowAfter(s.rows[t.id], f, effect), SendsAfter(s.sends[t.id], f, effect);
    forall b | Bystander(s, d, t.id, b) ensures PhaseFits(s.phases[b], row, sends) && Compatible(Idle, s.phases[b]) {
      BystanderOfWrite(s, d, t.id, b);
      if effect {
        VerdictFitsBystander(p, s.phases[b], s.rows[t.id], s.sends[t.id], e.action.readings);
      }
    }
    LocalStep(s, d, t.id, row, sends, Idle);
  }

  lemma CrashKeeps(s: State, e: Event)
    requires Invariant(s) && Enabled(s, e) && e.action.Crash?
    ensures Invariant(Next(s, e))
  {
    var d, p := e.dispatcher, PhaseOf(s, e.dispatcher);
    var id := p.token.id;
    forall b | Bystander(s, d, id, b)
      ensures PhaseFits(s.phases[b], s.rows[id], s.sends[id]) && Compatible(Idle, s.phases[b]) {
      BystanderOfWrite(s, d, id, b);
    }
    LocalStep(s, d, id, s.rows[id], s.sends[id], Idle);
    assert Next(s, e).rows == s.rows[id := s.rows[id]] && Next(s, e).sends == s.sends[id := s.sends[id]];
  }

  lemma NextKeeps(s: State, e: Event)
    requires Invariant(s)
    ensures Invariant(Next(s, e))
  {
    if Enabled(s, e) {
      match e.action
      case Enqueue(_, _) => EnqueueKeeps(s, e);
      case Claim(_, _, _, _) => ClaimKeeps(s, e);
      case GiveUp(_) => UnsentKeeps(s, e);
      case RefuseProvider(_) => UnsentKeeps(s, e);
      case MarkSendStarted(_) => MarkKeeps(s, e);
      case Send => SendKeeps(s, e);
      case Return(_) => ReturnKeeps(s, e);
      case Conclude(_, _) => ConcludeKeeps(s, e);
      case Crash => CrashKeeps(s, e);
    }
  }

  /** Every reachable state, under every interleaving, satisfies the invariant. */
  lemma {:induction false} RunIsSafe(events: seq<Event>)
    ensures Invariant(Run(events))
  {
    if events != [] {
      RunIsSafe(events[..|events| - 1]);
      NextKeeps(Run(events[..|events| - 1]), events[|events| - 1]);
    }
  }

  // ---- What that means for a recipient ----

  /** Sends whose outcome is unknown, accepted, or refused for good. */
  function OpenSends(sends: seq<SendRecord>): nat {
    if sends == [] then 0
    else OpenSends(sends[..|sends| - 1]) + (if ClosedByRetry(sends[|sends| - 1]) then 0 else 1)
  }

  lemma {:induction false} ClosedPrefix(sends: seq<SendRecord>)
    requires AllClosed(sends)
    ensures OpenSends(sends) == 0
  {
    if sends != [] {
      ClosedPrefix(sends[..|sends| - 1]);
    }
  }

  /** In every run a notification has at most one send that was not explicitly returned for retry. */
  lemma AtMostOneSendCounts(events: seq<Event>, id: NotificationId)
    requires id in Run(events).sends
    ensures OpenSends(Run(events).sends[id]) <= 1
  {
    RunIsSafe(events);
    var sends := Run(events).sends[id];
    assert RowInvariant(Run(events).rows[id], sends);
    if sends != [] {
      ClosedPrefix(sends[..|sends| - 1]);
    }
  }

  /**
   * In every run, when a provider is called again for a notification, the previous
   * call returned a temporary or rate-limited outcome, under a smaller claim, and
   * that was recorded as a retry.
   */
  lemma ResendOnlyAfterRetry(events: seq<Event>, e: Event)
    requires e.action.Send? && Enabled(Run(events), e)
    ensures var s, t := Run(events), PhaseOf(Run(events), e.dispatcher).token;
      && Run(events + [e]).sends[t.id] == s.sends[t.id] + [SendRecord(t.generation, None, false)]
      && (s.sends[t.id] != [] ==>
            var last := LastSend(s, t.id);
            && last.retryRecorded && last.generation < t.generation && last.outcome.Some? && last.outcome.value.Failed?
            && (last.outcome.value.kind == Temporary || last.outcome.value.kind == RateLimited))
  {
    RunIsSafe(events);
    var s, p := Run(events), PhaseOf(Run(events), e.dispatcher);
    assert PhaseFits(p, s.rows[p.token.id], s.sends[p.token.id]);
    assert (events + [e])[..|events|] == events;
  }

  /** The claim token still holds the row and the write reaches it. */
  predicate Lands(row: Row, t: Token, fault: Fault) {
    && (row.status == Pending || row.status == Retry)
    && row.leaseOwner == Some(t.owner) && row.generation == t.generation && fault != NotApplied
  }

  lemma ConcludesWith(events: seq<Event>, e: Event)
    requires e.action.Conclude? && Enabled(Run(events), e)
    ensures var s, p := Run(events), PhaseOf(Run(events), e.dispatcher);
      && p.token.id in s.rows && Run(events + [e]).rows.Keys == s.rows.Keys
      && Run(events + [e]).rows[p.token.id] ==
           RowAfter(s.rows[p.token.id], Verdict(p.outcome, p.attempts, e.action.readings),
             Lands(s.rows[p.token.id], p.token, e.action.fault))
  {
    hide Verdict, RowAfter;
    RunIsSafe(events);
    var s, p := Run(events), PhaseOf(Run(events), e.dispatcher);
    assert s.phases[e.dispatcher].token.id in s.rows;
    assert (events + [e])[..|events|] == events;
    ConcludeIs(s, e);
  }

  /**
   * In every run, what a returned send leaves on the row: accepted for a message id,
   * retry for a temporary or rate-limited error, blocked for every other classified
   * error, ambiguous for the rest; each with its code, and the claim let go.
   */
  lemma OutcomesAreRecorded(events: seq<Event>, e: Event)
    requires e.action.Conclude? && Enabled(Run(events), e)
    requires var s, p := Run(events), PhaseOf(Run(events), e.dispatcher);
      p.token.id in s.rows && Lands(s.rows[p.token.id], p.token, e.action.fault)
    ensures var p := PhaseOf(Run(events), e.dispatcher);
      var o, before, row := p.outcome, Run(events).rows[p.token.id], Run(events + [e]).rows[p.token.id];
      && (row.status == Accepted <==> o.Sent?)
      && (o.Sent? ==> row.providerMessageId == Some(o.messageId) && row.lastErrorCode == None)
      && (row.status == Retry <==> o.Failed? && (o.kind == Temporary || o.kind == RateLimited))
      && (row.status == Retry ==> !row.sendStarted && row.nextAttemptAt.Some?)
      && (row.status == Retry ==>
            row.lastErrorCode == Some(if o.kind == RateLimited then ProviderRateLimited else ProviderRetry))
      && (row.status == Blocked <==>
            o.Failed? && (o.kind == Authentication || o.kind == Validation || o.kind == Conflict
              || o.kind == OtherError))
      && (row.status == Blocked && o.kind == Authentication ==> row.lastErrorCode == Some(ProviderAuth))
      && (row.status == Blocked && o.kind == Validation ==> row.lastErrorCode == Some(ProviderValidation))
      && (row.status == Blocked && o.kind == Conflict ==> row.lastErrorCode == Some(ProviderConflict))
      && (row.status == Blocked && o.kind == OtherError ==> row.lastErrorCode == Some(DispatchError))
      && (row.status == Ambiguous <==> o.UnclassifiedError? || (o.Failed? && o.kind == AmbiguousError))
      && (row.status == Ambiguous ==> row.lastErrorCode == Some(SendAmbiguous))
      && row.leaseOwner == None && row.leaseUntil == None && row.generation == before.generation
      && row.attempts == before.attempts
      && row.providerKey == before.providerKey && (row.status != Retry ==> row.sendStarted == before.sendStarted)
      && (!o.Sent? ==> row.providerMessageId == before.providerMessageId)
  {
    ConcludesWith(events, e);
    hide Run, Enabled, RetryAt;
  }

  /**
   * When the next attempt falls due: the doubled backoff of the attempt; after a
   * rate limit, no earlier than the provider asks for, and an hour on if it asks for
   * more than an hour.
   */
  lemma RetriesFallDue(events: seq<Event>, e: Event)
    requires e.action.Conclude? && Enabled(Run(events), e)
    requires var s, p := Run(events), PhaseOf(Run(events), e.dispatcher);
      && p.token.id in s.rows && Lands(s.rows[p.token.id], p.token, e.action.fault)
      && p.outcome.Failed? && (p.outcome.kind == Temporary || p.outcome.kind == RateLimited)
    ensures var p, r := PhaseOf(Run(events), e.dispatcher), e.action.readings;
      var next := Run(events + [e]).rows[p.token.id].nextAttemptAt;
      var backoff := r.first + Backoff.Delay(10 * Backoff.SECOND, Backoff.HOUR, p.attempts);
      && (p.outcome.kind == Temporary || p.outcome.retryAfter == None ==> next == Some(backoff))
      && (p.outcome.kind == RateLimited && p.outcome.retryAfter.Some? ==>
            var after := p.outcome.retryAfter.value;
            next == Some(if after > Backoff.HOUR then r.third + Backoff.HOUR
                         else if backoff < r.second + after then r.second + after else backoff))
  {
    ConcludesWith(events, e);
    hide Run, Enabled, Backoff.Delay;
  }

  /** In every run, what a claim does: it takes any row that is open, due and not leased, and no other, and counts. */
  lemma ClaimsTake(events: seq<Event>, e: Event)
    requires e.action.Claim? && e.action.id in Run(events).rows
    ensures var before := Run(events).rows[e.action.id];
      Enabled(Run(events), e) <==>
        && PhaseOf(Run(events), e.dispatcher) == Idle
        && (before.status == Pending || before.status == Retry)
        && (before.nextAttemptAt == None || before.nextAttemptAt.value <= e.action.now)
        && (before.leaseUntil == None || before.leaseUntil.value <= e.action.now)
    ensures var before := Run(events).rows[e.action.id];
      Enabled(Run(events), e) ==>
      && Run(events + [e]).rows == Run(events).rows[e.action.id :=
           before.(leaseOwner := Some(e.action.owner), leaseUntil := Some(e.action.until),
                   generation := before.generation + 1, attempts := before.attempts + 1)]
      && PhaseOf(Run(events + [e]), e.dispatcher) ==
           Claimed(Token(e.action.id, e.action.owner, before.generation + 1), before.attempts + 1, before.sendStarted)
  {
    assert (events + [e])[..|events|] == events;
    hide Run;
  }

  /**
   * In every run, what becomes of a claim that sends nothing: ambiguous after an earlier
   * start, blocked without a provider.
   */
  lemma UnsentAreRecorded(events: seq<Event>, e: Event)
    requires (e.action.GiveUp? || e.action.RefuseProvider?) && Enabled(Run(events), e)
    ensures var s, p := Run(events), PhaseOf(Run(events), e.dispatcher);
      var id := p.token.id;
      && p.Claimed? && (e.action.GiveUp? <==> p.sendStarted) && Run(events + [e]).sends == s.sends
      && Run(events + [e]).rows ==
           if id in s.rows && Lands(s.rows[id], p.token, e.action.fault) then
             s.rows[id := s.rows[id].(
               status := if e.action.GiveUp? then Ambiguous else Blocked, leaseOwner := None, leaseUntil := None,
               lastErrorCode := Some(if e.action.GiveUp? then SendAmbiguous else ProviderUnknown))]
           else s.rows
  {
    assert (events + [e])[..|events|] == events;
    hide Run;
  }

  /** In every run, a mark is what lets a dispatcher on, and it is on the row by then. */
  lemma MarksAreDurable(events: seq<Event>, e: Event)
    requires e.action.MarkSendStarted? && Enabled(Run(events), e)
    ensures var s, p := Run(events), PhaseOf(Run(events), e.dispatcher);
      var id, t := p.token.id, Run(events + [e]);
      && p.Claimed? && !p.sendStarted && t.sends == s.sends
      && t.rows == (
           if id in s.rows && Lands(s.rows[id], p.token, e.action.fault)
           then s.rows[id := s.rows[id].(sendStarted := true)] else s.rows)
      && (PhaseOf(t, e.dispatcher) == Marked(p.token, p.attempts) <==>
            id in s.rows && Lands(s.rows[id], p.token, e.action.fault) && e.action.fault == NoFault)
  {
    assert (events + [e])[..|events|] == events;
    hide Run;
  }

  /** Rows are never lost, and a terminal row never changes. */
  lemma TerminalRowStays(s: State, e: Event, id: NotificationId)
    requires id in s.rows
    ensures id in Next(s, e).rows
    ensures !IsOpen(s.rows[id].status) ==> Next(s, e).rows[id] == s.rows[id]
  {
  }

  lemma {:induction false} TerminalForever(events: seq<Event>, more: seq<Event>, id: NotificationId)
    requires id in Run(events).rows && !IsOpen(Run(events).rows[id].status)
    ensures id in Run(events + more).rows && Run(events + more).rows[id] == Run(events).rows[id]
    decreases |more|
  {
    if more == [] {
      assert events + more == events;
    } else {
      var k := |more| - 1;
      TerminalForever(events, more[..k], id);
      assert (events + more)[..|events + more| - 1] == events + more[..k];
      TerminalRowStays(Run(events + more[..k]), more[k], id);
    }
  }

  /**
   * An accepted row carries the message id of its one unretried send and is never
   * sent again; a blocked row was refused every time.
   */
  lemma TerminalRowsAreTruthful(events: seq<Event>, id: NotificationId)
    requires id in Run(events).rows
    ensures id in Run(events).sends
    ensures Run(events).rows[id].status == Accepted ==> LastWasSent(Run(events).rows[id], Run(events).sends[id])
    ensures Run(events).rows[id].status == Blocked ==>
      forall i | 0 <= i < |Run(events).sends[id]| :: Refused(Run(events).sends[id][i])
    ensures Run(events).rows[id].status == Accepted || Run(events).rows[id].status == Blocked ==>
      forall d :: !LiveOn(Run(events), d, id)
  {
    RunIsSafe(events);
    var s := Run(events);
    assert RowInvariant(s.rows[id], s.sends[id]);
    if s.rows[id].status == Accepted || s.rows[id].status == Blocked {
      forall d ensures !LiveOn(s, d, id) {
        assert d in s.phases && !s.phases[d].Idle? && s.phases[d].token.id == id ==>
          PhaseFits(s.phases[d], s.rows[id], s.sends[id]);
      }
    }
  }

  lemma SettledSendsStay(s: State, e: Event, id: NotificationId)
    requires Invariant(s) && id in s.rows && (s.rows[id].status == Accepted || s.rows[id].status == Blocked)
    ensures SendsTo(Next(s, e), id) == SendsTo(s, id)
  {
    hide Verdict, RowInvariant, PhasesCompatible, FinishRow;
    var p := PhaseOf(s, e.dispatcher);
    if e.dispatcher in s.phases && !p.Idle? && p.token.id == id {
      assert PhaseFits(p, s.rows[id], s.sends[id]);
    }
  }

  function SendsTo(s: State, id: NotificationId): seq<SendRecord> {
    if id in s.sends then s.sends[id] else []
  }

  /** Once a notification is accepted or blocked, no continuation of the run calls the provider for it again. */
  lemma {:induction false} NoSendOnceSettled(events: seq<Event>, more: seq<Event>, id: NotificationId)
    requires id in Run(events).rows
    requires Run(events).rows[id].status == Accepted || Run(events).rows[id].status == Blocked
    ensures id in Run(events).sends && id in Run(events + more).sends
    ensures Run(events + more).sends[id] == Run(events).sends[id]
    decreases |more|
  {
    hide Next, RowInvariant, PhasesOk, PhasesCompatible;
    RunIsSafe(events);
    if more == [] {
      assert events + more == events;
    } else {
      var k := |more| - 1;
      NoSendOnceSettled(events, more[..k], id);
      TerminalForever(events, more[..k], id);
      assert (events + more)[..|events + more| - 1] == events + more[..k];
      RunIsSafe(events + more[..k]);
      SettledSendsStay(Run(events + more[..k]), more[k], id);
      RunIsSafe(events + more);
      TerminalForever(events, more, id);
    }
  }
}
