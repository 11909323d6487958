/**
 * One scheduled report run as a transition system: the durable run and delivery
 * rows (db/queries/business_reports.sql), the notifications that deliveries were
 * handed to, and the progress of every worker in processOne
 * (internal/businessreports/runner.go).
 *
 * An event is one atomic action of one worker; Next ignores an event the worker
 * cannot take, so every sequence of events is a run of the protocol. A delivery is
 * named by its position in the listing order.
 */
module ReportRun {
  import opened Wrappers
  import Backoff

  type WorkerId(==, !new) = nat

  const NO_RECIPIENTS := "REPORT_NO_RECIPIENTS"
  const COMPOSITION_FAILED := "REPORT_COMPOSITION_FAILED"
  const SNAPSHOT_INCONSISTENT := "REPORT_SNAPSHOT_INCONSISTENT"
  const NOTIFICATION_IDEM_CONFLICT := "REPORT_NOTIFICATION_IDEMPOTENCY_CONFLICT"
  const INTERNAL_RETRY := "REPORT_INTERNAL_RETRY"

  /** Codes that composition and enqueueing fail with for good. */
  const COMPOSITION_CODES := {"REPORT_BODY_TOO_LARGE", COMPOSITION_FAILED}
  const ENQUEUE_CODES :=
    {"REPORT_NOTIFICATION_MAPPING_MISSING", "REPORT_NOTIFICATION_VALIDATION", NOTIFICATION_IDEM_CONFLICT}

  datatype RunStatus = Pending | Retry | Completed | Blocked

  predicate IsOpen(status: RunStatus) {
    status == Pending || status == Retry
  }

  datatype RunRow = RunRow(
    status: RunStatus, leaseOwner: Option<string>, leaseUntil: Option<int>, generation: nat,
    attempts: nat, nextAttemptAt: Option<int>, lastErrorCode: string)

  /** A rendered body, with the summary and locale it was rendered from. */
  datatype Body = Body(summary: nat, locale: string)

  datatype DeliveryStatus = DeliveryPending | DeliveryEnqueued | DeliveryBlocked

  datatype Delivery = Delivery(
    locale: string, status: DeliveryStatus, body: Option<Body>, notificationId: Option<nat>, lastErrorCode: string)

  /** What the outbox holds under a delivery's idempotency key: the payload fixes the row. */
  datatype Notification = Notification(id: nat, body: Body, template: nat)

  datatype Claim = Claim(owner: string, generation: nat, attempts: nat)

  /** A store call can fail without effect, or take effect with its reply lost. */
  datatype Fault = NoFault | NotApplied | ReplyLost

  // ---- Store operations ----

  predicate Due(run: RunRow, now: int) {
    && IsOpen(run.status)
    && (run.nextAttemptAt.Some? ==> run.nextAttemptAt.value <= now)
    && (run.leaseUntil.Some? ==> run.leaseUntil.value <= now)
  }

  function ClaimRun(run: RunRow, owner: string, until: int): RunRow {
    run.(leaseOwner := Some(owner), leaseUntil := Some(until), generation := run.generation + 1,
      attempts := run.attempts + 1)
  }

  predicate Holds(run: RunRow, c: Claim) {
    IsOpen(run.status) && run.leaseOwner == Some(c.owner) && run.generation == c.generation
  }

  datatype Finish = FinishCompleted | FinishRetry(next: int, retryCode: string) | FinishBlocked(blockedCode: string)

  function FinishRun(run: RunRow, f: Finish): RunRow {
    var released := run.(leaseOwner := None, leaseUntil := None);
    match f
    case FinishCompleted => released.(status := Completed, lastErrorCode := "")
    case FinishRetry(next, code) => released.(status := Retry, nextAttemptAt := Some(next), lastErrorCode := code)
    case FinishBlocked(code) => released.(status := Blocked, lastErrorCode := code)
  }

  /** Delivery writes also need a lease that has not expired when the locks are held. */
  predicate MayWriteDelivery(run: RunRow, c: Claim, now: int) {
    Holds(run, c) && run.leaseUntil.Some? && run.leaseUntil.value > now
  }

  /** All snapshots or none: one delivery that already has a body rolls the whole set back. */
  predicate SnapshotsFit(deliveries: seq<Delivery>, snapshots: map<nat, Body>) {
    forall i | i in snapshots :: i < |deliveries| && deliveries[i].body.None?
  }

  function WithSnapshots(deliveries: seq<Delivery>, snapshots: map<nat, Body>): (r: seq<Delivery>)
    ensures |r| == |deliveries|
    ensures forall i | 0 <= i < |r| ::
      r[i] == if i in snapshots then deliveries[i].(body := Some(snapshots[i])) else deliveries[i]
  {
    seq(|deliveries|, i requires 0 <= i < |deliveries| =>
      if i in snapshots then deliveries[i].(body := Some(snapshots[i])) else deliveries[i])
  }

  function EnqueuedAs(d: Delivery, notificationId: nat): Delivery {
    d.(status := DeliveryEnqueued, notificationId := Some(notificationId), lastErrorCode := "")
  }

  function BlockedAs(d: Delivery, code: string): Delivery {
    d.(status := DeliveryBlocked, lastErrorCode := code)
  }

  // ---- What a worker computes from rows it read ----

  predicate Missing(d: Delivery) {
    d.status == DeliveryPending && d.body.None?
  }

  predicate AnyBody(rows: seq<Delivery>) {
    exists i | 0 <= i < |rows| :: rows[i].body.Some?
  }

  predicate AnyMissing(rows: seq<Delivery>) {
    exists i | 0 <= i < |rows| :: Missing(rows[i])
  }

  /** One summary renders every missing body. */
  function Compose(rows: seq<Delivery>, summary: nat): map<nat, Body> {
    map i: nat | i < |rows| && Missing(rows[i]) :: Body(summary, rows[i].locale)
  }

  predicate AnyPending(rows: seq<Delivery>) {
    exists i | 0 <= i < |rows| :: rows[i].status == DeliveryPending
  }

  /** The code of the first blocked row that carries one. */
  function BlockedCode(rows: seq<Delivery>): string {
    if rows == [] then ""
    else if rows[0].status == DeliveryBlocked && rows[0].lastErrorCode != "" then rows[0].lastErrorCode
    else BlockedCode(rows[1..])
  }

  function DurableCode(rows: seq<Delivery>): string {
    if BlockedCode(rows) != "" then BlockedCode(rows) else SNAPSHOT_INCONSISTENT
  }

  const RUN_BASE_DELAY := 10 * Backoff.SECOND
  const RUN_MAX_DELAY := Backoff.HOUR

  function RetryLater(attempts: nat, now: int): Finish {
    FinishRetry(now + Backoff.Delay(RUN_BASE_DELAY, RUN_MAX_DELAY, attempts), INTERNAL_RETRY)
  }

  /** The final verdict over authoritative rows. */
  function Verdict(rows: seq<Delivery>, pendingRemain: bool, attempts: nat, now: int): Finish {
    if pendingRemain || AnyPending(rows) then RetryLater(attempts, now)
    else if BlockedCode(rows) != "" then FinishBlocked(BlockedCode(rows))
    else FinishCompleted
  }

  // ---- States and events ----

  datatype Composition = Composed(summary: nat) | Refused(code: string) | Unavailable

  /** What the notification service answers: a terminal refusal, an outage, or a resolved template to insert under. */
  datatype Service = Rejects(code: string) | Fails | Resolves(template: nat, freshId: nat, replyLost: bool)

  /** Where a worker stands in processOne. */
  datatype Phase =
    | Idle
    | Claimed(claim: Claim)
    | Listed(claim: Claim, rows: seq<Delivery>)
    | Rendered(claim: Claim, snapshots: map<nat, Body>)
    | Condemned(claim: Claim, code: string)
    | BarrierPassed(claim: Claim)
    | Enqueueing(claim: Claim, rows: seq<Delivery>, k: nat, pendingRemain: bool)
    | Handed(claim: Claim, rows: seq<Delivery>, k: nat, pendingRemain: bool, notificationId: nat)
    | Refusing(claim: Claim, rows: seq<Delivery>, k: nat, pendingRemain: bool, code: string)
    | Deciding(claim: Claim, rows: seq<Delivery>, pendingRemain: bool)
    | AlreadyBlocked(claim: Claim)
    | NoVerdict(claim: Claim)

  datatype State = State(
    run: RunRow, deliveries: seq<Delivery>, outbox: map<nat, Notification>, phases: map<WorkerId, Phase>)

  datatype Action =
    | TakeRun(owner: string, now: int, until: int)
    | List
    | BlockUnresolved(fault: Fault)
    | BlockEmpty(fault: Fault)
    | PassBarrier
    | BlockInconsistent(fault: Fault)
    | ComposeBodies(composition: Composition)
    | BlockComposition(fault: Fault)
    | Persist(now: int, fault: Fault)
    | ListAgain(listed: bool)
    | Skip
    | Enqueue(service: Service)
    | RecordEnqueued(now: int, fault: Fault)
    | RecordBlocked(now: int, fault: Fault)
    | ListForVerdict
    | Conclude(now: int, fault: Fault)
    | BlockAgain(fault: Fault)
    | GiveUp(now: int, fault: Fault)
    | Crash

  datatype Event = Event(worker: WorkerId, action: Action)

  function PhaseOf(s: State, w: WorkerId): Phase {
    if w in s.phases then s.phases[w] else Idle
  }

  function SetPhase(s: State, w: WorkerId, p: Phase): State {
    s.(phases := s.phases[w := p])
  }

  function WriteRun(s: State, c: Claim, f: Finish, fault: Fault): (t: State)
    ensures t == s.(run := t.run)
  {
    if Holds(s.run, c) && fault != NotApplied then s.(run := FinishRun(s.run, f)) else s
  }

  predicate Acknowledged(s: State, c: Claim, fault: Fault) {
    Holds(s.run, c) && fault == NoFault
  }

  predicate Enabled(s: State, e: Event) {
    var p := PhaseOf(s, e.worker);
    match e.action
    case TakeRun(_, now, _) => p.Idle? && Due(s.run, now)
    case List => p.Claimed?
    case BlockUnresolved(_) => p.Claimed? || (p.Listed? && p.rows != [])
    case BlockEmpty(_) => p.Listed? && p.rows == []
    case PassBarrier => p.Listed? && p.rows != [] && !AnyMissing(p.rows)
    case BlockInconsistent(_) => p.Listed? && AnyMissing(p.rows) && AnyBody(p.rows)
    case ComposeBodies(c) =>
      p.Listed? && AnyMissing(p.rows) && !AnyBody(p.rows) && (c.Refused? ==> c.code in COMPOSITION_CODES)
    case BlockComposition(_) => p.Condemned?
    case Persist(_, _) => p.Rendered?
    case ListAgain(_) => p.BarrierPassed?
    case Skip => p.Enqueueing? && p.k < |p.rows| && (p.rows[p.k].status != DeliveryPending || p.rows[p.k].body.None?)
    case Enqueue(service) =>
      && p.Enqueueing? && p.k < |p.rows| && p.rows[p.k].status == DeliveryPending && p.rows[p.k].body.Some?
      && (service.Rejects? ==> service.code in ENQUEUE_CODES)
    case RecordEnqueued(_, _) => p.Handed? && p.k < |s.deliveries|
    case RecordBlocked(_, _) => p.Refusing? && p.k < |s.deliveries|
    case ListForVerdict => p.Enqueueing? && p.k == |p.rows|
    case Conclude(_, _) => p.Deciding?
    case BlockAgain(_) => p.AlreadyBlocked?
    case GiveUp(_, _) => p.NoVerdict?
    case Crash => !p.Idle?
  }

  /** Handing one body to the notification service, under the delivery's idempotency key. */
  function EnqueueUnder(s: State, w: WorkerId, p: Phase, service: Service): (t: State)
    requires p.Enqueueing? && p.k < |p.rows| && p.rows[p.k].body.Some?
    ensures w in t.phases && t.phases == s.phases[w := t.phases[w]]
  {
    var later := Enqueueing(p.claim, p.rows, p.k + 1, true);
    match service
    case Rejects(code) => SetPhase(s, w, Refusing(p.claim, p.rows, p.k, p.pendingRemain, code))
    case Fails => SetPhase(s, w, later)
    case Resolves(template, freshId, replyLost) =>
      var body := p.rows[p.k].body.value;
      var inserted := if p.k in s.outbox then s
        else s.(outbox := s.outbox[p.k := Notification(freshId, body, template)]);
      var row := inserted.outbox[p.k];
      if replyLost then SetPhase(inserted, w, later)
      else if row.body != body || row.template != template then
        SetPhase(inserted, w, Refusing(p.claim, p.rows, p.k, p.pendingRemain, NOTIFICATION_IDEM_CONFLICT))
      else SetPhase(inserted, w, Handed(p.claim, p.rows, p.k, p.pendingRemain, row.id))
  }

  /** A delivery finish: fenced by the run, only on a pending delivery. */
  function RecordDelivery(s: State, w: WorkerId, p: Phase, after: Delivery, now: int, fault: Fault): (t: State)
    requires (p.Handed? || p.Refusing?) && p.k < |s.deliveries|
    ensures w in t.phases && t.phases == s.phases[w := t.phases[w]]
  {
    var fits := MayWriteDelivery(s.run, p.claim, now) && s.deliveries[p.k].status == DeliveryPending;
    var written := if fits && fault != NotApplied then s.(deliveries := s.deliveries[p.k := after]) else s;
    if fault != NoFault then SetPhase(written, w, Idle)
    else SetPhase(written, w, Enqueueing(p.claim, p.rows, p.k + 1, p.pendingRemain || !fits))
  }

  function Next(s: State, e: Event): State {
    if !Enabled(s, e) then s else
    var w, p := e.worker, PhaseOf(s, e.worker);
    match e.action
    case TakeRun(owner, _, until) =>
      var run := ClaimRun(s.run, owner, until);
      SetPhase(s.(run := run), w, Claimed(Claim(owner, run.generation, run.attempts)))
    case List => SetPhase(s, w, Listed(p.claim, s.deliveries))
    case BlockUnresolved(fault) => SetPhase(WriteRun(s, p.claim, FinishBlocked(COMPOSITION_FAILED), fault), w, Idle)
    case BlockEmpty(fault) => SetPhase(WriteRun(s, p.claim, FinishBlocked(NO_RECIPIENTS), fault), w, Idle)
    case PassBarrier => SetPhase(s, w, BarrierPassed(p.claim))
    case BlockInconsistent(fault) =>
      SetPhase(WriteRun(s, p.claim, FinishBlocked(SNAPSHOT_INCONSISTENT), fault), w,
               if Acknowledged(s, p.claim, fault) then AlreadyBlocked(p.claim) else NoVerdict(p.claim))
    case ComposeBodies(c) =>
      SetPhase(s, w, match c
                     case Composed(summary) => Rendered(p.claim, Compose(p.rows, summary))
                     case Refused(code) => Condemned(p.claim, code)
                     case Unavailable => NoVerdict(p.claim))
    case BlockComposition(fault) =>
      SetPhase(WriteRun(s, p.claim, FinishBlocked(p.code), fault), w,
               if Acknowledged(s, p.claim, fault) then AlreadyBlocked(p.claim) else NoVerdict(p.claim))
    case Persist(now, fault) =>
      var fits := MayWriteDelivery(s.run, p.claim, now) && SnapshotsFit(s.deliveries, p.snapshots);
      var t := if fits && fault != NotApplied then s.(deliveries := WithSnapshots(s.deliveries, p.snapshots)) else s;
      SetPhase(t, w, if fits && fault == NoFault then BarrierPassed(p.claim) else NoVerdict(p.claim))
    case ListAgain(listed) => SetPhase(s, w, Enqueueing(p.claim, if listed then s.deliveries else [], 0, false))
    case Skip => SetPhase(s, w,
      Enqueueing(p.claim, p.rows, p.k + 1, p.pendingRemain || p.rows[p.k].status == DeliveryPending))
    case Enqueue(service) => EnqueueUnder(s, w, p, service)
    case RecordEnqueued(now, fault) =>
      RecordDelivery(s, w, p, EnqueuedAs(s.deliveries[p.k], p.notificationId), now, fault)
    case RecordBlocked(now, fault) =>
      RecordDelivery(s, w, p, BlockedAs(s.deliveries[p.k], p.code), now, fault)
    case ListForVerdict => SetPhase(s, w, Deciding(p.claim, s.deliveries, p.pendingRemain))
    case Conclude(now, fault) =>
      SetPhase(WriteRun(s, p.claim, Verdict(p.rows, p.pendingRemain, p.claim.attempts, now), fault), w, Idle)
    case BlockAgain(fault) =>
      SetPhase(WriteRun(s, p.claim, FinishBlocked(DurableCode(s.deliveries)), fault), w, Idle)
    case GiveUp(now, fault) => SetPhase(WriteRun(s, p.claim, RetryLater(p.claim.attempts, now), fault), w, Idle)
    case Crash => SetPhase(s, w, Idle)
  }

  /** A run as it is created: one pending delivery without a body for every recipient. */
  function Created(locales: seq<string>): State {
    State(RunRow(Pending, None, None, 0, 0, None, ""),
          seq(|locales|, i requires 0 <= i < |locales| => Delivery(locales[i], DeliveryPending, None, None, "")),
          map[], map[])
  }

  function Run(locales: seq<string>, events: seq<Event>): State {
    if events == [] then Created(locales) else Next(Run(locales, events[..|events| - 1]), events[|events| - 1])
  }

  // ---- What every reachable state satisfies ----

  /** Before the barrier commits: no body, and nothing has happened to any delivery. */
  predicate Untouched(rows: seq<Delivery>) {
    forall i | 0 <= i < |rows| :: rows[i].status == DeliveryPending && rows[i].body.None?
  }

  /** After it: every body is there, rendered for its own locale from one summary. */
  predicate AllFrom(rows: seq<Delivery>, summary: nat) {
    forall i | 0 <= i < |rows| :: rows[i].body == Some(Body(summary, rows[i].locale))
  }

  ghost predicate AllOrNone(rows: seq<Delivery>) {
    Untouched(rows) || exists summary :: AllFrom(rows, summary)
  }

  predicate BlockedHaveCodes(rows: seq<Delivery>) {
    forall i | 0 <= i < |rows| && rows[i].status == DeliveryBlocked :: rows[i].lastErrorCode in ENQUEUE_CODES
  }

  /** What rows a worker read still say about the rows there are: bodies and terminal rows stay. */
  predicate StillTrue(rows: seq<Delivery>, now: seq<Delivery>) {
    && |rows| == |now|
    && (forall i | 0 <= i < |rows| :: rows[i].locale == now[i].locale)
    && (forall i | 0 <= i < |rows| && rows[i].body.Some? :: now[i].body == rows[i].body)
    && (forall i | 0 <= i < |rows| && rows[i].status != DeliveryPending :: now[i] == rows[i])
  }

  /** The outbox holds persisted bodies only, and an enqueued delivery names its notification. */
  predicate OutboxMatches(deliveries: seq<Delivery>, outbox: map<nat, Notification>) {
    && (forall i | i in outbox :: i < |deliveries| && deliveries[i].body == Some(outbox[i].body))
    && (forall i | 0 <= i < |deliveries| && deliveries[i].status == DeliveryEnqueued ::
          i in outbox && deliveries[i].notificationId == Some(outbox[i].id))
  }

  predicate AllEnqueued(deliveries: seq<Delivery>) {
    deliveries != [] && forall i | 0 <= i < |deliveries| :: deliveries[i].status == DeliveryEnqueued
  }

  /** Nothing pends, and the first delivery that is not enqueued is blocked with this code. */
  predicate BlockedBy(deliveries: seq<Delivery>, code: string) {
    && (forall i | 0 <= i < |deliveries| :: deliveries[i].status != DeliveryPending)
    && exists i | 0 <= i < |deliveries| ::
         && deliveries[i].status == DeliveryBlocked && deliveries[i].lastErrorCode == code
         && forall j | 0 <= j < i :: deliveries[j].status == DeliveryEnqueued
  }

  predicate RunRowOk(run: RunRow, deliveries: seq<Delivery>) {
    && (run.status == Completed ==> AllEnqueued(deliveries))
    && (run.status == Blocked && run.lastErrorCode in ENQUEUE_CODES ==> BlockedBy(deliveries, run.lastErrorCode))
    && (run.status == Blocked && run.lastErrorCode == NO_RECIPIENTS ==> deliveries == [])
    && (run.status == Blocked ==> run.lastErrorCode != "")
    && run.lastErrorCode != SNAPSHOT_INCONSISTENT
  }

  ghost predicate DurableOk(s: State) {
    && AllOrNone(s.deliveries) && BlockedHaveCodes(s.deliveries)
    && OutboxMatches(s.deliveries, s.outbox) && RunRowOk(s.run, s.deliveries)
  }

  ghost predicate RowsRead(rows: seq<Delivery>, s: State) {
    AllOrNone(rows) && BlockedHaveCodes(rows) && StillTrue(rows, s.deliveries)
  }

  predicate RendersAll(snapshots: map<nat, Body>, deliveries: seq<Delivery>, summary: nat) {
    && (forall i | 0 <= i < |deliveries| :: i in snapshots && snapshots[i] == Body(summary, deliveries[i].locale))
    && (forall i | i in snapshots :: i < |deliveries|)
  }

  ghost predicate PhaseFits(p: Phase, s: State) {
    && (!p.Idle? ==> p.claim.generation <= s.run.generation)
    && match p
       case Listed(_, rows) => RowsRead(rows, s)
       case Rendered(_, snapshots) =>
         s.deliveries != [] && exists summary :: RendersAll(snapshots, s.deliveries, summary)
       case Condemned(_, code) => code in COMPOSITION_CODES
       case BarrierPassed(_) => s.deliveries != []
       case Enqueueing(_, rows, k, _) => s.deliveries != [] && (rows == [] || RowsRead(rows, s)) && k <= |rows|
       case Handed(_, rows, k, _, id) =>
         RowsRead(rows, s) && k < |rows| && rows[k].body.Some? && k in s.outbox && s.outbox[k].id == id
       case Refusing(_, rows, k, _, code) =>
         RowsRead(rows, s) && k < |rows| && rows[k].body.Some? && code in ENQUEUE_CODES
       case Deciding(_, rows, _) => s.deliveries != [] && RowsRead(rows, s)
       case AlreadyBlocked(_) => s.run.status == Blocked
       case _ => true
  }

  ghost predicate Invariant(s: State) {
    DurableOk(s) && forall w | w in s.phases :: PhaseFits(s.phases[w], s)
  }

  /** What every event keeps: bodies, terminal deliveries, notifications and the verdict are final. */
  predicate Grew(s: State, t: State) {
    && StillTrue(s.deliveries, t.deliveries)
    && (forall i | i in s.outbox :: i in t.outbox && t.outbox[i] == s.outbox[i])
    && (!IsOpen(s.run.status) ==> t.run == s.run)
    && s.run.generation <= t.run.generation
  }

  // ---- Every event keeps the invariant ----

  lemma {:induction false} BlockedCodeFound(rows: seq<Delivery>)
    ensures BlockedCode(rows) == "" <==>
      forall i | 0 <= i < |rows| && rows[i].status == DeliveryBlocked :: rows[i].lastErrorCode == ""
    ensures BlockedCode(rows) != "" ==> exists i | 0 <= i < |rows| ::
      && rows[i].status == DeliveryBlocked && rows[i].lastErrorCode == BlockedCode(rows)
      && forall j | 0 <= j < i && rows[j].status == DeliveryBlocked :: rows[j].lastErrorCode == ""
  {
    if rows != [] {
      BlockedCodeFound(rows[1..]);
      if BlockedCode(rows) != "" && !(rows[0].status == DeliveryBlocked && rows[0].lastErrorCode != "") {
        var i :| 0 <= i < |rows[1..]| && rows[1..][i].status == DeliveryBlocked
          && rows[1..][i].lastErrorCode == BlockedCode(rows)
          && forall j | 0 <= j < i && rows[1..][j].status == DeliveryBlocked :: rows[1..][j].lastErrorCode == "";
        assert rows[i + 1] == rows[1..][i];
        forall j | 0 <= j < i + 1 && rows[j].status == DeliveryBlocked ensures rows[j].lastErrorCode == "" {
          assert j > 0 ==> rows[1..][j - 1] == rows[j];
        }
      }
      if BlockedCode(rows) == "" {
        forall i | 0 <= i < |rows| && rows[i].status == DeliveryBlocked ensures rows[i].lastErrorCode == "" {
          assert i > 0 ==> rows[1..][i - 1] == rows[i];
        }
      }
    }
  }

  /**
   * What is still to be handed over comes before any refusal: the run is retried
   * while something pends, then blocked with the first code a blocked row carries.
   */
  lemma VerdictIs(rows: seq<Delivery>, pendingRemain: bool, attempts: nat, now: int)
    ensures var f := Verdict(rows, pendingRemain, attempts, now);
      var pends := pendingRemain || exists i | 0 <= i < |rows| :: rows[i].status == DeliveryPending;
      && (pends ==> f == FinishRetry(
            now + Backoff.Delay(10 * Backoff.SECOND, Backoff.HOUR, attempts), "REPORT_INTERNAL_RETRY"))
      && (f.FinishBlocked? <==> (!pends &&
            exists i | 0 <= i < |rows| :: rows[i].status == DeliveryBlocked && rows[i].lastErrorCode != ""))
      && (f.FinishBlocked? ==> exists i | 0 <= i < |rows| ::
            && rows[i].status == DeliveryBlocked && rows[i].lastErrorCode == f.blockedCode != ""
            && forall j | 0 <= j < i && rows[j].status == DeliveryBlocked :: rows[j].lastErrorCode == "")
      && (f.FinishRetry? ==> pends)
  {
    BlockedCodeFound(rows);
  }

  /** A completing verdict was given over rows that are all enqueued. */
  lemma CompletesOnlyEnqueued(rows: seq<Delivery>, pendingRemain: bool, attempts: nat, now: int)
    requires BlockedHaveCodes(rows)
    ensures Verdict(rows, pendingRemain, attempts, now).FinishCompleted? <==>
      !pendingRemain && forall i | 0 <= i < |rows| :: rows[i].status == DeliveryEnqueued
  {
    BlockedCodeFound(rows);
  }

  ghost predicate KeepsDurable(s: State, t: State) {
    DurableOk(t) && Grew(s, t)
  }

  lemma ReflexiveKeeps(s: State)
    requires DurableOk(s)
    ensures KeepsDurable(s, s)
  {
  }

  lemma ClaimKeeps(s: State, owner: string, until: int)
    requires DurableOk(s) && IsOpen(s.run.status)
    ensures KeepsDurable(s, s.(run := ClaimRun(s.run, owner, until)))
  {
  }

  /** The verdict over rows read earlier is true of the rows there are. */
  lemma ConcludesTruthfully(s: State, rows: seq<Delivery>, pendingRemain: bool, attempts: nat, now: int)
    requires DurableOk(s) && s.deliveries != [] && RowsRead(rows, s)
    ensures var f := Verdict(rows, pendingRemain, attempts, now);
      && (f.FinishCompleted? ==> AllEnqueued(s.deliveries))
      && (f.FinishRetry? ==> f.retryCode == INTERNAL_RETRY)
      && (f.FinishBlocked? ==> f.blockedCode in ENQUEUE_CODES && BlockedBy(s.deliveries, f.blockedCode))
  {
    hide Verdict, BlockedCode, AllOrNone;
    CompletesOnlyEnqueued(rows, pendingRemain, attempts, now);
    VerdictIs(rows, pendingRemain, attempts, now);
  }

  lemma WriteRunKeeps(s: State, w: WorkerId, p: Phase, c: Claim, f: Finish, fault: Fault)
    requires DurableOk(s)
    requires f.FinishCompleted? ==> AllEnqueued(s.deliveries)
    requires f.FinishRetry? ==> f.retryCode == INTERNAL_RETRY
    requires f.FinishBlocked? ==>
      || (f.blockedCode != "" && f.blockedCode != SNAPSHOT_INCONSISTENT
          && (f.blockedCode in ENQUEUE_CODES ==> BlockedBy(s.deliveries, f.blockedCode))
          && (f.blockedCode == NO_RECIPIENTS ==> s.deliveries == []))
      || !IsOpen(s.run.status)
    ensures KeepsDurable(s, SetPhase(WriteRun(s, c, f, fault), w, p))
  {
    hide AllOrNone, BlockedHaveCodes, OutboxMatches, AllEnqueued, BlockedBy;
  }

  /** Persisting works only on a set nothing has happened to, and leaves all bodies from one summary. */
  lemma PersistKeeps(s: State, w: WorkerId, p: Phase, snapshots: map<nat, Body>, summary: nat)
    requires DurableOk(s) && s.deliveries != [] && RendersAll(snapshots, s.deliveries, summary)
    requires SnapshotsFit(s.deliveries, snapshots)
    ensures KeepsDurable(s, SetPhase(s.(deliveries := WithSnapshots(s.deliveries, snapshots)), w, p))
    ensures Untouched(s.deliveries) && AllFrom(WithSnapshots(s.deliveries, snapshots), summary)
  {
    assert 0 in snapshots && s.deliveries[0].body.None?;
    assert Untouched(s.deliveries);
    assert AllFrom(WithSnapshots(s.deliveries, snapshots), summary);
  }

  lemma EnqueueKeeps(s: State, w: WorkerId, p: Phase, service: Service)
    requires DurableOk(s) && p.Enqueueing? && p.k < |p.rows| && p.rows[p.k].body.Some? && RowsRead(p.rows, s)
    ensures KeepsDurable(s, EnqueueUnder(s, w, p, service))
  {
    var body := p.rows[p.k].body.value;
    assert p.k < |s.deliveries| && s.deliveries[p.k].body == Some(body);
    hide KeepsDurable, RowsRead;
    var t := if service.Resolves? && p.k !in s.outbox then s.(outbox :=
      s.outbox[p.k := Notification(service.freshId, body, service.template)]) else s;
    ReflexiveKeeps(s);
    if service.Resolves? && p.k !in s.outbox {
      InsertKeeps(s, p.k, Notification(service.freshId, body, service.template));
    }
    forall q ensures KeepsDurable(s, SetPhase(t, w, q)) {
      PhasesDoNotMatter(s, t, w, q);
    }
  }

  /** A notification with the persisted body may appear under a delivery's free key. */
  lemma InsertKeeps(s: State, k: nat, n: Notification)
    requires DurableOk(s) && k < |s.deliveries| && s.deliveries[k].body == Some(n.body) && k !in s.outbox
    ensures KeepsDurable(s, s.(outbox := s.outbox[k := n]))
  {
    hide AllOrNone, BlockedHaveCodes;
  }

  /** One delivery gets its terminal status. */
  predicate Settles(before: Delivery, after: Delivery, k: nat, outbox: map<nat, Notification>) {
    && before.status == DeliveryPending && before.body.Some?
    && after.locale == before.locale && after.body == before.body
    && (after.status == DeliveryBlocked ==> after.lastErrorCode in ENQUEUE_CODES)
    && (after.status == DeliveryEnqueued ==> k in outbox && after.notificationId == Some(outbox[k].id))
  }

  lemma SettleKeeps(s: State, k: nat, after: Delivery)
    requires DurableOk(s) && k < |s.deliveries| && IsOpen(s.run.status)
    requires Settles(s.deliveries[k], after, k, s.outbox)
    ensures KeepsDurable(s, s.(deliveries := s.deliveries[k := after]))
  {
    var summary :| AllFrom(s.deliveries, summary);
    assert AllFrom(s.deliveries[k := after], summary);
    assert AllOrNone(s.deliveries[k := after]);
  }

  lemma PhasesDoNotMatter(s: State, t: State, w: WorkerId, p: Phase)
    requires KeepsDurable(s, t)
    ensures KeepsDurable(s, SetPhase(t, w, p))
  {
    hide AllOrNone, BlockedHaveCodes, OutboxMatches, RunRowOk;
  }

  lemma RecordKeeps(s: State, w: WorkerId, p: Phase, after: Delivery, now: int, fault: Fault)
    requires DurableOk(s) && (p.Handed? || p.Refusing?) && p.k < |s.deliveries|
    requires s.deliveries[p.k].status == DeliveryPending ==> Settles(s.deliveries[p.k], after, p.k, s.outbox)
    ensures KeepsDurable(s, RecordDelivery(s, w, p, after, now, fault))
  {
    var fits := MayWriteDelivery(s.run, p.claim, now) && s.deliveries[p.k].status == DeliveryPending;
    var t := if fits && fault != NotApplied then s.(deliveries := s.deliveries[p.k := after]) else s;
    assert KeepsDurable(s, t) by {
      if fits && fault != NotApplied {
        SettleKeeps(s, p.k, after);
      }
    }
    hide KeepsDurable;
    forall q ensures KeepsDurable(s, SetPhase(t, w, q)) {
      PhasesDoNotMatter(s, t, w, q);
    }
  }

  /** Composing over rows without any body renders the whole set. */
  lemma ComposeRendersAll(rows: seq<Delivery>, deliveries: seq<Delivery>, summary: nat)
    requires AllOrNone(rows) && AnyMissing(rows) && !AnyBody(rows) && StillTrue(rows, deliveries)
    ensures RendersAll(Compose(rows, summary), deliveries, summary)
  {
    assert Untouched(rows);
    assert forall i | 0 <= i < |rows| :: Missing(rows[i]);
  }

  /** No worker ever meets a partial set of bodies. */
  lemma NeverInconsistent(rows: seq<Delivery>)
    requires AllOrNone(rows)
    ensures !(AnyMissing(rows) && AnyBody(rows))
  {
  }

  lemma BodiesStillThere(s: State, rows: seq<Delivery>, k: nat)
    requires RowsRead(rows, s) && k < |rows| && rows[k].body.Some?
    ensures k < |s.deliveries| && s.deliveries[k].body.Some?
  {
  }

  lemma NothingListed(rows: seq<Delivery>, s: State)
    requires RowsRead(rows, s) && rows == []
    ensures s.deliveries == []
  {
  }

  lemma StepKeeps(s: State, e: Event)
    requires Invariant(s) && Enabled(s, e)
    ensures KeepsDurable(s, Next(s, e))
  {
    hide WriteRun, RecordDelivery, EnqueueUnder, Compose, BlockedCode, KeepsDurable, WithSnapshots, OutboxMatches,
      AllEnqueued,
      AllOrNone, BlockedHaveCodes, StillTrue;
    var w, p, t := e.worker, PhaseOf(s, e.worker), Next(s, e);
    assert p.Idle? || PhaseFits(p, s);
    assert KeepsDurable(s, s) by { ReflexiveKeeps(s); }
    match e.action
    case TakeRun(owner, _, until) =>
      ClaimKeeps(s, owner, until); PhasesDoNotMatter(s, s.(run := ClaimRun(s.run, owner, until)), w, PhaseOf(t, w));
    case BlockUnresolved(fault) => WriteRunKeeps(s, w, Idle, p.claim, FinishBlocked(COMPOSITION_FAILED), fault);
    case BlockEmpty(fault) =>
      NothingListed(p.rows, s);
      WriteRunKeeps(s, w, Idle, p.claim, FinishBlocked(NO_RECIPIENTS), fault);
    case BlockInconsistent(_) => NeverInconsistent(p.rows);
    case BlockComposition(fault) => WriteRunKeeps(s, w, PhaseOf(t, w), p.claim, FinishBlocked(p.code), fault);
    case Persist(_, fault) =>
      var summary :| RendersAll(p.snapshots, s.deliveries, summary);
      if SnapshotsFit(s.deliveries, p.snapshots) && fault != NotApplied {
        PersistKeeps(s, w, PhaseOf(t, w), p.snapshots, summary);
      }
      PhasesDoNotMatter(s, s, w, PhaseOf(t, w));
    case Enqueue(service) => EnqueueKeeps(s, w, p, service);
    case RecordEnqueued(now, fault) =>
      BodiesStillThere(s, p.rows, p.k);
      RecordKeeps(s, w, p, EnqueuedAs(s.deliveries[p.k], p.notificationId), now, fault);
    case RecordBlocked(now, fault) =>
      BodiesStillThere(s, p.rows, p.k);
      RecordKeeps(s, w, p, BlockedAs(s.deliveries[p.k], p.code), now, fault);
    case Conclude(now, fault) =>
      ConcludesTruthfully(s, p.rows, p.pendingRemain, p.claim.attempts, now);
      WriteRunKeeps(s, w, Idle, p.claim, Verdict(p.rows, p.pendingRemain, p.claim.attempts, now), fault);
    case BlockAgain(fault) => WriteRunKeeps(s, w, Idle, p.claim, FinishBlocked(DurableCode(s.deliveries)), fault);
    case GiveUp(now, fault) =>
      WriteRunKeeps(s, w, Idle, p.claim, RetryLater(p.claim.attempts, now), fault);
    case _ => PhasesDoNotMatter(s, s, w, PhaseOf(t, w));
  }

  /** What a worker knew stays true while others move on. */
  lemma PhaseSurvives(p: Phase, s: State, t: State)
    requires PhaseFits(p, s) && Grew(s, t)
    ensures PhaseFits(p, t)
  {
    hide AllOrNone, BlockedHaveCodes;
    if p.Rendered? {
      var summary :| RendersAll(p.snapshots, s.deliveries, summary);
      assert RendersAll(p.snapshots, t.deliveries, summary);
    }
  }

  /** Up to the barrier, and when the run is finished. */
  predicate BeforeEnqueueing(a: Action) {
    a.TakeRun? || a.List? || a.BlockUnresolved? || a.BlockEmpty? || a.PassBarrier? || a.BlockInconsistent?
      || a.ComposeBodies?
    || a.BlockComposition? || a.Persist?
  }

  lemma ActorFitsBefore(s: State, e: Event)
    requires Invariant(s) && Enabled(s, e) && BeforeEnqueueing(e.action)
    ensures PhaseFits(PhaseOf(Next(s, e), e.worker), Next(s, e))
  {
    hide AllOrNone, BlockedHaveCodes, Compose, WithSnapshots, StillTrue, AnyMissing, AnyBody, Grew, OutboxMatches,
      EnqueueUnder, RecordDelivery,
      Verdict, RetryLater, DurableCode;
    var p, t := PhaseOf(s, e.worker), Next(s, e);
    assert p.Idle? || PhaseFits(p, s);
    StepKeeps(s, e);
    PhaseSurvives(p, s, t);
    RowsReadNow(t);
    match e.action
    case PassBarrier => PassesWithRows(p.rows, s);
    case ComposeBodies(c) =>
      PassesWithRows(p.rows, s);
      if c.Composed? {
        ComposeRendersAll(p.rows, s.deliveries, c.summary);
      }
    case BlockInconsistent(_) => NeverInconsistent(p.rows);
    case _ =>
  }

  lemma HandingFits(s: State, w: WorkerId, p: Phase, service: Service)
    requires p.Enqueueing? && p.k < |p.rows| && p.rows[p.k].body.Some?
      && (service.Rejects? ==> service.code in ENQUEUE_CODES)
    requires PhaseFits(p, EnqueueUnder(s, w, p, service))
    ensures var t := EnqueueUnder(s, w, p, service); PhaseFits(PhaseOf(t, w), t)
  {
    hide RowsRead;
  }

  lemma RecordingFits(s: State, w: WorkerId, p: Phase, after: Delivery, now: int, fault: Fault)
    requires (p.Handed? || p.Refusing?) && p.k < |s.deliveries|
    requires PhaseFits(p, RecordDelivery(s, w, p, after, now, fault))
    ensures var t := RecordDelivery(s, w, p, after, now, fault); PhaseFits(PhaseOf(t, w), t)
  {
    hide AllOrNone, BlockedHaveCodes, MayWriteDelivery;
  }

  lemma ActorFitsAfter(s: State, e: Event)
    requires Invariant(s) && Enabled(s, e) && !BeforeEnqueueing(e.action)
    ensures PhaseFits(PhaseOf(Next(s, e), e.worker), Next(s, e))
  {
    hide AllOrNone, BlockedHaveCodes, Verdict, RetryLater, StillTrue, Grew, DurableCode, OutboxMatches, WriteRun,
      RecordDelivery, EnqueueUnder, RunRowOk;
    var w, p, t := e.worker, PhaseOf(s, e.worker), Next(s, e);
    assert p.Idle? || PhaseFits(p, s);
    StepKeeps(s, e);
    PhaseSurvives(p, s, t);
    RowsReadNow(t);
    match e.action
    case Enqueue(service) => HandingFits(s, w, p, service);
    case RecordEnqueued(now, fault) =>
      RecordingFits(s, w, p, EnqueuedAs(s.deliveries[p.k], p.notificationId), now, fault);
    case RecordBlocked(now, fault) => RecordingFits(s, w, p, BlockedAs(s.deliveries[p.k], p.code), now, fault);
    case _ =>
  }

  lemma RowsReadNow(s: State)
    requires DurableOk(s)
    ensures RowsRead(s.deliveries, s)
  {
  }

  lemma PassesWithRows(rows: seq<Delivery>, s: State)
    requires RowsRead(rows, s) && (rows != [] || AnyMissing(rows))
    ensures s.deliveries != []
  {
  }

  lemma NextKeeps(s: State, e: Event)
    requires Invariant(s)
    ensures Invariant(Next(s, e))
  {
    hide PhaseFits, DurableOk, Grew;
    if Enabled(s, e) {
      StepKeeps(s, e);
      if BeforeEnqueueing(e.action) {
        ActorFitsBefore(s, e);
      } else {
        ActorFitsAfter(s, e);
      }
      var t := Next(s, e);
      forall w | w in t.phases && w != e.worker ensures PhaseFits(t.phases[w], t) {
        OthersKeepPhase(s, e, w);
        PhaseSurvives(s.phases[w], s, t);
      }
    }
  }

  lemma OthersKeepPhase(s: State, e: Event, w: WorkerId)
    requires w != e.worker
    ensures w in Next(s, e).phases <==> w in s.phases
    ensures PhaseOf(Next(s, e), w) == PhaseOf(s, w)
  {
    hide Next;
    OnlyActorMoves(s, e);
  }

  lemma OnlyActorMoves(s: State, e: Event)
    ensures Next(s, e).phases == s.phases
      || (e.worker in Next(s, e).phases && Next(s, e).phases == s.phases[e.worker := Next(s, e).phases[e.worker]])
  {
    hide EnqueueUnder, RecordDelivery, WriteRun, Verdict, RetryLater, Compose, WithSnapshots, DurableCode,
      Acknowledged, MayWriteDelivery, SnapshotsFit, Due,
      AnyMissing, AnyBody;
  }

  /** Every reachable state, under every interleaving of workers, satisfies the invariant. */
  lemma {:induction false} RunIsSafe(locales: seq<string>, events: seq<Event>)
    ensures Invariant(Run(locales, events))
  {
    if events == [] {
      assert Untouched(Created(locales).deliveries);
    } else {
      RunIsSafe(locales, events[..|events| - 1]);
      NextKeeps(Run(locales, events[..|events| - 1]), events[|events| - 1]);
    }
  }

  // ---- What that means for the recipients ----

  /** Nothing that was decided is ever taken back, over any continuation of any run. */
  lemma {:induction false} DecisionsAreFinal(locales: seq<string>, events: seq<Event>, more: seq<Event>)
    ensures Grew(Run(locales, events), Run(locales, events + more))
    decreases |more|
  {
    hide Next, DurableOk, PhaseFits;
    RunIsSafe(locales, events);
    if more == [] {
      assert events + more == events;
    } else {
      var k := |more| - 1;
      DecisionsAreFinal(locales, events, more[..k]);
      RunIsSafe(locales, events + more[..k]);
      assert (events + more)[..|events + more| - 1] == events + more[..k];
      StepGrows(Run(locales, events + more[..k]), more[k]);
    }
  }

  lemma StepGrows(s: State, e: Event)
    requires Invariant(s)
    ensures Grew(s, Next(s, e))
  {
    hide DurableOk, PhaseFits;
    if Enabled(s, e) {
      StepKeeps(s, e);
    }
  }

  /**
   * In every run either no delivery has a body, or all have one rendered from a single
   * summary for their own locale.
   */
  lemma BodiesAllOrNone(locales: seq<string>, events: seq<Event>)
    ensures var rows := Run(locales, events).deliveries;
      && |rows| == |locales| && (forall i | 0 <= i < |rows| :: rows[i].locale == locales[i])
      && ((forall i | 0 <= i < |rows| :: rows[i].body.None?)
          || exists summary :: AllFrom(rows, summary))
  {
    RunIsSafe(locales, events);
    DecisionsAreFinal(locales, [], events);
    assert [] + events == events;
  }

  /**
   * Nothing is handed to the notification service, and no delivery leaves pending, before
   * the whole set of bodies is there.
   */
  lemma NothingBeforeTheBarrier(locales: seq<string>, events: seq<Event>)
    ensures var s := Run(locales, events);
      s.outbox != map[] || (exists i | 0 <= i < |s.deliveries| :: s.deliveries[i].status != DeliveryPending) ==>
        forall i | 0 <= i < |s.deliveries| :: s.deliveries[i].body.Some?
  {
    RunIsSafe(locales, events);
    var s := Run(locales, events);
    if Untouched(s.deliveries) {
      assert forall i | i in s.outbox :: false;
      assert s.outbox == map[];
    }
  }

  /**
   * Every notification carries the persisted body of its delivery; once it exists,
   * no continuation of the run replaces it, and a delivery recorded as enqueued
   * names it.
   */
  lemma OneNotificationPerDelivery(locales: seq<string>, events: seq<Event>, more: seq<Event>, k: nat)
    requires k in Run(locales, events).outbox
    ensures var s, t := Run(locales, events), Run(locales, events + more);
      && k < |s.deliveries| == |t.deliveries|
      && s.deliveries[k].body == t.deliveries[k].body == Some(s.outbox[k].body)
      && k in t.outbox && t.outbox[k] == s.outbox[k]
      && (t.deliveries[k].status == DeliveryEnqueued ==> t.deliveries[k].notificationId == Some(s.outbox[k].id))
  {
    RunIsSafe(locales, events);
    RunIsSafe(locales, events + more);
    DecisionsAreFinal(locales, events, more);
  }

  /** A completed run has handed over every delivery, and there is at least one. */
  lemma CompletedMeansDelivered(locales: seq<string>, events: seq<Event>)
    requires Run(locales, events).run.status == Completed
    ensures var s := Run(locales, events);
      && |s.deliveries| == |locales| > 0
      && forall k: nat | k < |locales| ::
           && s.deliveries[k].status == DeliveryEnqueued && k in s.outbox
           && s.deliveries[k].notificationId == Some(s.outbox[k].id) && s.deliveries[k].body == Some(s.outbox[k].body)
  {
    RunIsSafe(locales, events);
    BodiesAllOrNone(locales, events);
  }

  /**
   * A run that is blocked for a delivery's sake has nothing left to hand over, and
   * says what the first of its refused deliveries was refused for.
   */
  lemma BlockedMeansRefused(locales: seq<string>, events: seq<Event>)
    requires Run(locales, events).run.status == Blocked
    requires Run(locales, events).run.lastErrorCode in
      {"REPORT_NOTIFICATION_MAPPING_MISSING", "REPORT_NOTIFICATION_VALIDATION",
       "REPORT_NOTIFICATION_IDEMPOTENCY_CONFLICT"}
    ensures var s := Run(locales, events);
      && (forall i | 0 <= i < |s.deliveries| :: s.deliveries[i].status != DeliveryPending)
      && exists i | 0 <= i < |s.deliveries| ::
           && s.deliveries[i].status == DeliveryBlocked && s.deliveries[i].lastErrorCode == s.run.lastErrorCode
           && forall j | 0 <= j < i :: s.deliveries[j].status == DeliveryEnqueued
  {
    RunIsSafe(locales, events);
  }

  /** Only a run without recipients is blocked for having none. */
  lemma BlockedWithoutRecipients(locales: seq<string>, events: seq<Event>)
    requires Run(locales, events).run.status == Blocked
    requires Run(locales, events).run.lastErrorCode == "REPORT_NO_RECIPIENTS"
    ensures locales == []
  {
    RunIsSafe(locales, events);
    BodiesAllOrNone(locales, events);
  }

  /** The first verdict is final: the run row never changes again, whoever tries. */
  lemma FirstVerdictStands(locales: seq<string>, events: seq<Event>, more: seq<Event>)
    requires !IsOpen(Run(locales, events).run.status)
    ensures Run(locales, events + more).run == Run(locales, events).run
  {
    DecisionsAreFinal(locales, events, more);
  }

  /** Claiming the run takes it away from every worker that held it before, for good. */
  lemma ClaimFencesOthers(
    locales: seq<string>, events: seq<Event>, e: Event, more: seq<Event>, w: WorkerId)
    requires e.action.TakeRun? && Enabled(Run(locales, events), e)
    requires w != e.worker && !PhaseOf(Run(locales, events), w).Idle?
    ensures !Holds(Run(locales, events + [e] + more).run, PhaseOf(Run(locales, events), w).claim)
  {
    RunIsSafe(locales, events);
    DecisionsAreFinal(locales, events + [e], more);
    assert (events + [e])[..|events|] == events;
    assert PhaseFits(PhaseOf(Run(locales, events), w), Run(locales, events));
  }

  /**
   * An action under a claim that no longer holds changes neither the run nor any
   * delivery. It adds a notification exactly when it hands over a delivery that has
   * none yet: the insert is not fenced by the lease.
   */
  lemma StaleOwnerChangesOnly(s: State, e: Event)
    requires !e.action.TakeRun? && !PhaseOf(s, e.worker).Idle? && !Holds(s.run, PhaseOf(s, e.worker).claim)
    ensures Next(s, e).run == s.run && Next(s, e).deliveries == s.deliveries
    ensures Next(s, e).outbox != s.outbox <==>
      Enabled(s, e) && e.action.Enqueue? && e.action.service.Resolves? && PhaseOf(s, e.worker).k !in s.outbox
  {
    hide Verdict, RetryLater, Compose, DurableCode, WithSnapshots, Due;
  }

  // ---- What each write leaves ----

  /** A worker takes an open run that is due and whose lease has run out, under the next generation. */
  lemma RunsAreTaken(s: State, w: WorkerId, owner: string, now: int, until: int)
    ensures Enabled(s, Event(w, TakeRun(owner, now, until))) <==>
      && PhaseOf(s, w) == Idle && (s.run.status == Pending || s.run.status == Retry)
      && (s.run.nextAttemptAt == None || s.run.nextAttemptAt.value <= now)
      && (s.run.leaseUntil == None || s.run.leaseUntil.value <= now)
    ensures Enabled(s, Event(w, TakeRun(owner, now, until))) ==>
      Next(s, Event(w, TakeRun(owner, now, until))) == State(
        RunRow(s.run.status, Some(owner), Some(until), s.run.generation + 1, s.run.attempts + 1, s.run.nextAttemptAt,
               s.run.lastErrorCode),
        s.deliveries, s.outbox, s.phases[w := Claimed(Claim(owner, s.run.generation + 1, s.run.attempts + 1))])
  {
  }

  /** What a worker does about the rows it listed depends on which of them lack a body and which have one. */
  lemma BarrierDecides(s: State, w: WorkerId, summary: nat, fault: Fault)
    requires PhaseOf(s, w).Listed?
    ensures var rows := PhaseOf(s, w).rows;
      var missing := exists i | 0 <= i < |rows| :: rows[i].status == DeliveryPending && rows[i].body == None;
      var present := exists i | 0 <= i < |rows| :: rows[i].body.Some?;
      && (Enabled(s, Event(w, BlockEmpty(fault))) <==> rows == [])
      && (Enabled(s, Event(w, PassBarrier)) <==> rows != [] && !missing)
      && (Enabled(s, Event(w, BlockInconsistent(fault))) <==> missing && present)
      && (Enabled(s, Event(w, ComposeBodies(Composed(summary)))) <==> missing && !present)
  {
  }

  /** Every delivery is visited before the verdict. */
  lemma VerdictComesLast(s: State, w: WorkerId)
    requires PhaseOf(s, w).Enqueueing?
    ensures Enabled(s, Event(w, ListForVerdict)) <==> PhaseOf(s, w).k == |PhaseOf(s, w).rows|
    ensures PhaseOf(s, w).k < |PhaseOf(s, w).rows| ==>
      (Enabled(s, Event(w, Skip)) <==> !Enabled(s, Event(w, Enqueue(Fails))))
  {
  }

  predicate WritesRun(a: Action) {
    a.BlockUnresolved? || a.BlockEmpty? || a.BlockInconsistent? || a.BlockComposition? || a.Conclude? || a.BlockAgain?
    || a.GiveUp?
  }

  /** The lease is given up, and the row says only this. */
  predicate Released(before: RunRow, after: RunRow, status: RunStatus, next: Option<int>, code: string) {
    after == RunRow(status, None, None, before.generation, before.attempts, next, code)
  }

  /** A finish reaches the row under its own owner and generation, and records what the pass came to. */
  lemma RunsAreFinished(s: State, e: Event)
    requires Enabled(s, e) && WritesRun(e.action)
    ensures var before, after, c := s.run, Next(s, e).run, PhaseOf(s, e.worker).claim;
      if (before.status == Pending || before.status == Retry) && before.leaseOwner == Some(c.owner)
        && before.generation == c.generation && e.action.fault != NotApplied
      then match e.action
           case BlockUnresolved(_) =>
             Released(before, after, Blocked, before.nextAttemptAt, "REPORT_COMPOSITION_FAILED")
           case BlockEmpty(_) => Released(before, after, Blocked, before.nextAttemptAt, "REPORT_NO_RECIPIENTS")
           case BlockInconsistent(_) =>
             Released(before, after, Blocked, before.nextAttemptAt, "REPORT_SNAPSHOT_INCONSISTENT")
           case BlockComposition(_) =>
             Released(before, after, Blocked, before.nextAttemptAt, PhaseOf(s, e.worker).code)
           case GiveUp(now, _) => Released(before, after, Retry,
             Some(now + Backoff.Delay(10 * Backoff.SECOND, Backoff.HOUR, c.attempts)), "REPORT_INTERNAL_RETRY")
           case BlockAgain(_) =>
             && Released(before, after, Blocked, before.nextAttemptAt, after.lastErrorCode)
             && (after.lastErrorCode == "REPORT_SNAPSHOT_INCONSISTENT" || exists i | 0 <= i < |s.deliveries| ::
                   s.deliveries[i].status == DeliveryBlocked && s.deliveries[i].lastErrorCode == after.lastErrorCode)
           case Conclude(now, _) => RunIsConcluded(before, after, PhaseOf(s, e.worker), now)
           case _ => true
      else after == before
  {
    BlockedCodeFound(s.deliveries);
    if e.action.Conclude? {
      var p := PhaseOf(s, e.worker);
      VerdictIs(p.rows, p.pendingRemain, p.claim.attempts, e.action.now);
      CompletesOtherwise(p.rows, p.pendingRemain, p.claim.attempts, e.action.now);
    }
  }

  /** Retried while something pends, else blocked with the first code there is, else completed. */
  predicate RunIsConcluded(before: RunRow, after: RunRow, p: Phase, now: int)
    requires p.Deciding?
  {
    if p.pendingRemain || exists i | 0 <= i < |p.rows| :: p.rows[i].status == DeliveryPending then
      Released(before, after, Retry,
               Some(now + Backoff.Delay(10 * Backoff.SECOND, Backoff.HOUR, p.claim.attempts)), "REPORT_INTERNAL_RETRY")
    else if exists i | 0 <= i < |p.rows| :: p.rows[i].status == DeliveryBlocked && p.rows[i].lastErrorCode != "" then
      exists i | 0 <= i < |p.rows| ::
        && p.rows[i].status == DeliveryBlocked
        && p.rows[i].lastErrorCode != ""
        && Released(before, after, Blocked, before.nextAttemptAt, p.rows[i].lastErrorCode)
        && forall j | 0 <= j < i && p.rows[j].status == DeliveryBlocked :: p.rows[j].lastErrorCode == ""
    else Released(before, after, Completed, before.nextAttemptAt, "")
  }

  lemma CompletesOtherwise(rows: seq<Delivery>, pendingRemain: bool, attempts: nat, now: int)
    ensures var f := Verdict(rows, pendingRemain, attempts, now);
      !f.FinishRetry? && !f.FinishBlocked? ==> f == FinishCompleted
  {
  }

  /**
   * A delivery is settled by the unexpired holder of the open run, and only while it
   * pends; otherwise nothing changes. A worker that saw its write refused remembers
   * that something pends.
   */
  lemma DeliveriesAreSettled(s: State, e: Event)
    requires Enabled(s, e) && (e.action.RecordEnqueued? || e.action.RecordBlocked?)
    ensures var p, t := PhaseOf(s, e.worker), Next(s, e);
      var row := s.deliveries[p.k];
      var fits := (s.run.status == Pending || s.run.status == Retry) && s.run.leaseOwner == Some(p.claim.owner)
        && s.run.generation == p.claim.generation && s.run.leaseUntil.Some? && s.run.leaseUntil.value > e.action.now
        && row.status == DeliveryPending;
      && t.run == s.run && t.outbox == s.outbox
      && t.deliveries == (
           if !fits || e.action.fault == NotApplied then s.deliveries
           else if e.action.RecordEnqueued? then
             s.deliveries[p.k := Delivery(row.locale, DeliveryEnqueued, row.body, Some(p.notificationId), "")]
           else s.deliveries[p.k := Delivery(row.locale, DeliveryBlocked, row.body, row.notificationId, p.code)])
      && PhaseOf(t, e.worker) == (
           if e.action.fault != NoFault then Idle
           else Enqueueing(p.claim, p.rows, p.k + 1, p.pendingRemain || !fits))
  {
  }

  /**
   * A delivery is handed over only as a pending row with its body, and skipped
   * otherwise; a skipped pending row, an outage and a lost reply leave it pending.
   */
  lemma DeliveriesAreHandedOver(s: State, e: Event)
    requires PhaseOf(s, e.worker).Enqueueing? && PhaseOf(s, e.worker).k < |PhaseOf(s, e.worker).rows|
    requires e.action.Enqueue? || e.action.Skip?
    requires Enabled(s, e)
    ensures var p, t := PhaseOf(s, e.worker), Next(s, e);
      var row := p.rows[p.k];
      && t.run == s.run && t.deliveries == s.deliveries
      && (e.action.Enqueue? <==> row.status == DeliveryPending && row.body.Some?)
      && (e.action.Skip? ==>
            && t.outbox == s.outbox
            && PhaseOf(t, e.worker) ==
               Enqueueing(p.claim, p.rows, p.k + 1, p.pendingRemain || row.status == DeliveryPending))
      && (e.action.Enqueue? && !e.action.service.Resolves? ==> t.outbox == s.outbox)
      && (e.action.Enqueue? && e.action.service.Fails? ==>
            PhaseOf(t, e.worker) == Enqueueing(p.claim, p.rows, p.k + 1, true))
      && (e.action.Enqueue? && e.action.service.Rejects? ==>
            PhaseOf(t, e.worker) == Refusing(p.claim, p.rows, p.k, p.pendingRemain, e.action.service.code))
      && (e.action.Enqueue? && e.action.service.Resolves? ==>
            var service := e.action.service;
            && t.outbox == (if p.k in s.outbox then s.outbox
                            else s.outbox[p.k := Notification(service.freshId, row.body.value, service.template)])
            && PhaseOf(t, e.worker) == (
                 if service.replyLost then Enqueueing(p.claim, p.rows, p.k + 1, true)
                 else if t.outbox[p.k].body == row.body.value && t.outbox[p.k].template == service.template
                 then Handed(p.claim, p.rows, p.k, p.pendingRemain, t.outbox[p.k].id)
                 else Refusing(p.claim, p.rows, p.k, p.pendingRemain, "REPORT_NOTIFICATION_IDEMPOTENCY_CONFLICT")))
  {
  }

  /** The bodies of a pass are stored together, by the unexpired holder of the open run, where none was. */
  lemma BodiesAreStored(s: State, e: Event)
    requires Enabled(s, e) && e.action.Persist?
    ensures var p, t := PhaseOf(s, e.worker), Next(s, e);
      var fits := (s.run.status == Pending || s.run.status == Retry) && s.run.leaseOwner == Some(p.claim.owner)
        && s.run.generation == p.claim.generation && s.run.leaseUntil.Some? && s.run.leaseUntil.value > e.action.now
        && forall i | i in p.snapshots :: i < |s.deliveries| && s.deliveries[i].body == None;
      && t.run == s.run && t.outbox == s.outbox && |t.deliveries| == |s.deliveries|
      && (forall i: nat | i < |s.deliveries| ::
            var row := s.deliveries[i];
            t.deliveries[i] == (
              if fits && e.action.fault != NotApplied && i in p.snapshots
              then Delivery(row.locale, row.status, Some(p.snapshots[i]), row.notificationId, row.lastErrorCode)
              else row))
      && PhaseOf(t, e.worker) ==
           if fits && e.action.fault == NoFault then BarrierPassed(p.claim) else NoVerdict(p.claim)
  {
  }

  const FIRST_TAKES := Event(0, TakeRun("first", 0, 10))
  const FIRST_LISTS := Event(0, List)
  const FIRST_COMPOSES := Event(0, ComposeBodies(Composed(7)))
  const FIRST_PERSISTS := Event(0, Persist(5, NoFault))
  const FIRST_LISTS_AGAIN := Event(0, ListAgain(true))
  const SECOND_TAKES := Event(1, TakeRun("second", 20, 30))
  const FIRST_HANDS_OVER := Event(0, Enqueue(Resolves(1, 2, false)))

  lemma OneMore(locales: seq<string>, events: seq<Event>, e: Event)
    ensures Run(locales, events + [e]) == Next(Run(locales, events), e)
  {
    assert (events + [e])[..|events|] == events;
  }

  /** The first worker has the rows and holds the run until 10. */
  lemma FirstReads(locale: string)
    ensures var s := Run([locale], [FIRST_TAKES, FIRST_LISTS]);
      && s.run == RunRow(Pending, Some("first"), Some(10), 1, 1, None, "") && s.outbox == map[]
      && s.deliveries == [Delivery(locale, DeliveryPending, None, None, "")]
      && PhaseOf(s, 0) == Listed(Claim("first", 1, 1), s.deliveries) && PhaseOf(s, 1).Idle?
  {
    assert Run([locale], []).deliveries == [Delivery(locale, DeliveryPending, None, None, "")];
    hide Run;
    OneMore([locale], [], FIRST_TAKES);
    OneMore([locale], [FIRST_TAKES], FIRST_LISTS);
    assert [] + [FIRST_TAKES] == [FIRST_TAKES] && [FIRST_TAKES] + [FIRST_LISTS] == [FIRST_TAKES, FIRST_LISTS];
  }

  /** It renders and stores the body. */
  lemma FirstPersists(locale: string)
    ensures var s := Run([locale], [FIRST_TAKES, FIRST_LISTS, FIRST_COMPOSES, FIRST_PERSISTS]);
      && s.run == RunRow(Pending, Some("first"), Some(10), 1, 1, None, "") && s.outbox == map[]
      && s.deliveries == [Delivery(locale, DeliveryPending, Some(Body(7, locale)), None, "")]
      && PhaseOf(s, 0) == BarrierPassed(Claim("first", 1, 1)) && PhaseOf(s, 1).Idle?
  {
    hide Run;
    FirstReads(locale);
    var read := [FIRST_TAKES, FIRST_LISTS];
    var s := Run([locale], read);
    assert Missing(s.deliveries[0]) && AnyMissing(s.deliveries) && !AnyBody(s.deliveries);
    OneMore([locale], read, FIRST_COMPOSES);
    OneMore([locale], read + [FIRST_COMPOSES], FIRST_PERSISTS);
    assert read + [FIRST_COMPOSES] + [FIRST_PERSISTS] == [FIRST_TAKES, FIRST_LISTS, FIRST_COMPOSES, FIRST_PERSISTS];
  }

  /**
   * A worker passes the barrier, loses the run to another one, and still adds the
   * notification of the only delivery.
   */
  lemma LateHandOver(locale: string)
    ensures var s := Run([locale],
      [FIRST_TAKES, FIRST_LISTS, FIRST_COMPOSES, FIRST_PERSISTS, FIRST_LISTS_AGAIN, SECOND_TAKES]);
      && PhaseOf(s, 0).Enqueueing? && !Holds(s.run, PhaseOf(s, 0).claim) && s.outbox == map[]
      && Next(s, FIRST_HANDS_OVER).outbox == map[0 := Notification(2, Body(7, locale), 1)]
  {
    hide Run;
    FirstPersists(locale);
    var persisted := [FIRST_TAKES, FIRST_LISTS, FIRST_COMPOSES, FIRST_PERSISTS];
    OneMore([locale], persisted, FIRST_LISTS_AGAIN);
    OneMore([locale], persisted + [FIRST_LISTS_AGAIN], SECOND_TAKES);
    assert persisted + [FIRST_LISTS_AGAIN] + [SECOND_TAKES]
        == [FIRST_TAKES, FIRST_LISTS, FIRST_COMPOSES, FIRST_PERSISTS, FIRST_LISTS_AGAIN, SECOND_TAKES];
  }

  /**
   * A run created without bodies never reaches the branch for partial sets, and
   * its code is never recorded, although a blocked run always carries a code.
   */
  lemma NeverPartial(locales: seq<string>, events: seq<Event>, e: Event)
    requires e.action.BlockInconsistent?
    ensures !Enabled(Run(locales, events), e)
    ensures Run(locales, events).run.lastErrorCode != SNAPSHOT_INCONSISTENT
    ensures Run(locales, events).run.status == Blocked ==> Run(locales, events).run.lastErrorCode != ""
  {
    RunIsSafe(locales, events);
    var s := Run(locales, events);
    var p := PhaseOf(s, e.worker);
    if p.Listed? {
      assert PhaseFits(p, s);
      NeverInconsistent(p.rows);
    }
  }

  /** The run is blocked once: the second block, from durable rows, always finds it terminal. */
  lemma SecondBlockIsStale(locales: seq<string>, events: seq<Event>, w: WorkerId, fault: Fault)
    requires PhaseOf(Run(locales, events), w).AlreadyBlocked?
    ensures Next(Run(locales, events), Event(w, BlockAgain(fault))).run == Run(locales, events).run
    ensures Run(locales, events).run.status == Blocked
  {
    hide DurableCode;
    RunIsSafe(locales, events);
    assert PhaseFits(PhaseOf(Run(locales, events), w), Run(locales, events));
  }
}
