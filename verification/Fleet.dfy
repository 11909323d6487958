/**
 * The fleet's view of one rollout target (internal/fleetupdate/fleetupdate.go), as
 * device reports, delivery, cancellation and platform checks change its row
 * (db/queries/fleet_updates.sql).
 */
module Fleet {
  import opened Wrappers
  import Backoff

  const MAX_CLOUD_REOFFERS := 5
  const REOFFER_BASE_DELAY := 15 * Backoff.MINUTE
  const REOFFER_MAX_DELAY := 12 * Backoff.HOUR
  const ALREADY_INSTALLED := "UPDATE_ALREADY_INSTALLED"

  datatype Target =
    | NotSelected | Pending | Delivered | Downloading | Verified | WaitingSafeBoundary | Installing | AwaitingHealth
    | Succeeded | AlreadyCompliant | Failed | RolledBack | ManualAction | SkippedNewer | Unsupported | Cancelled

  predicate IsTerminal(t: Target) {
    t.Succeeded? || t.AlreadyCompliant? || t.Failed? || t.RolledBack? || t.ManualAction? || t.SkippedNewer?
      || t.Unsupported? || t.Cancelled?
  }

  /** Irreversible on the device. */
  predicate Activating(t: Target) {
    t.Installing? || t.AwaitingHealth?
  }

  function MapReport(localState: string, errorCode: string): Option<Target> {
    if localState == "AVAILABLE" then Some(Delivered)
    else if localState == "DOWNLOADING" then Some(Downloading)
    else if localState in {"DOWNLOADED", "VERIFYING", "VERIFIED", "STAGED"} then Some(Verified)
    else if localState == "WAITING_SAFE_BOUNDARY" then Some(WaitingSafeBoundary)
    else if localState in {"INSTALLING", "SWITCHED", "ROLLING_BACK"} then Some(Installing)
    else if localState == "AWAITING_STARTUP_HEALTH" then Some(AwaitingHealth)
    else if localState == "SUCCEEDED" then Some(if errorCode == ALREADY_INSTALLED then AlreadyCompliant else Succeeded)
    else if localState == "ROLLED_BACK" then Some(RolledBack)
    else if localState == "MANUAL_ACTION_REQUIRED" then Some(ManualAction)
    else if localState == "FAILED" then
      Some(if errorCode == "UPDATE_DOWNGRADE_REJECTED" then SkippedNewer
           else if errorCode in {"UPDATE_PLATFORM_UNSUPPORTED", "UPDATE_NOT_CONFIGURED"} then Unsupported
           else Failed)
    else None
  }

  datatype Decision = Decision(
    state: Target, attempts: nat, nextAttemptAt: Option<int>, finished: bool, changed: bool, cancelSuperseded: bool)

  /** What the device did although the target was cancelled. */
  predicate OverridesCancel(reported: Target) {
    Activating(reported) || reported.Succeeded? || reported.RolledBack? || reported.ManualAction?
  }

  function Decide(current: Target, attempts: nat, reported: Target, retryable: bool, now: int): Decision {
    var same := Decision(current, attempts, None, false, false, false);
    if current.Cancelled? then
      if OverridesCancel(reported) then Decision(reported, attempts, None, IsTerminal(reported), true, true) else same
    else if IsTerminal(current) || current == reported || current.NotSelected? then same
    else if reported.Failed? && retryable && attempts + 1 < MAX_CLOUD_REOFFERS then
      Decision(Pending, attempts + 1, Some(now + Backoff.Delay(REOFFER_BASE_DELAY, REOFFER_MAX_DELAY, attempts + 1)),
        false, true, false)
    else Decision(reported, if reported.Failed? then attempts + 1 else attempts, None, IsTerminal(reported), true,
      false)
  }

  method ApplyReport(current: Target, attempts: nat, reported: Target, retryable: bool, now: int) returns (d: Decision)
    ensures d == Decide(current, attempts, reported, retryable, now)
  {
    d := Decision(current, attempts, None, false, false, false);
    if current.Cancelled? {
      if Activating(reported) || reported.Succeeded? || reported.RolledBack? || reported.ManualAction? {
        d := d.(state := reported, changed := true, cancelSuperseded := true);
        d := d.(finished := IsTerminal(reported));
      }
      return;
    }
    if IsTerminal(current) || current == reported {
      return;
    }
    if current.NotSelected? {
      return;
    }
    d := d.(changed := true);
    if reported.Failed? && retryable && attempts + 1 < MAX_CLOUD_REOFFERS {
      d := d.(attempts := attempts + 1);
      var delay := Backoff.CappedDoubling(REOFFER_BASE_DELAY, REOFFER_MAX_DELAY, d.attempts);
      d := d.(state := Pending, nextAttemptAt := Some(now + delay));
      return;
    }
    if reported.Failed? {
      d := d.(attempts := attempts + 1);
    }
    d := d.(state := reported, finished := IsTerminal(reported));
  }

  // ---- The row over its whole life ----

  datatype Row = Row(state: Target, attempts: nat, nextAttemptAt: Option<int>)

  /** A re-offer: when it was decided and when it falls due. */
  datatype Reoffer = Reoffer(decidedAt: int, dueAt: int)

  datatype State = State(row: Row, reoffers: seq<Reoffer>)

  datatype Event =
    | Report(localState: string, errorCode: string, retryable: bool, now: int)
    | Promote
    | Deliver
    | RuleOut(verdict: Target)
    | Cancel

  /** Reports with an unknown state are rejected before they reach the row. */
  function Next(s: State, e: Event): State {
    var row := s.row;
    match e
    case Report(localState, errorCode, retryable, now) =>
      var reported := MapReport(localState, errorCode);
      if reported.None? then s else
      var d := Decide(row.state, row.attempts, reported.value, retryable, now);
      if !d.changed then s
      else State(Row(d.state, d.attempts, d.nextAttemptAt),
                 if d.nextAttemptAt.Some? then s.reoffers + [Reoffer(now, d.nextAttemptAt.value)] else s.reoffers)
    case Promote => if row.state.NotSelected? then s.(row := row.(state := Pending)) else s
    case Deliver => if row.state.Pending? then s.(row := row.(state := Delivered)) else s
    case RuleOut(verdict) =>
      if row.state.Pending?
        && (verdict.Unsupported? || verdict.AlreadyCompliant?
              || verdict.SkippedNewer?) then s.(row := row.(state := verdict))
      else s
    case Cancel =>
      if IsTerminal(row.state) || Activating(row.state) then s else s.(row := row.(state := Cancelled))
  }

  function Run(selected: bool, events: seq<Event>): State {
    if events == [] then State(Row(if selected then Pending else NotSelected, 0, None), [])
    else Next(Run(selected, events[..|events| - 1]), events[|events| - 1])
  }

  /** What a device says of itself, state by state. */
  lemma ReportsMean(localState: string, errorCode: string)
    ensures var target := MapReport(localState, errorCode);
      && (target == Some(Delivered) <==> localState == "AVAILABLE")
      && (target == Some(Downloading) <==> localState == "DOWNLOADING")
      && (target == Some(Verified) <==> localState in ["DOWNLOADED", "VERIFYING", "VERIFIED", "STAGED"])
      && (target == Some(WaitingSafeBoundary) <==> localState == "WAITING_SAFE_BOUNDARY")
      && (target == Some(Installing) <==> localState in ["INSTALLING", "SWITCHED", "ROLLING_BACK"])
      && (target == Some(AwaitingHealth) <==> localState == "AWAITING_STARTUP_HEALTH")
      && (target == Some(AlreadyCompliant) <==>
            localState == "SUCCEEDED" && errorCode == "UPDATE_ALREADY_INSTALLED")
      && (target == Some(Succeeded) <==> localState == "SUCCEEDED" && errorCode != "UPDATE_ALREADY_INSTALLED")
      && (target == Some(RolledBack) <==> localState == "ROLLED_BACK")
      && (target == Some(ManualAction) <==> localState == "MANUAL_ACTION_REQUIRED")
      && (target == Some(SkippedNewer) <==> localState == "FAILED" && errorCode == "UPDATE_DOWNGRADE_REJECTED")
      && (target == Some(Unsupported) <==>
            localState == "FAILED" && errorCode in ["UPDATE_PLATFORM_UNSUPPORTED", "UPDATE_NOT_CONFIGURED"])
      && target != Some(Pending) && target != Some(NotSelected) && target != Some(Cancelled)
  {
  }

  const OVER := {Succeeded, AlreadyCompliant, Failed, RolledBack, ManualAction, SkippedNewer, Unsupported, Cancelled}
  const OPEN := {Pending, Delivered, Downloading, Verified, WaitingSafeBoundary, Installing, AwaitingHealth}

  /**
   * An open target takes whatever else its device reports, attempts untouched; a
   * failure uses up an attempt, and offers the update again if it is retryable and
   * this was not the fifth.
   */
  lemma ReportsAreTaken(s: State, e: Event, reported: Target)
    requires e.Report? && MapReport(e.localState, e.errorCode) == Some(reported) && s.row.state in OPEN
    ensures Next(s, e) ==
      if reported == s.row.state then s
      else if reported != Failed then State(Row(reported, s.row.attempts, None), s.reoffers)
      else if !e.retryable || s.row.attempts >= 4 then State(Row(Failed, s.row.attempts + 1, None), s.reoffers)
      else
        var due := e.now + Backoff.Delay(15 * Backoff.MINUTE, 12 * Backoff.HOUR, s.row.attempts + 1);
        State(Row(Pending, s.row.attempts + 1, Some(due)), s.reoffers + [Reoffer(e.now, due)])
  {
    hide MapReport, Backoff.Delay;
  }

  /** A decision says truly whether the row changes, whether the rollout is over, and whether it overrules a cancel. */
  lemma DecisionsAreTold(current: Target, attempts: nat, reported: Target, retryable: bool, now: int)
    ensures var d := Decide(current, attempts, reported, retryable, now);
      && (d.changed <==> d.state != current || d.attempts != attempts)
      && (d.finished <==> d.changed && d.state in OVER)
      && (d.cancelSuperseded <==> d.changed && current == Cancelled)
      && (current == Cancelled ==>
            (d.changed <==> reported in {Installing, AwaitingHealth, Succeeded, RolledBack, ManualAction}))
      && (current != Cancelled && current !in OPEN ==> !d.changed)
  {
    hide Backoff.Delay;
  }

  /** What is not a report moves a target only out of the states it is meant for. */
  lemma OthersMove(s: State, e: Event)
    requires !e.Report?
    ensures Next(s, e) == s.(row := s.row.(state :=
      match e
      case Promote => if s.row.state == NotSelected then Pending else s.row.state
      case Deliver => if s.row.state == Pending then Delivered else s.row.state
      case RuleOut(verdict) =>
        if s.row.state == Pending && verdict in {Unsupported, AlreadyCompliant, SkippedNewer} then verdict
        else s.row.state
      case Cancel =>
        if s.row.state in OPEN + {NotSelected} - {Installing, AwaitingHealth} then Cancelled else s.row.state
      case _ => s.row.state))
  {
  }

  function ReofferDelay(attempt: nat): nat {
    Backoff.Delay(REOFFER_BASE_DELAY, REOFFER_MAX_DELAY, attempt)
  }

  /** The delays of the re-offers there can be, which grow strictly. */
  lemma ReofferDelays()
    ensures ReofferDelay(1) == 15 * Backoff.MINUTE && ReofferDelay(2) == 30 * Backoff.MINUTE
    ensures ReofferDelay(3) == Backoff.HOUR && ReofferDelay(4) == 2 * Backoff.HOUR
  {
    assert Backoff.Power2(0) == 1;
    assert Backoff.Power2(1) == 2;
    assert Backoff.Power2(2) == 4;
    assert Backoff.Power2(3) == 8;
  }

  ghost predicate Invariant(s: State) {
    && s.row.attempts <= MAX_CLOUD_REOFFERS
    && (!s.row.state.Failed? ==> s.row.attempts < MAX_CLOUD_REOFFERS)
    && |s.reoffers| <= s.row.attempts && |s.reoffers| < MAX_CLOUD_REOFFERS
    && (!s.row.state.Failed? ==> |s.reoffers| == s.row.attempts)
    && forall i | 0 <= i < |s.reoffers| :: s.reoffers[i].dueAt == s.reoffers[i].decidedAt + ReofferDelay(i + 1)
  }

  /** Over every sequence of events: at most five failed attempts, at most four re-offers, each after its own delay. */
  lemma {:induction false} AttemptsAreBounded(selected: bool, events: seq<Event>)
    ensures Invariant(Run(selected, events))
  {
    hide Backoff.Delay, MapReport;
    if events != [] {
      AttemptsAreBounded(selected, events[..|events| - 1]);
    }
  }

  /** Reports reach the row with a clock that does not go back. */
  predicate ClockForward(events: seq<Event>) {
    forall i, j | 0 <= i < j < |events| && events[i].Report? && events[j].Report? :: events[i].now <= events[j].now
  }

  predicate DecidedBy(s: State, now: int) {
    forall i | 0 <= i < |s.reoffers| :: s.reoffers[i].decidedAt <= now
  }

  predicate InOrder(s: State) {
    forall i, j | 0 <= i < j < |s.reoffers| :: s.reoffers[i].decidedAt <= s.reoffers[j].decidedAt
  }

  lemma {:induction false} ReoffersInOrder(selected: bool, events: seq<Event>, now: int)
    requires ClockForward(events) && forall i | 0 <= i < |events| && events[i].Report? :: events[i].now <= now
    ensures InOrder(Run(selected, events)) && DecidedBy(Run(selected, events), now)
  {
    if events != [] {
      var before, last := events[..|events| - 1], events[|events| - 1];
      hide MapReport, Decide, IsTerminal, Activating;
      ReoffersInOrder(selected, before, now);
      if last.Report? {
        ReoffersInOrder(selected, before, last.now);
      }
    }
  }

  /** Every re-offer falls due later than it was decided, and later than every re-offer before it. */
  lemma ReoffersFallDueLater(selected: bool, events: seq<Event>, now: int, i: nat, j: nat)
    requires ClockForward(events) && forall k | 0 <= k < |events| && events[k].Report? :: events[k].now <= now
    requires i < j < |Run(selected, events).reoffers|
    ensures var r := Run(selected, events).reoffers; r[i].decidedAt < r[i].dueAt < r[j].dueAt
  {
    hide Backoff.Delay, Run, ClockForward;
    AttemptsAreBounded(selected, events);
    ReoffersInOrder(selected, events, now);
    DelaysGrow(i + 1, j + 1);
  }

  lemma DelaysGrow(a: nat, b: nat)
    requires 1 <= a < b <= 4
    ensures 0 < ReofferDelay(a) < ReofferDelay(b)
  {
    ReofferDelays();
    hide ReofferDelay;
  }

  /** A final state other than CANCELLED absorbs everything. */
  lemma {:induction false} TerminalForever(selected: bool, events: seq<Event>, more: seq<Event>)
    requires IsTerminal(Run(selected, events).row.state) && !Run(selected, events).row.state.Cancelled?
    ensures Run(selected, events + more) == Run(selected, events)
    decreases |more|
  {
    hide MapReport;
    if more == [] {
      assert events + more == events;
    } else {
      TerminalForever(selected, events, more[..|more| - 1]);
      assert (events + more)[..|events + more| - 1] == events + more[..|more| - 1];
    }
  }

  /**
   * A cancelled target moves exactly for a report of activation or of its outcome, to
   * what was reported, attempts untouched.
   */
  lemma CancelledIsLeftOnlyForTruth(s: State, e: Event)
    requires s.row.state.Cancelled?
    ensures Next(s, e) != s <==>
      e.Report? && MapReport(e.localState, e.errorCode).Some?
        && OverridesCancel(MapReport(e.localState, e.errorCode).value)
    ensures Next(s, e) != s ==>
      Next(s, e) == State(Row(MapReport(e.localState, e.errorCode).value, s.row.attempts, None), s.reoffers)
  {
    hide MapReport;
  }

  /**
   * Only a retryable failure of a target that is still open schedules a re-offer, and
   * only while fewer than four went before.
   */
  lemma ReofferExactlyWhen(selected: bool, events: seq<Event>, e: Event)
    ensures var s := Run(selected, events);
      |Next(s, e).reoffers| > |s.reoffers| <==>
        && e.Report? && MapReport(e.localState, e.errorCode) == Some(Failed) && e.retryable
        && !IsTerminal(s.row.state) && !s.row.state.NotSelected? && |s.reoffers| < 4
  {
    hide MapReport, Backoff.Delay;
    AttemptsAreBounded(selected, events);
  }

  /**
   * In every run, the repetition of a report changes the row again exactly when it
   * says that an open target failed retryably and a re-offer was left: it then uses
   * up another attempt. Every other report is recognised as repeated.
   */
  lemma RepetitionCountsIff(selected: bool, events: seq<Event>, e: Event)
    requires e.Report?
    ensures var s := Run(selected, events);
      Next(Next(s, e), e) != Next(s, e) <==>
        && MapReport(e.localState, e.errorCode) == Some(Failed) && e.retryable
        && !IsTerminal(s.row.state) && !s.row.state.NotSelected? && s.row.attempts < MAX_CLOUD_REOFFERS - 1
    ensures var s := Run(selected, events);
      Next(Next(s, e), e) != Next(s, e) ==> Next(Next(s, e), e).row.attempts == s.row.attempts + 2
  {
    hide MapReport, Backoff.Delay;
    AttemptsAreBounded(selected, events);
  }

  /** The same failure reported twice counts twice: a repeated report is not recognised as one. */
  lemma RepeatedFailureCountsTwice(now: int)
    ensures var report := Report("FAILED", "UPDATE_DOWNLOAD_FAILED", true, now);
      Run(true, [Deliver, report, report]).row.attempts == 2
  {
    var report := Report("FAILED", "UPDATE_DOWNLOAD_FAILED", true, now);
    assert MapReport(report.localState, report.errorCode) == Some(Failed);
    hide Backoff.Delay, MapReport;
    var events := [Deliver, report, report];
    assert events[..2] == [Deliver, report] && events[..2][..1] == [Deliver] && events[..2][..1][..0] == [];
    assert Run(true, []).row == Row(Pending, 0, None);
    assert Run(true, [Deliver]) == State(Row(Delivered, 0, None), []);
    assert Run(true, [Deliver, report]).row.attempts == 1;
  }
}
