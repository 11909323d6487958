/**
 * The reconnect recovery of an incident together with the command table it writes
 * to: the workers of module Recovery ask the command service of module DeviceControl
 * under the key of the incident, among everything else that happens to the table.
 */
module Reconnect {
  import opened Wrappers
  import DeviceControl
  import Recovery

  /** The idempotency key of an incident's recovery action. */
  function ReconnectIdempotencyKey(incident: string): string {
    "ops-reconnect-sync:" + incident
  }

  /** Incidents never share a key. */
  lemma KeysTellIncidents(incident: string, other: string)
    ensures ReconnectIdempotencyKey(incident) == ReconnectIdempotencyKey(other) <==> incident == other
  {
    var prefix := "ops-reconnect-sync:";
    assert (prefix + incident)[|prefix|..] == incident && (prefix + other)[|prefix|..] == other;
  }

  /** What a worker can be told: a queued command has the incident's key, an adopted one belongs to the device. */
  predicate Honest(cs: DeviceControl.Commands, device: nat, key: string, o: Recovery.Outcome) {
    match o
    case Queued(command) => command in cs && DeviceControl.HasKey(cs[command], device, key)
    case AlreadyActive(command) => command in cs && cs[command].device == device
    case _ => true
  }

  lemma StaysHonest(cs: DeviceControl.Commands, ds: DeviceControl.Commands, device: nat, key: string,
      o: Recovery.Outcome)
    requires DeviceControl.Later(cs, ds) && Honest(cs, device, key, o)
    ensures Honest(ds, device, key, o)
  {
  }

  /**
   * Asks for the incident's command, as the worker does: what it is told is true of the
   * table. It passes on the command it is given, and looks for the active one only when
   * that is in the way.
   */
  method Ask(service: DeviceControl.Service, device: nat, key: string, newId: DeviceControl.CommandId,
             deviceActive: Result<bool, DeviceControl.Error>)
    returns (creation: Recovery.Creation)
    requires service.Valid()
    modifies service
    ensures service.Valid() && old(service.log) <= service.log
      && DeviceControl.Later(old(service.commands), service.commands)
    ensures Honest(service.commands, device, key, Recovery.OutcomeOf(Recovery.Found, creation))
    ensures DeviceControl.ValidKey(key) && deviceActive == Success(true) ==>
      match DeviceControl.SyncAnswer(old(service.commands), old(service.Upcoming(5)), device, key, newId)
      case Success((id, _)) => creation == Recovery.Created(id)
      case Failure(SyncAlreadyActive(_)) =>
        && creation.ActiveConflict? && service.tick > 0
        && creation.active == (if service.moments(service.tick - 1).fault != DeviceControl.NoFault then None
                               else DeviceControl.ActiveOf(service.commands, device))
      case _ => creation == Recovery.CreationFailed
  {
    hide DeviceControl.SyncAnswer, DeviceControl.Later, DeviceControl.Invariant, DeviceControl.ValidKey,
      DeviceControl.Run;
    var r := service.CreateSyncRequest(device, key, newId, deviceActive);
    if r.Success? {
      return Recovery.Created(r.value.0);
    }
    if !r.error.SyncAlreadyActive? {
      return Recovery.CreationFailed;
    }
    ghost var asked := service.commands;
    var active := service.GetActive(device);
    DeviceControl.LaterTransitive(old(service.commands), asked, service.commands);
    return Recovery.ActiveConflict(if active.Success? then active.value else None);
  }

  // ---- Recovery and table together ----

  datatype State = State(recovery: Recovery.State, commands: DeviceControl.Commands)

  datatype Event = Recover(step: Recovery.Event) | Table(op: DeviceControl.Op)

  /** A worker only resolves with what the command service told it. */
  predicate Possible(s: State, device: nat, key: string, e: Event) {
    e.Recover? && e.step.action.Resolve? ==> Honest(s.commands, device, key, e.step.action.outcome)
  }

  function Next(device: nat, key: string, s: State, e: Event): State {
    if !Possible(s, device, key, e) then s else
    match e
    case Recover(step) => s.(recovery := Recovery.Next(s.recovery, step))
    case Table(op) => s.(commands := DeviceControl.Apply(s.commands, op))
  }

  function Run(device: nat, key: string, events: seq<Event>): State {
    if events == [] then State(Recovery.START, map[])
    else Next(device, key, Run(device, key, events[..|events| - 1]), events[|events| - 1])
  }

  function TableOps(events: seq<Event>): seq<DeviceControl.Op> {
    if events == [] then []
    else TableOps(events[..|events| - 1]) + if events[|events| - 1].Table? then [events[|events| - 1].op] else []
  }

  /** The steps of the workers that were possible. */
  function Steps(device: nat, key: string, events: seq<Event>): seq<Recovery.Event> {
    if events == [] then []
    else
      var before, e := events[..|events| - 1], events[|events| - 1];
      Steps(device, key, before)
        + if e.Recover? && Possible(Run(device, key, before), device, key, e) then [e.step] else []
  }

  lemma RecoveryOneMore(steps: seq<Recovery.Event>, e: Recovery.Event)
    ensures Recovery.Run(steps + [e]) == Recovery.Next(Recovery.Run(steps), e)
  {
    assert (steps + [e])[..|steps|] == steps;
  }

  lemma TableOneMore(ops: seq<DeviceControl.Op>, op: DeviceControl.Op)
    ensures DeviceControl.Run(ops + [op]) == DeviceControl.Apply(DeviceControl.Run(ops), op)
  {
    assert (ops + [op])[..|ops|] == ops;
  }

  /** Each half of a joint run is a run of its own module, so all that is proved there holds here. */
  lemma {:induction false} HalvesAreRuns(device: nat, key: string, events: seq<Event>)
    ensures Run(device, key, events) ==
      State(Recovery.Run(Steps(device, key, events)), DeviceControl.Run(TableOps(events)))
  {
    if events == [] {
      assert Recovery.Run([]) == Recovery.START && DeviceControl.Run([]) == map[];
    } else {
      hide Recovery.Run, DeviceControl.Run, Recovery.Next, DeviceControl.Apply, Possible;
      var before, e := events[..|events| - 1], events[|events| - 1];
      HalvesAreRuns(device, key, before);
      match e
      case Recover(step) =>
        assert TableOps(events) == TableOps(before) + [] == TableOps(before);
        if Possible(Run(device, key, before), device, key, e) {
          RecoveryOneMore(Steps(device, key, before), step);
          assert Steps(device, key, events) == Steps(device, key, before) + [step];
        } else {
          assert Steps(device, key, events) == Steps(device, key, before) + [] == Steps(device, key, before);
        }
      case Table(op) =>
        TableOneMore(TableOps(before), op);
        assert TableOps(events) == TableOps(before) + [op];
        assert Steps(device, key, events) == Steps(device, key, before) + [] == Steps(device, key, before);
    }
  }

  /** What a worker was told stays true until it records it, whatever happens to the table meanwhile. */
  lemma AnswerStaysTrue(device: nat, key: string, events: seq<Event>, more: seq<Event>, o: Recovery.Outcome)
    requires Honest(Run(device, key, events).commands, device, key, o)
    ensures Honest(Run(device, key, events + more).commands, device, key, o)
  {
    hide DeviceControl.Run, DeviceControl.Later, Run, TableOps, Honest;
    HalvesAreRuns(device, key, events);
    HalvesAreRuns(device, key, events + more);
    TableOpsAppend(events, more);
    DeviceControl.OutcomesAreFinal(TableOps(events), TableOps(more));
    StaysHonest(Run(device, key, events).commands, Run(device, key, events + more).commands, device, key, o);
  }

  /** A completed action names a command of the device, and the incident's own unless it adopted one. */
  predicate TargetExists(s: State, device: nat, key: string) {
    s.recovery.row.state.Completed? ==>
      var target := s.recovery.row.state.target;
      && target in s.commands && s.commands[target].device == device
      && (s.recovery.row.state.result == Recovery.RECOVERY_QUEUED ==> s.commands[target].key == key)
  }

  lemma ResolveKeepsTarget(s: State, device: nat, key: string, step: Recovery.Event)
    requires TargetExists(s, device, key) && Possible(s, device, key, Recover(step))
    ensures TargetExists(s.(recovery := Recovery.Next(s.recovery, step)), device, key)
  {
  }

  lemma TableKeepsTarget(s: State, device: nat, key: string, op: DeviceControl.Op)
    requires TargetExists(s, device, key) && DeviceControl.Invariant(s.commands)
    ensures TargetExists(s.(commands := DeviceControl.Apply(s.commands, op)), device, key)
  {
    DeviceControl.ApplyKeeps(s.commands, op);
    hide DeviceControl.Apply, DeviceControl.Invariant, DeviceControl.Rank;
  }

  lemma {:induction false} TargetsExist(device: nat, key: string, events: seq<Event>)
    ensures TargetExists(Run(device, key, events), device, key)
  {
    hide Recovery.Next, DeviceControl.Apply, Possible, TargetExists;
    if events == [] {
      NothingCompleted(device, key);
    } else {
      var before, e := events[..|events| - 1], events[|events| - 1];
      TargetsExist(device, key, before);
      HalvesAreRuns(device, key, before);
      DeviceControl.RunIsSafe(TableOps(before));
      var s := Run(device, key, before);
      if Possible(s, device, key, e) {
        match e
        case Recover(step) => ResolveKeepsTarget(s, device, key, step);
        case Table(op) => TableKeepsTarget(s, device, key, op);
      }
    }
  }

  lemma NothingCompleted(device: nat, key: string)
    ensures TargetExists(Run(device, key, []), device, key)
  {
  }

  predicate Names(s: State, c: DeviceControl.CommandId, device: nat, key: string) {
    c in s.commands && DeviceControl.HasKey(s.commands[c], device, key)
  }

  lemma {:induction false} StepsBelow(device: nat, key: string, events: seq<Event>, n: nat)
    requires forall i | 0 <= i < |events| && events[i].Recover? :: events[i].step.worker < n
    ensures Recovery.WorkersBelow(Steps(device, key, events), n)
  {
    hide Possible;
    if events != [] {
      StepsBelow(device, key, events[..|events| - 1], n);
    }
  }

  lemma {:induction false} TableOpsAppend(events: seq<Event>, more: seq<Event>)
    ensures TableOps(events + more) == TableOps(events) + TableOps(more)
    decreases |more|
  {
    if more == [] {
      assert events + more == events;
    } else {
      var k := |more| - 1;
      TableOpsAppend(events, more[..k]);
      assert (events + more)[..|events + more| - 1] == events + more[..k];
    }
  }

  /**
   * One incident, any number of workers, requests and device reports: the table is
   * asked a bounded number of times besides lost results; a completed action names a
   * command that exists, the incident's own if it was queued for it; and over every
   * continuation no second command ever carries the incident's key.
   */
  lemma OneCommandAnIncident(device: nat, incident: string, events: seq<Event>, more: seq<Event>, n: nat,
                             c: DeviceControl.CommandId, d: DeviceControl.CommandId)
    requires n > 0 && forall i | 0 <= i < |events| && events[i].Recover? :: events[i].step.worker < n
    ensures var key := ReconnectIdempotencyKey(incident);
      var s, t := Run(device, key, events), Run(device, key, events + more);
      && s.recovery.calls <= 8 + 2 * n + s.recovery.unrecorded
      && TargetExists(s, device, key)
      && (Names(s, c, device, key) && Names(t, d, device, key) ==> c == d)
  {
    hide Recovery.Run, DeviceControl.Run, Run, Steps, TableOps, TargetExists, Recovery.WorkersBelow,
      ReconnectIdempotencyKey;
    var key := ReconnectIdempotencyKey(incident);
    HalvesAreRuns(device, key, events);
    HalvesAreRuns(device, key, events + more);
    TargetsExist(device, key, events);
    StepsBelow(device, key, events, n);
    Recovery.AttemptsAreBounded(Steps(device, key, events), n);
    TableOpsAppend(events, more);
    var s, t := Run(device, key, events), Run(device, key, events + more);
    if Names(s, c, device, key) && Names(t, d, device, key) {
      DeviceControl.KeysAreNeverReused(TableOps(events), TableOps(more), c, d);
    }
  }
}
