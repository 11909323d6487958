/**
 * Remote sync commands for devices (internal/devicecontrol/service.go) over the
 * command table (db/queries/device_control.sql, migrations 00017 and 00018).
 *
 * Every write is one guarded statement, so what can happen to the table is any
 * sequence of such operations; the service's own steps interleave with those of all
 * other requests, devices and workers.
 */
module DeviceControl {
  import opened Wrappers

  datatype Status = Pending | Leased | Accepted | Running | Completed | Failed

  type CommandId = nat

  datatype Command = Command(device: nat, key: string, status: Status, leaseUntil: Option<int>, generation: nat,
    resultCode: Option<string>)

  type Commands = map<CommandId, Command>

  const SYNC_COMPLETED := "SYNC_COMPLETED"
  const RESULT_CODES :=
    {SYNC_COMPLETED, "SYNC_FAILED_NETWORK", "SYNC_FAILED_AUTH", "SYNC_FAILED_CONFLICT", "SYNC_FAILED_INTERNAL"}
  const MAX_KEY := 128

  predicate IsTerminal(s: Status) {
    s == Completed || s == Failed
  }

  predicate KeyChar(c: char) {
    'A' <= c <= 'Z' || 'a' <= c <= 'z' || '0' <= c <= '9' || c in "_:.~-"
  }

  predicate ValidKey(key: string) {
    0 < |key| <= MAX_KEY && forall i | 0 <= i < |key| :: KeyChar(key[i])
  }

  /** One to 128 letters, digits or one of five signs. */
  lemma KeysAre(key: string)
    ensures ValidKey(key) <==> 1 <= |key| <= 128 && forall c | c in key ::
      'A' <= c <= 'Z' || 'a' <= c <= 'z' || '0' <= c <= '9' || c == '_' || c == ':' || c == '.' || c == '~' || c == '-'
  {
    forall i | 0 <= i < |key| ensures key[i] in key {
    }
    assert ValidKey(key) ==> forall c | c in key :: KeyChar(c);
  }

  /** A terminal status with a code that says the same. */
  predicate ValidReport(status: Status, code: string) {
    IsTerminal(status) && code in RESULT_CODES && (status == Completed <==> code == SYNC_COMPLETED)
  }

  // ---- The table ----

  datatype Op =
    | Create(id: CommandId, device: nat, key: string)
    | Lease(id: CommandId, device: nat, now: int, until: int)
    | Accept(id: CommandId, device: nat)
    | MarkRunning(id: CommandId, device: nat)
    | Finish(id: CommandId, device: nat, status: Status, code: string)

  predicate HasKey(c: Command, device: nat, key: string) {
    c.device == device && c.key == key
  }

  predicate IsActiveFor(c: Command, device: nat) {
    c.device == device && !IsTerminal(c.status)
  }

  /** Whether the guard of the statement matches a row, or the insert violates no constraint. */
  predicate Matches(cs: Commands, op: Op) {
    match op
    case Create(id, device, key) =>
      id !in cs && ValidKey(key) && forall i | i in cs :: !HasKey(cs[i], device, key) && !IsActiveFor(cs[i], device)
    case Lease(id, device, now, _) =>
      id in cs && cs[id].device == device
      && (cs[id].status == Pending
            || (cs[id].status == Leased && cs[id].leaseUntil.Some? && cs[id].leaseUntil.value <= now))
    case Accept(id, device) => id in cs && IsActiveFor(cs[id], device) && cs[id].status != Running
    case MarkRunning(id, device) => id in cs && IsActiveFor(cs[id], device)
    case Finish(id, device, status, code) => id in cs && IsActiveFor(cs[id], device) && ValidReport(status, code)
  }

  function Apply(cs: Commands, op: Op): Commands {
    if !Matches(cs, op) then cs else
    match op
    case Create(id, device, key) => cs[id := Command(device, key, Pending, None, 0, None)]
    case Lease(id, _, _, until) =>
      cs[id := cs[id].(status := Leased, leaseUntil := Some(until), generation := cs[id].generation + 1)]
    case Accept(id, _) => cs[id := cs[id].(status := Accepted)]
    case MarkRunning(id, _) => cs[id := cs[id].(status := Running)]
    case Finish(id, _, status, code) => cs[id := cs[id].(status := status, resultCode := Some(code))]
  }

  /** Which rows a statement meets: each is written for some statuses only, and always for the device's own command. */
  lemma StatementsMatch(cs: Commands, op: Op)
    ensures Matches(cs, op) <==>
      match op
      case Create(id, device, key) =>
        && id !in cs && ValidKey(key)
        && forall i | i in cs && cs[i].device == device :: cs[i].key != key && cs[i].status in {Completed, Failed}
      case Lease(id, device, now, _) =>
        && id in cs && cs[id].device == device
        && (cs[id].status == Pending || (cs[id].status == Leased && cs[id].leaseUntil != None
              && cs[id].leaseUntil.value <= now))
      case Accept(id, device) =>
        id in cs && cs[id].device == device && cs[id].status in {Pending, Leased, Accepted}
      case MarkRunning(id, device) =>
        id in cs && cs[id].device == device && cs[id].status in {Pending, Leased, Accepted, Running}
      case Finish(id, device, status, code) =>
        && id in cs && cs[id].device == device && cs[id].status in {Pending, Leased, Accepted, Running}
        && ((status == Completed && code == "SYNC_COMPLETED")
            || (status == Failed && code in {"SYNC_FAILED_NETWORK", "SYNC_FAILED_AUTH", "SYNC_FAILED_CONFLICT",
                                             "SYNC_FAILED_INTERNAL"}))
  {
    hide ValidKey;
    assert op.Finish? && op.status == Failed && op.code in RESULT_CODES && op.code != SYNC_COMPLETED ==>
      op.code in {"SYNC_FAILED_NETWORK", "SYNC_FAILED_AUTH", "SYNC_FAILED_CONFLICT", "SYNC_FAILED_INTERNAL"};
  }

  /** What a statement that meets its row leaves in it, and in no other. */
  lemma StatementsWrite(cs: Commands, op: Op)
    requires Matches(cs, op)
    ensures Apply(cs, op) == cs[op.id :=
      match op
      case Create(_, device, key) => Command(device, key, Pending, None, 0, None)
      case Lease(id, device, _, until) =>
        Command(device, cs[id].key, Leased, Some(until), cs[id].generation + 1, cs[id].resultCode)
      case Accept(id, device) => cs[id].(status := Accepted)
      case MarkRunning(id, device) => cs[id].(status := Running)
      case Finish(id, device, status, code) =>
        Command(device, cs[id].key, status, cs[id].leaseUntil, cs[id].generation, Some(code))]
  {
    hide ValidKey, ValidReport;
  }

  function Run(ops: seq<Op>): Commands {
    if ops == [] then map[] else Apply(Run(ops[..|ops| - 1]), ops[|ops| - 1])
  }

  ghost predicate Invariant(cs: Commands) {
    && (forall i, j | i in cs && j in cs && i != j :: cs[i].device == cs[j].device ==> cs[i].key != cs[j].key)
    && (forall i, j | i in cs && j in cs && i != j :: cs[i].device == cs[j].device ==>
          IsTerminal(cs[i].status) || IsTerminal(cs[j].status))
    && (forall i | i in cs :: RowOk(cs[i]))
  }

  /** A pending command is not leased, and a command has a code exactly when it has its outcome. */
  predicate RowOk(c: Command) {
    && ValidKey(c.key)
    && (c.status == Pending ==> c.leaseUntil.None?)
    && if IsTerminal(c.status) then c.resultCode.Some?
    && ValidReport(c.status, c.resultCode.value) else c.resultCode.None?
  }

  function Rank(s: Status): nat {
    match s
    case Pending => 0
    case Leased => 1
    case Accepted => 2
    case Running => 3
    case Completed => 4
    case Failed => 4
  }

  /** Commands are never lost, never change owner, never go back, and an outcome is final. */
  ghost predicate Later(cs: Commands, ds: Commands) {
    forall i | i in cs ::
      && i in ds && HasKey(ds[i], cs[i].device, cs[i].key)
      && Rank(cs[i].status) <= Rank(ds[i].status)
      && (IsTerminal(cs[i].status) ==> ds[i] == cs[i])
  }

  lemma SetRow(cs: Commands, id: CommandId, c: Command)
    requires Invariant(cs) && RowOk(c)
    requires forall j | j in cs && j != id ::
      !HasKey(cs[j], c.device, c.key) && (IsTerminal(c.status) || !IsActiveFor(cs[j], c.device))
    requires id in cs ==>
      HasKey(c, cs[id].device, cs[id].key) && Rank(cs[id].status) <= Rank(c.status) && !IsTerminal(cs[id].status)
    ensures Invariant(cs[id := c]) && Later(cs, cs[id := c])
  {
    hide RowOk;
  }

  lemma ApplyKeeps(cs: Commands, op: Op)
    requires Invariant(cs)
    ensures Invariant(Apply(cs, op)) && Later(cs, Apply(cs, op))
  {
    if Matches(cs, op) {
      var id, c := op.id, Apply(cs, op)[op.id];
      assert RowOk(c) by {
        hide ValidKey;
        assert id in cs ==> RowOk(cs[id]);
      }
      hide RowOk;
      SetRow(cs, id, c);
    } else {
      hide RowOk;
    }
  }

  /** In every run: one active command a device, one command a key, and outcomes with their own codes. */
  lemma {:induction false} RunIsSafe(ops: seq<Op>)
    ensures Invariant(Run(ops))
  {
    if ops != [] {
      RunIsSafe(ops[..|ops| - 1]);
      ApplyKeeps(Run(ops[..|ops| - 1]), ops[|ops| - 1]);
    }
  }

  lemma LaterTransitive(a: Commands, b: Commands, c: Commands)
    requires Later(a, b) && Later(b, c)
    ensures Later(a, c)
  {
  }

  lemma LaterKeeps(a: Commands, b: Commands, id: CommandId)
    requires Later(a, b) && id in a
    ensures id in b && b[id].device == a[id].device && Rank(a[id].status) <= Rank(b[id].status)
    ensures IsTerminal(a[id].status) ==> b[id] == a[id]
  {
  }

  /** A valid outcome finds every command of its device that has none. */
  lemma FinishFinds(cs: Commands, id: CommandId, device: nat, status: Status, code: string)
    requires id in cs && cs[id].device == device && ValidReport(status, code)
    ensures var op := Finish(id, device, status, code);
      && (Matches(cs, op) <==> !IsTerminal(cs[id].status))
      && id in Apply(cs, op)
      && (Matches(cs, op) ==> Apply(cs, op)[id] == cs[id].(status := status, resultCode := Some(code)))
      && (!Matches(cs, op) ==> Apply(cs, op) == cs)
  {
  }

  /** Over any continuation of any run the first outcome of a command stays. */
  lemma {:induction false} OutcomesAreFinal(ops: seq<Op>, more: seq<Op>)
    ensures Later(Run(ops), Run(ops + more))
    decreases |more|
  {
    if more == [] {
      assert ops + more == ops;
    } else {
      var k := |more| - 1;
      OutcomesAreFinal(ops, more[..k]);
      assert (ops + more)[..|ops + more| - 1] == ops + more[..k];
      RunIsSafe(ops + more[..k]);
      hide Later, Invariant, Apply;
      ApplyKeeps(Run(ops + more[..k]), more[k]);
      LaterTransitive(Run(ops), Run(ops + more[..k]), Run(ops + more));
    }
  }

  /** A device never has two active commands, and a key never names two commands, however requests race. */
  lemma AtMostOneCommand(ops: seq<Op>, i: CommandId, j: CommandId)
    requires i in Run(ops) && j in Run(ops) && Run(ops)[i].device == Run(ops)[j].device
    requires (!IsTerminal(Run(ops)[i].status) && !IsTerminal(Run(ops)[j].status)) || Run(ops)[i].key == Run(ops)[j].key
    ensures i == j
  {
    RunIsSafe(ops);
  }

  /** A key that once named a command names it ever after. */
  lemma KeysAreNeverReused(ops: seq<Op>, more: seq<Op>, i: CommandId, j: CommandId)
    requires i in Run(ops) && j in Run(ops + more)
    requires HasKey(Run(ops + more)[j], Run(ops)[i].device, Run(ops)[i].key)
    ensures i == j
  {
    OutcomesAreFinal(ops, more);
    RunIsSafe(ops + more);
  }

  // ---- The service ----

  datatype Error = InvalidIdempotencyKey | DeviceNotActive | SyncAlreadyActive(active: Command) | NotFound
    | InvalidTransition
    | CommandConflict | StoreFailure | UniqueViolation

  datatype Fault = NoFault | NotApplied | ReplyLost

  /** What happens around one store call. */
  datatype Moment = Moment(others: seq<Op>, fault: Fault)

  function ApplyAll(cs: Commands, ops: seq<Op>): Commands {
    if ops == [] then cs else Apply(ApplyAll(cs, ops[..|ops| - 1]), ops[|ops| - 1])
  }

  lemma {:induction false} ApplyAllKeeps(cs: Commands, ops: seq<Op>)
    requires Invariant(cs)
    ensures Invariant(ApplyAll(cs, ops)) && Later(cs, ApplyAll(cs, ops))
  {
    hide Apply, Rank;
    if ops != [] {
      var before := ApplyAll(cs, ops[..|ops| - 1]);
      ApplyAllKeeps(cs, ops[..|ops| - 1]);
      ApplyKeeps(before, ops[|ops| - 1]);
      LaterTransitive(cs, before, ApplyAll(cs, ops));
    }
  }

  predicate HasKeyIn(cs: Commands, device: nat, key: string) {
    exists i :: i in cs && HasKey(cs[i], device, key)
  }

  ghost function WithKey(cs: Commands, device: nat, key: string): (r: Option<CommandId>)
    ensures r.Some? ==> r.value in cs && HasKey(cs[r.value], device, key)
    ensures r.Some? <==> HasKeyIn(cs, device, key)
  {
    if HasKeyIn(cs, device, key) then
      var i :| i in cs && HasKey(cs[i], device, key);
      Some(i)
    else None
  }

  ghost function ActiveOf(cs: Commands, device: nat): (r: Option<CommandId>)
    ensures r.Some? ==> r.value in cs && IsActiveFor(cs[r.value], device)
    ensures r.None? ==> forall i | i in cs :: !IsActiveFor(cs[i], device)
  {
    if exists i :: i in cs && IsActiveFor(cs[i], device) then
      var i :| i in cs && IsActiveFor(cs[i], device);
      Some(i)
    else None
  }

  type SyncResult = Result<(CommandId, bool), Error>

  // What a Sync Now request answers, given what happens around each of its store calls: the lookup of
  // the key, the lookup of an active command, the insert, and both lookups again.

  ghost function SyncAnswer(cs: Commands, ms: seq<Moment>, device: nat, key: string, newId: CommandId): SyncResult
    requires |ms| == 5
  {
    var now := ApplyAll(cs, ms[0].others);
    if ms[0].fault != NoFault then Failure(StoreFailure)
    else if HasKeyIn(now, device, key) then Success((WithKey(now, device, key).value, false))
    else CreateAnswer(now, ms[1..], device, key, newId)
  }

  ghost function CreateAnswer(cs: Commands, ms: seq<Moment>, device: nat, key: string, newId: CommandId): SyncResult
    requires |ms| == 4
  {
    var now := ApplyAll(cs, ms[0].others);
    if ms[0].fault != NoFault then Failure(StoreFailure)
    else if ActiveOf(now, device).Some? then Failure(SyncAlreadyActive(now[ActiveOf(now, device).value]))
    else
      var seen := ApplyAll(now, ms[1].others);
      if ms[1].fault != NoFault then Failure(StoreFailure)
      else if Matches(seen, Create(newId, device, key)) then Success((newId, true))
      else ConvergeAnswer(seen, ms[2..], device, key)
  }

  ghost function ConvergeAnswer(cs: Commands, ms: seq<Moment>, device: nat, key: string): SyncResult
    requires |ms| == 2
  {
    var now := ApplyAll(cs, ms[0].others);
    if ms[0].fault == NoFault && HasKeyIn(now, device, key) then Success((WithKey(now, device, key).value, false))
    else
      var later := ApplyAll(now, ms[1].others);
      if ms[1].fault == NoFault
        && ActiveOf(later, device).Some? then Failure(SyncAlreadyActive(later[ActiveOf(later, device).value]))
      else Failure(UniqueViolation)
  }

  /** The request is told that a sync is already active, and the active command is the one of its own key. */
  predicate BlamesItself(r: SyncResult, key: string) {
    r.Failure? && r.error.SyncAlreadyActive? && r.error.active.key == key
  }

  /** No other request creates a command for this device and key meanwhile. */
  predicate NoRival(ms: seq<Moment>, device: nat, key: string) {
    forall i | 0 <= i < |ms| :: NoRivalIn(ms[i].others, device, key)
  }

  predicate NoRivalIn(ops: seq<Op>, device: nat, key: string) {
    forall i | 0 <= i < |ops| && ops[i].Create? :: ops[i].device != device || ops[i].key != key
  }

  lemma {:induction false} KeyStaysFree(cs: Commands, ops: seq<Op>, device: nat, key: string)
    requires !HasKeyIn(cs, device, key) && NoRivalIn(ops, device, key)
    ensures !HasKeyIn(ApplyAll(cs, ops), device, key)
  {
    hide ValidKey, ValidReport;
    if ops != [] {
      KeyStaysFree(cs, ops[..|ops| - 1], device, key);
    }
  }

  lemma KeyStaysTaken(cs: Commands, ops: seq<Op>, device: nat, key: string)
    requires Invariant(cs) && HasKeyIn(cs, device, key)
    ensures HasKeyIn(ApplyAll(cs, ops), device, key)
  {
    ApplyAllKeeps(cs, ops);
    hide Invariant, ApplyAll, Rank;
  }

  lemma NeverBlamesItself(cs: Commands, ms: seq<Moment>, device: nat, key: string, newId: CommandId)
    requires |ms| == 5 && Invariant(cs) && (HasKeyIn(cs, device, key) || NoRival(ms, device, key))
    ensures !BlamesItself(SyncAnswer(cs, ms, device, key, newId), key)
  {
    hide Invariant, ApplyAll, Matches, NoRivalIn;
    if HasKeyIn(cs, device, key) {
      KeyStaysTaken(cs, ms[0].others, device, key);
    } else {
      var now := ApplyAll(cs, ms[0].others);
      KeyStaysFree(cs, ms[0].others, device, key);
      FreeKeyIsNotBlamed(now, ms[1..], device, key, newId);
    }
  }

  lemma FreeKeyIsNotBlamed(cs: Commands, ms: seq<Moment>, device: nat, key: string, newId: CommandId)
    requires |ms| == 4 && !HasKeyIn(cs, device, key) && NoRival(ms, device, key)
    ensures !BlamesItself(CreateAnswer(cs, ms, device, key, newId), key)
  {
    hide Invariant, ApplyAll, Matches, NoRivalIn;
    var now := ApplyAll(cs, ms[0].others);
    var seen := ApplyAll(now, ms[1].others);
    var again := ApplyAll(seen, ms[2].others);
    KeyStaysFree(cs, ms[0].others, device, key);
    KeyStaysFree(now, ms[1].others, device, key);
    KeyStaysFree(seen, ms[2].others, device, key);
    KeyStaysFree(again, ms[3].others, device, key);
  }

  lemma {:induction false} Above(ids: set<nat>) returns (n: nat)
    ensures forall i | i in ids :: i < n
  {
    n := 0;
    if ids != {} {
      var i :| i in ids;
      var m := Above(ids - {i});
      n := if m <= i then i + 1 else m;
      forall j | j in ids ensures j < n {
        assert j == i || j in ids - {i};
      }
    }
  }

  /** How another request takes a free key: it may have to wait for the end of the active command. */
  lemma RivalOps(cs: Commands, device: nat, key: string) returns (ops: seq<Op>)
    requires Invariant(cs) && ValidKey(key) && !HasKeyIn(cs, device, key)
    ensures var ds := ApplyAll(cs, ops); ActiveOf(ds, device).Some? && ds[ActiveOf(ds, device).value].key == key
  {
    hide ValidKey;
    var id := Above(cs.Keys);
    var create := Create(id, device, key);
    var active := ActiveOf(cs, device);
    if active.None? {
      ops := [create];
      assert ApplyAll(cs, ops[..0]) == cs;
      OnlyActive(cs, create);
    } else {
      var finish := Finish(active.value, device, Completed, SYNC_COMPLETED);
      ops := [finish, create];
      assert ops[..1] == [finish] && [finish][..0] == [];
      assert ApplyAll(cs, [finish][..0]) == cs;
      ApplyKeeps(cs, finish);
      OnlyActive(Apply(cs, finish), create);
      assert ApplyAll(cs, ops) == Apply(Apply(cs, finish), create);
    }
  }

  lemma OnlyActive(cs: Commands, create: Op)
    requires Invariant(cs) && create.Create? && Matches(cs, create)
    ensures ActiveOf(Apply(cs, create), create.device) == Some(create.id)
  {
    hide ValidKey, Invariant;
    assert IsActiveFor(Apply(cs, create)[create.id], create.device);
    assert forall j | j in cs :: Apply(cs, create)[j] == cs[j] && !IsActiveFor(cs[j], create.device);
  }

  /**
   * A Sync Now request can be told that its own command is in its way. Over all
   * interleavings and store faults this is excluded exactly when its key names a
   * command before it starts, or no other request with this key may run meanwhile.
   */
  lemma BlamesItselfIff(cs: Commands, device: nat, key: string, newId: CommandId, rivals: bool)
    requires Invariant(cs) && ValidKey(key)
    ensures (forall ms: seq<Moment> | |ms| == 5 && (rivals || NoRival(ms, device, key)) ::
               !BlamesItself(SyncAnswer(cs, ms, device, key, newId), key))
      <==> HasKeyIn(cs, device, key) || !rivals
  {
    hide Invariant, SyncAnswer, NoRival, BlamesItself, HasKeyIn, ValidKey;
    if HasKeyIn(cs, device, key) || !rivals {
      forall ms: seq<Moment> | |ms| == 5 && (rivals || NoRival(ms, device, key))
        ensures !BlamesItself(SyncAnswer(cs, ms, device, key, newId), key) {
        NeverBlamesItself(cs, ms, device, key, newId);
      }
    } else {
      var ops := RivalOps(cs, device, key);
      var ms := RivalBetweenLookups(cs, ops, device, key, newId);
    }
  }

  lemma RivalBetweenLookups(cs: Commands, ops: seq<Op>, device: nat, key: string,
      newId: CommandId) returns (ms: seq<Moment>)
    requires !HasKeyIn(cs, device, key)
    requires var ds := ApplyAll(cs, ops); ActiveOf(ds, device).Some? && ds[ActiveOf(ds, device).value].key == key
    ensures |ms| == 5 && BlamesItself(SyncAnswer(cs, ms, device, key, newId), key)
  {
    var quiet := Moment([], NoFault);
    ms := [quiet, Moment(ops, NoFault), quiet, quiet, quiet];
    assert ApplyAll(cs, []) == cs;
    hide ApplyAll;
  }

  /** The shortest case: nothing but a second request with the same key, between the two lookups of the first. */
  lemma SameKeyRace(device: nat, key: string, newId: CommandId)
    requires ValidKey(key)
    ensures var quiet, rival := Moment([], NoFault), Moment([Create(0, device, key)], NoFault);
      SyncAnswer(map[], [quiet, rival, quiet, quiet, quiet], device, key, newId)
        == Failure(SyncAlreadyActive(Command(device, key, Pending, None, 0, None)))
  {
    hide ValidKey;
    var create := Create(0, device, key);
    assert ApplyAll(map[], [create][..0]) == map[];
    assert ApplyAll(map[], [create]) == map[0 := Command(device, key, Pending, None, 0, None)];
  }

  /** What a report of the outcome is answered: the command is read, finished, and read again. */
  function ReportAnswer(cs: Commands, ms: seq<Moment>, device: nat, id: CommandId, status: Status,
      code: string): Result<Command, Error>
    requires |ms| == 3
  {
    var now := ApplyAll(cs, ms[0].others);
    if !ValidReport(status, code) then Failure(InvalidTransition)
    else if ms[0].fault != NoFault then Failure(StoreFailure)
    else if id !in now || now[id].device != device then Failure(NotFound)
    else if IsTerminal(now[id].status) then ReplayAnswer(now[id], status)
    else SettleAnswer(now, ms[1..], device, id, status, code)
  }

  function SettleAnswer(cs: Commands, ms: seq<Moment>, device: nat, id: CommandId, status: Status,
      code: string): Result<Command, Error>
    requires |ms| == 2
  {
    var seen := ApplyAll(cs, ms[0].others);
    if ms[0].fault != NoFault then Failure(StoreFailure)
    else if Matches(seen,
      Finish(id, device, status, code)) then Success(seen[id].(status := status, resultCode := Some(code)))
    else
      var now := ApplyAll(seen, ms[1].others);
      if ms[1].fault != NoFault then Failure(StoreFailure)
      else if id !in now then Failure(NotFound)
      else ReplayAnswer(now[id], status)
  }

  function ReplayAnswer(c: Command, status: Status): Result<Command, Error> {
    if c.status != status then Failure(CommandConflict) else Success(c)
  }

  /** Which report a device may send after the outcome without being contradicted by its answer. */
  predicate SameOutcome(c: Command, status: Status, code: string) {
    c.status == status && c.resultCode == Some(code)
  }

  /**
   * Once a command has its outcome, an undisturbed report is accepted although it
   * contradicts that outcome exactly when both say FAILED with different codes:
   * only the status is compared.
   */
  lemma ContradictionAcceptedIff(cs: Commands, ms: seq<Moment>, device: nat, id: CommandId, status: Status,
      code: string)
    requires |ms| == 3 && Invariant(cs) && ms[0].fault == NoFault && ValidReport(status, code)
    requires id in cs && cs[id].device == device && IsTerminal(cs[id].status)
    ensures var r := ReportAnswer(cs, ms, device, id, status, code);
      && (SameOutcome(cs[id], status, code) ==> r == Success(cs[id]))
      && (r.Success? && !SameOutcome(cs[id], status, code) <==>
            cs[id].status == Failed && status == Failed && cs[id].resultCode != Some(code))
  {
    ApplyAllKeeps(cs, ms[0].others);
    assert RowOk(cs[id]);
    hide Invariant, Rank, ApplyAll, Matches, ValidKey;
  }

  /**
   * The failing input: one device reports a network failure, then an authentication
   * failure, and both are acknowledged.
   */
  lemma TwoFailureCodes(device: nat, key: string)
    ensures var quiet := Moment([], NoFault);
      var failed := Command(device, key, Failed, None, 0, Some("SYNC_FAILED_NETWORK"));
      ReportAnswer(map[0 := failed], [quiet, quiet, quiet], device, 0, Failed, "SYNC_FAILED_AUTH") == Success(failed)
  {
    var failed := Command(device, key, Failed, None, 0, Some("SYNC_FAILED_NETWORK"));
    assert ApplyAll(map[0 := failed], []) == map[0 := failed];
  }

  /** Nobody else acts and nothing fails. */
  ghost predicate Quiet(ms: seq<Moment>) {
    forall i | 0 <= i < |ms| :: ms[i] == Moment([], NoFault)
  }

  /** Undisturbed, a request gets the command of its key, else is told of the active one, else creates its own. */
  lemma QuietSync(cs: Commands, ms: seq<Moment>, device: nat, key: string, newId: CommandId)
    requires |ms| == 5 && Quiet(ms) && Invariant(cs) && ValidKey(key) && newId !in cs
    ensures var r := SyncAnswer(cs, ms, device, key, newId);
      && (forall i | i in cs && cs[i].device == device && cs[i].key == key :: r == Success((i, false)))
      && (!(exists i :: i in cs && HasKey(cs[i], device, key)) ==>
            && (forall i | i in cs && IsActiveFor(cs[i], device) :: r == Failure(SyncAlreadyActive(cs[i])))
            && ((forall i | i in cs :: !IsActiveFor(cs[i], device)) ==> r == Success((newId, true))))
  {
    hide ValidKey, RowOk, IsTerminal, ConvergeAnswer;
    assert ApplyAll(cs, []) == cs;
    assert ms[0] == ms[1] == ms[2] == Moment([], NoFault);
    hide ApplyAll;
    forall i | i in cs && cs[i].device == device && cs[i].key == key
      ensures SyncAnswer(cs, ms, device, key, newId) == Success((i, false)) {
      assert HasKey(cs[i], device, key);
    }
  }

  /** Undisturbed, the first report of an outcome is recorded and answered as it is, with its code. */
  lemma QuietReport(cs: Commands, ms: seq<Moment>, device: nat, id: CommandId, status: Status, code: string)
    requires |ms| == 3 && Quiet(ms) && ValidReport(status, code)
    ensures var r := ReportAnswer(cs, ms, device, id, status, code);
      if id !in cs || cs[id].device != device then r == Failure(NotFound)
      else
        cs[id].status !in {Completed, Failed} ==>
          r == Success(Command(device, cs[id].key, status, cs[id].leaseUntil, cs[id].generation, Some(code)))
  {
    hide ValidReport;
    assert ApplyAll(cs, []) == cs;
    assert ms[0] == ms[1] == Moment([], NoFault);
    hide ApplyAll;
  }

  class Service {
    const moments: nat -> Moment
    var tick: nat
    var commands: Commands
    ghost var log: seq<Op>

    ghost predicate Valid()
      reads this
    {
      commands == Run(log)
    }

    constructor (moments: nat -> Moment)
      ensures Valid() && log == []
    {
      this.moments := moments;
      tick, commands, log := 0, map[], [];
    }

    /** What will happen around the next n store calls. */
    ghost function Upcoming(n: nat): (r: seq<Moment>)
      reads this
      ensures |r| == n
    {
      var first := tick;
      seq(n, i requires 0 <= i < n => moments(first + i))
    }

    method Append(op: Op)
      requires Valid()
      modifies this`commands, this`log
      ensures Valid() && log == old(log) + [op] && commands == Apply(old(commands), op)
      ensures Invariant(old(commands)) && Invariant(commands) && Later(old(commands), commands)
    {
      RunIsSafe(log);
      ApplyKeeps(commands, op);
      commands := Apply(commands, op);
      log := log + [op];
      assert log[..|log| - 1] == old(log);
    }

    /** Other requests, devices and workers act. */
    method Others() returns (fault: Fault)
      requires Valid()
      modifies this
      ensures Valid() && old(log) <= log && Invariant(old(commands)) && Invariant(commands)
        && Later(old(commands), commands)
      ensures fault == moments(old(tick)).fault && tick == old(tick) + 1
        && commands == ApplyAll(old(commands), moments(old(tick)).others)
    {
      var m := moments(tick);
      tick := tick + 1;
      fault := m.fault;
      RunIsSafe(log);
      hide Invariant, Apply;
      for i := 0 to |m.others|
        invariant Valid() && old(log) <= log && commands == ApplyAll(old(commands), m.others[..i])
          && tick == old(tick) + 1
      {
        assert m.others[..i + 1][..i] == m.others[..i];
        Append(m.others[i]);
      }
      assert m.others[..|m.others|] == m.others;
      ApplyAllKeeps(old(commands), m.others);
    }

    /** One guarded statement: whether it matched, or a store failure that may hide that it did. */
    method Execute(op: Op) returns (r: Result<bool, Error>)
      requires Valid()
      modifies this
      ensures Valid() && old(log) <= log && Invariant(commands) && Later(old(commands), commands)
        && tick == old(tick) + 1
      ensures var m := moments(old(tick));
        var seen := ApplyAll(old(commands), m.others);
        && Invariant(seen) && Later(old(commands), seen)
        && commands == (if m.fault == NotApplied then seen else Apply(seen, op))
        && r == if m.fault == NoFault then Success(Matches(seen, op)) else Failure(StoreFailure)
    {
      var fault := Others();
      if fault == NotApplied {
        return Failure(StoreFailure);
      }
      ghost var seen := commands;
      var matched := Matches(commands, op);
      Append(op);
      LaterTransitive(old(commands), seen, commands);
      return if fault == ReplyLost then Failure(StoreFailure) else Success(matched);
    }

    method GetByIdempotency(device: nat, key: string) returns (r: Result<Option<CommandId>, Error>)
      requires Valid()
      modifies this
      ensures Valid() && old(log) <= log && Invariant(commands) && Later(old(commands), commands)
      ensures tick == old(tick) + 1 && commands == ApplyAll(old(commands), moments(old(tick)).others)
      ensures r == if moments(old(tick)).fault == NoFault then Success(WithKey(commands, device, key))
        else Failure(StoreFailure)
    {
      var fault := Others();
      if fault != NoFault {
        return Failure(StoreFailure);
      }
      var found := set i | i in commands && HasKey(commands[i], device, key);
      if found == {} {
        assert forall i | i in commands && HasKey(commands[i], device, key) :: i in found;
        return Success(None);
      }
      var i :| i in found;
      return Success(Some(i));
    }

    method GetActive(device: nat) returns (r: Result<Option<CommandId>, Error>)
      requires Valid()
      modifies this
      ensures Valid() && old(log) <= log && Invariant(commands) && Later(old(commands), commands)
      ensures tick == old(tick) + 1 && commands == ApplyAll(old(commands), moments(old(tick)).others)
      ensures r == if moments(old(tick)).fault == NoFault then Success(ActiveOf(commands, device))
        else Failure(StoreFailure)
    {
      var fault := Others();
      if fault != NoFault {
        return Failure(StoreFailure);
      }
      var found := set i | i in commands && IsActiveFor(commands[i], device);
      if found == {} {
        assert forall i | i in commands && IsActiveFor(commands[i], device) :: i in found;
        return Success(None);
      }
      var i :| i in found;
      return Success(Some(i));
    }

    method GetCommandForDevice(id: CommandId, device: nat) returns (r: Result<Option<Command>, Error>)
      requires Valid()
      modifies this
      ensures Valid() && old(log) <= log && Invariant(commands) && Later(old(commands), commands)
      ensures tick == old(tick) + 1 && commands == ApplyAll(old(commands), moments(old(tick)).others)
      ensures r ==
        if moments(old(tick)).fault != NoFault then Failure(StoreFailure)
        else Success(if id in commands && commands[id].device == device then Some(commands[id]) else None)
    {
      var fault := Others();
      if fault != NoFault {
        return Failure(StoreFailure);
      }
      return Success(if id in commands && commands[id].device == device then Some(commands[id]) else None);
    }

    /**
     * Sync Now. A successful answer is the one command of this key, wherever it came
     * from; with the key taken on entry nothing else can be answered but a store
     * failure. The id is the fresh one exactly when this request created the command.
     */
    method CreateSyncRequest(device: nat, key: string, newId: CommandId, deviceActive: Result<bool, Error>)
      returns (r: Result<(CommandId, bool), Error>)
      requires Valid()
      modifies this
      ensures Valid() && old(log) <= log && Later(old(commands), commands)
      ensures !ValidKey(key) ==> r == Failure(InvalidIdempotencyKey) && log == old(log)
      ensures ValidKey(key) && deviceActive.Success? && !deviceActive.value ==>
        r == Failure(DeviceNotActive) && log == old(log)
      ensures r.Success? ==>
        r.value.0 in commands && HasKey(commands[r.value.0], device, key) && (r.value.1 ==> r.value.0 == newId)
      ensures r.Failure? && r.error.SyncAlreadyActive? && deviceActive.Success? ==> IsActiveFor(r.error.active, device)
      ensures ValidKey(key) && deviceActive == Success(true) ==>
        forall i | i in old(commands) && HasKey(old(commands)[i], device, key) ::
          r == Success((i, false)) || r == Failure(StoreFailure)
      ensures ValidKey(key) && deviceActive == Success(true) ==>
        r == SyncAnswer(old(commands), old(Upcoming(5)), device, key, newId)
    {
      hide ValidKey, Apply, ApplyAll, Matches, IsTerminal, Rank, ValidReport, Run, CreateAnswer;
      if !ValidKey(key) {
        return Failure(InvalidIdempotencyKey);
      }
      if deviceActive.Failure? {
        return Failure(deviceActive.error);
      }
      if !deviceActive.value {
        return Failure(DeviceNotActive);
      }
      var existing := GetByIdempotency(device, key);
      if existing.Failure? {
        return Failure(existing.error);
      }
      if existing.value.Some? {
        return Success((existing.value.value, false));
      }
      ghost var looked := commands;
      assert Upcoming(4) == old(Upcoming(5))[1..];
      r := CreateUnderKey(device, key, newId);
      LaterTransitive(old(commands), looked, commands);
    }

    /** The key was free a moment ago. */
    method CreateUnderKey(device: nat, key: string, newId: CommandId) returns (r: Result<(CommandId, bool), Error>)
      requires Valid()
      modifies this
      ensures Valid() && old(log) <= log && Later(old(commands), commands)
      ensures r.Success? ==>
        r.value.0 in commands && HasKey(commands[r.value.0], device, key) && (r.value.1 ==> r.value.0 == newId)
      ensures r.Failure? ==>
        r.error == StoreFailure || r.error == UniqueViolation
          || (r.error.SyncAlreadyActive? && IsActiveFor(r.error.active, device))
      ensures r == CreateAnswer(old(commands), old(Upcoming(4)), device, key, newId)
    {
      hide ValidKey, Rank, ValidReport, Run, Later, Invariant, ApplyAll, Matches, ConvergeAnswer;
      var active := GetActive(device);
      if active.Failure? {
        return Failure(active.error);
      }
      if active.value.Some? {
        return Failure(SyncAlreadyActive(commands[active.value.value]));
      }
      ghost var looked := commands;
      var created := Execute(Create(newId, device, key));
      LaterTransitive(old(commands), looked, commands);
      if created.Failure? {
        return Failure(created.error);
      }
      if created.value {
        return Success((newId, true));
      }
      ghost var refused := commands;
      assert Upcoming(2) == old(Upcoming(4))[2..];
      r := Converge(device, key);
      LaterTransitive(old(commands), refused, commands);
    }

    /** A concurrent creator won: answer with its command, if it is ours to answer. */
    method Converge(device: nat, key: string) returns (r: Result<(CommandId, bool), Error>)
      requires Valid()
      modifies this
      ensures Valid() && old(log) <= log && Later(old(commands), commands)
      ensures r.Success? ==> r.value.0 in commands && HasKey(commands[r.value.0], device, key) && !r.value.1
      ensures r.Failure? ==>
        r.error == UniqueViolation || (r.error.SyncAlreadyActive? && IsActiveFor(r.error.active, device))
      ensures r == ConvergeAnswer(old(commands), old(Upcoming(2)), device, key)
    {
      hide ApplyAll, Run, Rank, Invariant, Later;
      var byKey := GetByIdempotency(device, key);
      if byKey.Success? && byKey.value.Some? {
        return Success((byKey.value.value, false));
      }
      ghost var looked := commands;
      var active := GetActive(device);
      LaterTransitive(old(commands), looked, commands);
      if active.Success? && active.value.Some? {
        return Failure(SyncAlreadyActive(commands[active.value.value]));
      }
      return Failure(UniqueViolation);
    }

    /** Receipt and progress never take a command back, and say nothing new once it has its outcome. */
    method Progress(device: nat, id: CommandId, running: bool) returns (r: Result<Command, Error>)
      requires Valid()
      modifies this
      ensures Valid() && old(log) <= log && Later(old(commands), commands)
      ensures r.Success? ==>
        id in commands && commands[id] == r.value && r.value.device == device && Rank(r.value.status) >= 2
      ensures r.Success? && running ==> Rank(r.value.status) >= 3
      ensures var ms := old(Upcoming(3));
        var seen := ApplyAll(old(commands), ms[0].others);
        if ms[0].fault != NoFault then r == Failure(StoreFailure) && commands == seen
        else if !(id in seen && seen[id].device == device) then r == Failure(NotFound) && commands == seen
        else if seen[id].status in {Completed, Failed} then r == Success(seen[id]) && commands == seen
        else r.Failure? ==> r == Failure(StoreFailure) && (ms[1].fault != NoFault || ms[2].fault != NoFault)
      ensures id in old(commands) && old(commands)[id].device == device && Quiet(old(Upcoming(3))) ==>
        var c := old(commands)[id];
        var after := if c.status in {Completed, Failed} || c.status == Running then c
                     else c.(status := if running then Running else Accepted);
        r == Success(after) && commands == old(commands)[id := after]
      ensures !(id in old(commands) && old(commands)[id].device == device) && Quiet(old(Upcoming(3))) ==>
        r == Failure(NotFound) && commands == old(commands)
      ensures id in old(commands) && IsTerminal(old(commands)[id].status) && old(commands)[id].device == device ==>
        r == Success(old(commands)[id]) || r == Failure(StoreFailure)
    {
      hide ValidKey, ValidReport, Run, Apply, Later, Invariant;
      ghost var first := old(Upcoming(3))[0];
      assert ApplyAll(old(commands), []) == old(commands);
      assert Quiet(old(Upcoming(3))) ==> first == Moment([], NoFault);
      var found := GetCommandForDevice(id, device);
      if found.Failure? {
        return Failure(found.error);
      }
      if id in old(commands) {
        LaterKeeps(old(commands), commands, id);
      }
      if found.value.None? {
        return Failure(NotFound);
      }
      if IsTerminal(found.value.value.status) {
        return Success(found.value.value);
      }
      ghost var looked := commands;
      assert Upcoming(2) == old(Upcoming(3))[1..];
      assert Upcoming(2)[0] == old(Upcoming(3))[1] && Upcoming(2)[1] == old(Upcoming(3))[2];
      r := Advance(device, id, running);
      LaterTransitive(old(commands), looked, commands);
    }

    /** The statement matches, or the row it no longer matches is read again. */
    method Advance(device: nat, id: CommandId, running: bool) returns (r: Result<Command, Error>)
      requires Valid() && id in commands && commands[id].device == device
      modifies this
      ensures Valid() && old(log) <= log && Later(old(commands), commands)
      ensures r.Success? ==>
        id in commands && commands[id] == r.value && r.value.device == device && Rank(r.value.status) >= 2
      ensures r.Success? && running ==> Rank(r.value.status) >= 3
      ensures var ms := old(Upcoming(2));
        var seen := ApplyAll(old(commands), ms[0].others);
        && id in seen
        && if ms[0].fault == NotApplied then commands == seen && r == Failure(StoreFailure)
           else if seen[id].status !in {Completed, Failed} && (running || seen[id].status != Running) then
             && commands == seen[id := seen[id].(status := if running then Running else Accepted)]
             && r == (if ms[0].fault == NoFault then Success(commands[id]) else Failure(StoreFailure))
           else if ms[0].fault == ReplyLost then commands == seen && r == Failure(StoreFailure)
           else
             && commands == ApplyAll(seen, ms[1].others) && id in commands
             && r == if ms[1].fault == NoFault then Success(commands[id]) else Failure(StoreFailure)
    {
      hide ValidKey, ValidReport, Run, Invariant, ApplyAll, Later;
      ghost var seen := ApplyAll(commands, moments(tick).others);
      assert moments(tick) == Upcoming(2)[0];
      var updated := Execute(if running then MarkRunning(id, device) else Accept(id, device));
      LaterKeeps(old(commands), seen, id);
      if updated.Failure? {
        return Failure(updated.error);
      }
      if updated.value {
        return Success(commands[id]);
      }
      ghost var refused := commands;
      LaterKeeps(old(commands), refused, id);
      assert moments(tick) == old(Upcoming(2))[1];
      r := Reread(device, id);
      LaterTransitive(old(commands), refused, commands);
      LaterKeeps(refused, commands, id);
    }

    method Reread(device: nat, id: CommandId) returns (r: Result<Command, Error>)
      requires Valid() && id in commands && commands[id].device == device
      modifies this
      ensures Valid() && old(log) <= log && Later(old(commands), commands)
      ensures r.Failure? ==> r.error == StoreFailure
      ensures r.Success? ==> id in commands && commands[id] == r.value && r.value.device == device
      ensures commands == ApplyAll(old(commands), moments(old(tick)).others)
      ensures r.Success? <==> moments(old(tick)).fault == NoFault
    {
      hide Invariant, Run, Rank, IsTerminal, ApplyAll;
      var current := GetCommandForDevice(id, device);
      if current.Failure? {
        return Failure(current.error);
      }
      return Success(current.value.value);
    }

    /**
     * The outcome. Success means the command carries the reported status, by this
     * report or an earlier one; a report that contradicts the outcome is refused,
     * and the code of the first report is the one that stays.
     */
    method ReportTerminal(device: nat, id: CommandId, status: Status, code: string) returns (r: Result<Command, Error>)
      requires Valid()
      modifies this
      ensures Valid() && old(log) <= log && Later(old(commands), commands)
      ensures !ValidReport(status, code) ==> r == Failure(InvalidTransition) && log == old(log)
      ensures r.Success? ==>
        id in commands && commands[id] == r.value && r.value.device == device && r.value.status == status
      ensures r == Failure(CommandConflict) ==>
        id in commands && IsTerminal(commands[id].status) && commands[id].status != status
      ensures ValidReport(status, code) && id in old(commands) ==>
        old(commands)[id].device == device && IsTerminal(old(commands)[id].status) ==>
          || r == Failure(StoreFailure)
          || r == if old(commands)[id].status == status then Success(old(commands)[id]) else Failure(CommandConflict)
      ensures r == ReportAnswer(old(commands), old(Upcoming(3)), device, id, status, code)
    {
      hide ValidKey, Run, Apply, ApplyAll, Rank, SettleAnswer;
      if !ValidReport(status, code) {
        return Failure(InvalidTransition);
      }
      hide ValidReport;
      var found := GetCommandForDevice(id, device);
      if found.Failure? {
        return Failure(found.error);
      }
      if found.value.None? {
        return Failure(NotFound);
      }
      if IsTerminal(found.value.value.status) {
        return if found.value.value.status != status then Failure(CommandConflict) else Success(found.value.value);
      }
      ghost var looked := commands;
      assert Upcoming(2) == old(Upcoming(3))[1..];
      r := Settle(device, id, status, code);
      LaterTransitive(old(commands), looked, commands);
    }

    /** The command had no outcome a moment ago. */
    method Settle(device: nat, id: CommandId, status: Status, code: string) returns (r: Result<Command, Error>)
      requires Valid() && ValidReport(status, code) && id in commands && commands[id].device == device
      modifies this
      ensures Valid() && old(log) <= log && Later(old(commands), commands)
      ensures r.Success? ==>
        id in commands && commands[id] == r.value && r.value.device == device && r.value.status == status
      ensures r.Failure? ==> r.error == StoreFailure || r.error == CommandConflict
      ensures r == Failure(CommandConflict) ==>
        id in commands && IsTerminal(commands[id].status) && commands[id].status != status
      ensures r == SettleAnswer(old(commands), old(Upcoming(2)), device, id, status, code)
    {
      hide ValidKey, Run, Invariant, Rank, ValidReport, ApplyAll, Later, Matches, Apply, IsTerminal;
      ghost var seen := ApplyAll(commands, moments(tick).others);
      assert moments(tick) == Upcoming(2)[0];
      var finished := Execute(Finish(id, device, status, code));
      LaterKeeps(old(commands), seen, id);
      FinishFinds(seen, id, device, status, code);
      if finished.Failure? {
        return Failure(finished.error);
      }
      if finished.value {
        return Success(commands[id]);
      }
      // The statement matches every command without an outcome, so this one got its outcome
      // meanwhile; the source's second attempt at finishing is never reached.
      ghost var settled := commands;
      assert IsTerminal(commands[id].status);
      assert Upcoming(1)[0] == old(Upcoming(2))[1];
      r := Replay(device, id, status);
      LaterTransitive(old(commands), settled, commands);
    }

    /** The command already has its outcome. */
    method Replay(device: nat, id: CommandId, status: Status) returns (r: Result<Command, Error>)
      requires Valid() && id in commands && commands[id].device == device && IsTerminal(commands[id].status)
      modifies this
      ensures Valid() && old(log) <= log && Later(old(commands), commands)
      ensures id in commands && commands[id] == old(commands)[id]
      ensures var m := old(Upcoming(1))[0];
        r == if m.fault != NoFault then Failure(StoreFailure) else ReplayAnswer(commands[id], status)
      ensures commands == ApplyAll(old(commands), old(Upcoming(1))[0].others)
    {
      hide Run, Invariant, Rank, ValidReport, ApplyAll, IsTerminal;
      r := Reread(device, id);
      if r.Success? && r.value.status != status {
        r := Failure(CommandConflict);
      }
    }
  }
}
