/**
 * Several syncs of one product at once (internal/commerce/service.go). Module
 * Commerce takes the product's lock for granted; here nobody has to hold it, as when
 * a session is lost and its sync goes on: mapping writes do not depend on the locked
 * transaction (internal/adapter/postgres/commerce_mapping.go). Rows of other
 * products change as they like.
 *
 * An event is one atomic step of one session; Next ignores an event that the session
 * cannot take.
 */
module Contention {
  import opened Wrappers
  import opened OperationKey
  import opened Commerce

  type SessionId(==, !new) = nat

  /** Where a session stands. Since tells how many moves there had been when it last saw the identity it goes by. */
  datatype Phase =
    | Idle
    | Looked(mapped: Option<Mapping>, since: nat)
    | Answered(mapped: Option<Mapping>, reply: UpsertReply, since: nat)
    | Durable(external: Bytes, since: nat)

  /** The product's identity changed: by whom, from what that session had read, and with the provider's word or not. */
  datatype Move = Move(session: SessionId, from: Option<Bytes>, to: Bytes, proven: bool)

  /** An inventory call: the identity it addressed, the one mapped at that moment, and the moves made by then. */
  datatype Sent = Sent(session: SessionId, external: Bytes, mapped: Option<Bytes>, since: nat, at: nat)

  datatype State = State(tables: Tables, phases: map<SessionId, Phase>, moves: seq<Move>, sent: seq<Sent>)

  datatype Action =
    | Look
    | Answer(reply: UpsertReply)
    | Save(fault: Fault)
    | Send
    | Stop
    | Elsewhere(others: Tables)

  datatype Event = Event(session: SessionId, action: Action)

  function PhaseOf(s: State, i: SessionId): Phase {
    if i in s.phases then s.phases[i] else Idle
  }

  function SetPhase(s: State, i: SessionId, p: Phase): State {
    s.(phases := s.phases[i := p])
  }

  function Identity(t: Tables, p: Bytes): Option<Bytes> {
    if p in t.products then Some(t.products[p].external) else None
  }

  function IdentityOf(mapped: Option<Mapping>): Option<Bytes> {
    if mapped.None? then None else Some(mapped.value.external)
  }

  /** Insert without a mapping, else compare-and-set from the identity that was read. */
  function SaveWrite(p: Bytes, store: Option<StoreId>, mapped: Option<Mapping>, reply: UpsertReply): Write {
    if mapped.None? then CreateProduct(p, reply.external, store)
      else UpdateProduct(p, mapped.value.external, reply.external)
  }

  predicate Enabled(s: State, e: Event) {
    var phase := PhaseOf(s, e.session);
    match e.action
    case Look => phase.Idle?
    case Answer(_) => phase.Looked?
    case Save(_) => phase.Answered?
    case Send => phase.Durable?
    case Stop => !phase.Idle?
    case Elsewhere(_) => true
  }

  /** A compare-and-set to the identity that was read compares nothing: all it asks is that there is a row. */
  predicate Unchanged(mapped: Option<Mapping>, reply: UpsertReply) {
    mapped.Some? && mapped.value.external == reply.external
  }

  function Saved(p: Bytes, store: Option<StoreId>, t: Tables, mapped: Option<Mapping>, reply: UpsertReply,
      fault: Fault): Written {
    if fault == NotApplied then Written(t, Some(Internal)) else Apply(t, SaveWrite(p, store, mapped, reply))
  }

  function MovesAfter(p: Bytes, s: State, i: SessionId, t: Tables): seq<Move>
    requires PhaseOf(s, i).Answered?
  {
    var phase := PhaseOf(s, i);
    if Identity(t, p) == Identity(s.tables, p) then s.moves
    else s.moves + [Move(i, IdentityOf(phase.mapped), phase.reply.external, phase.reply.sellableTransition)]
  }

  function SaveNext(p: Bytes, store: Option<StoreId>, s: State, i: SessionId, fault: Fault): State
    requires PhaseOf(s, i).Answered?
  {
    var phase := PhaseOf(s, i);
    var written := Saved(p, store, s.tables, phase.mapped, phase.reply, fault);
    var moves := MovesAfter(p, s, i, written.tables);
    var since := if Unchanged(phase.mapped, phase.reply) then phase.since else |moves|;
    State(written.tables,
      s.phases[i := if fault == NoFault && written.error.None? then Durable(phase.reply.external, since) else Idle],
          moves, s.sent)
  }

  function Next(p: Bytes, store: Option<StoreId>, s: State, e: Event): State {
    if !Enabled(s, e) then s else
    var i, phase := e.session, PhaseOf(s, e.session);
    match e.action
    case Look => SetPhase(s, i, Looked(ProductRow(s.tables, p), |s.moves|))
    case Answer(reply) =>
      SetPhase(s, i, if Usable(phase.mapped, reply) then Answered(phase.mapped, reply, phase.since) else Idle)
    case Save(fault) => SaveNext(p, store, s, i, fault)
    case Send => SetPhase(s.(sent := s.sent
      + [Sent(i, phase.external, Identity(s.tables, p), phase.since, |s.moves|)]), i, Idle)
    case Stop => SetPhase(s, i, Idle)
    case Elsewhere(others) =>
      var merged := Merged(p, s.tables, others);
      if TablesOk(merged) then s.(tables := merged) else s
  }

  /** Any number of syncs of product p, over tables that have no row for it yet. */
  function Run(p: Bytes, store: Option<StoreId>, events: seq<Event>): State {
    if events == [] then State(Tables(map[], map[], map[]), map[], [], [])
    else Next(p, store, Run(p, store, events[..|events| - 1]), events[|events| - 1])
  }

  /** What the moves made so far say the identity is. */
  function Last(moves: seq<Move>): Option<Bytes> {
    if moves == [] then None else Some(moves[|moves| - 1].to)
  }

  /**
   * Every move starts from the identity there was, which is the one its session had read;
   * and only the first is unproven.
   */
  ghost predicate Chain(moves: seq<Move>) {
    forall i | 0 <= i < |moves| :: moves[i].from == Last(moves[..i]) && (i > 0 ==> moves[i].proven)
  }

  predicate PhaseFits(phase: Phase, moves: seq<Move>) {
    match phase
    case Idle => true
    case Looked(mapped, since) => since <= |moves| && Last(moves[..since]) == IdentityOf(mapped)
    case Answered(mapped, reply, since) =>
      since <= |moves| && Last(moves[..since]) == IdentityOf(mapped) && Usable(mapped, reply)
    case Durable(external, since) => since <= |moves| && Last(moves[..since]) == Some(external)
  }

  predicate SentFits(c: Sent, moves: seq<Move>) {
    c.since <= c.at <= |moves| && Last(moves[..c.since]) == Some(c.external) && Last(moves[..c.at]) == c.mapped
  }

  ghost predicate Invariant(p: Bytes, s: State) {
    && TablesOk(s.tables) && Chain(s.moves) && Identity(s.tables, p) == Last(s.moves)
    && (forall i | i in s.phases :: PhaseFits(s.phases[i], s.moves))
    && (forall c | c in s.sent :: SentFits(c, s.moves))
  }

  /** What a save does to the product's row: nothing, or the move from the identity that its session had read. */
  lemma SaveMoves(p: Bytes, store: Option<StoreId>, t: Tables, mapped: Option<Mapping>, reply: UpsertReply,
      fault: Fault)
    requires TablesOk(t) && Usable(mapped, reply)
    ensures var w := Saved(p, store, t, mapped, reply, fault);
      && TablesOk(w.tables)
      && (Identity(w.tables, p) != Identity(t, p) ==>
            Identity(t, p) == IdentityOf(mapped) && Identity(w.tables, p) == Some(reply.external))
      && (w.error.None? && !Unchanged(mapped, reply) ==> Identity(w.tables, p) == Some(reply.external))
  {
    ApplyKeepsConstraints(t, SaveWrite(p, store, mapped, reply));
    hide TablesOk, ExternalTaken;
  }

  lemma MoreMoves(moves: seq<Move>, m: Move)
    requires Chain(moves) && m.from == Last(moves) && (moves != [] ==> m.proven)
    ensures Chain(moves + [m])
    ensures forall phase | PhaseFits(phase, moves) :: PhaseFits(phase, moves + [m])
    ensures forall c | SentFits(c, moves) :: SentFits(c, moves + [m])
  {
    var more := moves + [m];
    assert forall i | 0 <= i <= |moves| :: more[..i] == moves[..i];
    assert moves[..|moves|] == moves;
  }

  /** One session goes on, and the moves stay or grow by one that continues the chain. */
  lemma StepKeeps(p: Bytes, s: State, t: State, i: SessionId)
    requires Invariant(p, s) && TablesOk(t.tables) && Identity(t.tables, p) == Last(t.moves) && t.sent == s.sent
    requires i in t.phases && t.phases == s.phases[i := t.phases[i]] && PhaseFits(t.phases[i], t.moves)
    requires t.moves == s.moves || (t.moves != [] && t.moves == s.moves + [t.moves[|t.moves| - 1]]
             && t.moves[|t.moves| - 1].from == Last(s.moves) && (s.moves != [] ==> t.moves[|t.moves| - 1].proven))
    ensures Invariant(p, t)
  {
    if t.moves != s.moves {
      MoreMoves(s.moves, t.moves[|t.moves| - 1]);
    }
    hide TablesOk, Chain, SentFits, PhaseFits, Last;
  }

  lemma DurableFits(external: Bytes, moves: seq<Move>)
    requires Last(moves) == Some(external)
    ensures PhaseFits(Durable(external, |moves|), moves)
  {
    assert moves[..|moves|] == moves;
  }

  lemma SaveKeeps(p: Bytes, store: Option<StoreId>, s: State, i: SessionId, fault: Fault)
    requires Invariant(p, s) && PhaseOf(s, i).Answered?
    ensures Invariant(p, SaveNext(p, store, s, i, fault))
  {
    var phase, t := PhaseOf(s, i), SaveNext(p, store, s, i, fault);
    assert PhaseFits(phase, s.moves);
    SaveMoves(p, store, s.tables, phase.mapped, phase.reply, fault);
    ProvenWhenMapped(phase.mapped, phase.reply);
    SavedPhaseFits(p, store, s, i, fault);
    hide Saved, TablesOk, Chain, SentFits, Usable, PhaseFits;
    StepKeeps(p, s, t, i);
  }

  lemma SavedPhaseFits(p: Bytes, store: Option<StoreId>, s: State, i: SessionId, fault: Fault)
    requires Invariant(p, s) && PhaseOf(s, i).Answered?
    ensures var t := SaveNext(p, store, s, i, fault);
      PhaseFits(t.phases[i], t.moves) && Identity(t.tables, p) == Last(t.moves)
  {
    hide Saved, TablesOk, Chain, SentFits, Usable;
    var phase, t := PhaseOf(s, i), SaveNext(p, store, s, i, fault);
    assert PhaseFits(phase, s.moves);
    SaveMoves(p, store, s.tables, phase.mapped, phase.reply, fault);
    if Unchanged(phase.mapped, phase.reply) {
      assert t.moves == s.moves;
    } else if t.phases[i].Durable? {
      DurableFits(phase.reply.external, t.moves);
    }
  }

  lemma ProvenWhenMapped(mapped: Option<Mapping>, reply: UpsertReply)
    requires Usable(mapped, reply)
    ensures mapped.Some? && !Unchanged(mapped, reply) ==> reply.sellableTransition
  {
  }

  lemma MergedKeepsRow(p: Bytes, t: Tables, others: Tables)
    ensures ProductRow(Merged(p, t, others), p) == ProductRow(t, p)
  {
  }

  lemma NextKeeps(p: Bytes, store: Option<StoreId>, s: State, e: Event)
    requires Invariant(p, s)
    ensures Invariant(p, Next(p, store, s, e))
  {
    hide SaveNext, TablesOk, Chain, Merged, Usable, Last;
    if Enabled(s, e) {
      var phase := PhaseOf(s, e.session);
      assert PhaseFits(phase, s.moves);
      assert s.moves[..|s.moves|] == s.moves;
      match e.action
      case Save(fault) => SaveKeeps(p, store, s, e.session, fault);
      case Elsewhere(others) => MergedKeepsRow(p, s.tables, others);
      case _ =>
    }
  }

  /** Over every interleaving of sessions, faults and lost locks. */
  lemma {:induction false} RunIsSafe(p: Bytes, store: Option<StoreId>, events: seq<Event>)
    ensures Invariant(p, Run(p, store, events))
  {
    if events != [] {
      RunIsSafe(p, store, events[..|events| - 1]);
      NextKeeps(p, store, Run(p, store, events[..|events| - 1]), events[|events| - 1]);
    }
  }

  /**
   * Also without the lock no session overwrites an identity other than the one it
   * had read, and every change after the first mapping is proven by the provider.
   */
  lemma IdentitiesFormAChain(p: Bytes, store: Option<StoreId>, events: seq<Event>)
    ensures var s := Run(p, store, events);
      Identity(s.tables, p) == Last(s.moves)
      && forall i | 0 <= i < |s.moves| ::
            s.moves[i].from == (if i == 0 then None else Some(s.moves[i - 1].to)) && (i > 0 ==> s.moves[i].proven)
  {
    RunIsSafe(p, store, events);
    var moves := Run(p, store, events).moves;
    forall i | 0 <= i < |moves|
      ensures moves[i].from == (if i == 0 then None else Some(moves[i - 1].to)) && (i > 0 ==> moves[i].proven) {
      assert moves[i].from == Last(moves[..i]);
    }
  }

  /** None of these moves is the session's own. */
  predicate OthersMoved(moves: seq<Move>, i: SessionId, since: nat, at: nat) {
    forall k | since <= k < at && k < |moves| :: moves[k].session != i
  }

  ghost predicate OwnMovesSeen(s: State) {
    && (forall i | i in s.phases && !s.phases[i].Idle? :: OthersMoved(s.moves, i, s.phases[i].since, |s.moves|))
    && (forall c | c in s.sent :: c.at <= |s.moves| && OthersMoved(s.moves, c.session, c.since, c.at))
  }

  lemma NextKeepsSeen(p: Bytes, store: Option<StoreId>, s: State, e: Event)
    requires Invariant(p, s) && OwnMovesSeen(s)
    ensures OwnMovesSeen(Next(p, store, s, e))
  {
    hide Merged, Usable, Last, TablesOk, Chain, SentFits;
    if Enabled(s, e) {
      match e.action
      case Save(fault) => SaveKeepsSeen(p, store, s, e.session, fault);
      case _ =>
    }
  }

  lemma SaveKeepsSeen(p: Bytes, store: Option<StoreId>, s: State, i: SessionId, fault: Fault)
    requires Invariant(p, s) && OwnMovesSeen(s) && PhaseOf(s, i).Answered?
    ensures OwnMovesSeen(SaveNext(p, store, s, i, fault))
  {
    hide Saved, Usable, Last, TablesOk, Chain, SentFits;
    var phase, t := PhaseOf(s, i), SaveNext(p, store, s, i, fault);
    assert PhaseFits(phase, s.moves);
    SaveMoves(p, store, s.tables, phase.mapped, phase.reply, fault);
    assert Unchanged(phase.mapped, phase.reply) ==> t.moves == s.moves;
  }

  lemma {:induction false} OwnMovesAreSeen(p: Bytes, store: Option<StoreId>, events: seq<Event>)
    ensures OwnMovesSeen(Run(p, store, events))
  {
    hide Next, Invariant;
    if events != [] {
      var before, last := events[..|events| - 1], events[|events| - 1];
      OwnMovesAreSeen(p, store, before);
      RunIsSafe(p, store, before);
      NextKeepsSeen(p, store, Run(p, store, before), last);
    }
  }

  /**
   * In every run a call that misses the mapped identity was overtaken: another
   * session moved it after the caller last saw it, and the last such move led
   * elsewhere.
   */
  lemma MisdirectedByAnother(p: Bytes, store: Option<StoreId>, events: seq<Event>, k: nat)
    requires k < |Run(p, store, events).sent|
    ensures var s := Run(p, store, events);
      var c := s.sent[k];
      && c.since <= c.at <= |s.moves|
      && (forall i | c.since <= i < c.at :: s.moves[i].session != c.session)
      && (c.mapped != Some(c.external) <==> c.since < c.at && s.moves[c.at - 1].to != c.external)
  {
    hide Run, TablesOk, Chain, PhaseFits, SentFits, OthersMoved, Last;
    RunIsSafe(p, store, events);
    OwnMovesAreSeen(p, store, events);
    var s := Run(p, store, events);
    assert s.sent[k] in s.sent;
    SentTells(s.sent[k], s.moves);
  }

  lemma SentTells(c: Sent, moves: seq<Move>)
    requires SentFits(c, moves) && OthersMoved(moves, c.session, c.since, c.at)
    ensures c.since <= c.at <= |moves| && forall i | c.since <= i < c.at :: moves[i].session != c.session
    ensures c.mapped != Some(c.external) <==> c.since < c.at && moves[c.at - 1].to != c.external
  {
  }

  // ---- What the lock is for ----

  ghost predicate AllAddressed(s: State) {
    forall c | c in s.sent :: c.mapped == Some(c.external)
  }

  /** Nobody else is in the middle of a sync. */
  predicate NobodyElse(s: State, i: SessionId) {
    forall j | j in s.phases && j != i :: s.phases[j].Idle?
  }

  /** Every sync starts while no other one is in progress, as with the lock. */
  predicate Locked(p: Bytes, store: Option<StoreId>, events: seq<Event>) {
    events != [] ==>
      var before, last := events[..|events| - 1], events[|events| - 1];
      Locked(p, store, before) && (last.action.Look? ==> NobodyElse(Run(p, store, before), last.session))
  }

  /**
   * One session at most is under way, nothing moved since it last saw the identity, and
   * nothing had when a call was sent.
   */
  ghost predicate OneAtATime(s: State) {
    && (forall i | i in s.phases && !s.phases[i].Idle? :: s.phases[i].since == |s.moves| && NobodyElse(s, i))
    && (forall c | c in s.sent :: c.since == c.at)
  }

  lemma SaveKeepsOne(p: Bytes, store: Option<StoreId>, s: State, i: SessionId, fault: Fault)
    requires Invariant(p, s) && OneAtATime(s) && PhaseOf(s, i).Answered?
    ensures OneAtATime(SaveNext(p, store, s, i, fault))
  {
    hide Saved, TablesOk, Chain, SentFits, Usable, Last;
    var phase := PhaseOf(s, i);
    assert PhaseFits(phase, s.moves);
    assert NobodyElse(s, i);
    SaveMoves(p, store, s.tables, phase.mapped, phase.reply, fault);
  }

  lemma NextKeepsOne(p: Bytes, store: Option<StoreId>, s: State, e: Event)
    requires Invariant(p, s) && OneAtATime(s) && (e.action.Look? ==> NobodyElse(s, e.session))
    ensures OneAtATime(Next(p, store, s, e))
  {
    hide SaveNext, Merged, Usable, Last, TablesOk, Chain, SentFits, PhaseFits;
    if Enabled(s, e) {
      match e.action
      case Save(fault) => SaveKeepsOne(p, store, s, e.session, fault);
      case Look => assert NobodyElse(s, e.session);
      case Elsewhere(_) =>
      case _ => assert NobodyElse(s, e.session);
    }
  }

  lemma {:induction false} LockedIsOneAtATime(p: Bytes, store: Option<StoreId>, events: seq<Event>)
    requires Locked(p, store, events)
    ensures OneAtATime(Run(p, store, events))
  {
    hide Next, OneAtATime, Invariant, NobodyElse;
    if events == [] {
      NothingUnderWay(p, store);
    } else {
      var before, last := events[..|events| - 1], events[|events| - 1];
      LockedIsOneAtATime(p, store, before);
      RunIsSafe(p, store, before);
      NextKeepsOne(p, store, Run(p, store, before), last);
    }
  }

  lemma NothingUnderWay(p: Bytes, store: Option<StoreId>)
    ensures OneAtATime(Run(p, store, []))
  {
  }

  /** With the lock every inventory call addresses the identity mapped at that moment, whatever else happens. */
  lemma LockedCallsAreAddressed(p: Bytes, store: Option<StoreId>, events: seq<Event>)
    requires Locked(p, store, events)
    ensures AllAddressed(Run(p, store, events))
  {
    hide Run, Last;
    RunIsSafe(p, store, events);
    LockedIsOneAtATime(p, store, events);
    var s := Run(p, store, events);
    forall c | c in s.sent ensures c.mapped == Some(c.external) {
      assert SentFits(c, s.moves);
    }
  }

  predicate SessionsBelow(events: seq<Event>, n: nat) {
    forall e | e in events :: e.session < n
  }

  lemma {:induction false} SingleSessionIsLocked(p: Bytes, store: Option<StoreId>, events: seq<Event>)
    requires SessionsBelow(events, 1)
    ensures Locked(p, store, events) && forall i | i in Run(p, store, events).phases :: i == 0
  {
    if events != [] {
      var before, last := events[..|events| - 1], events[|events| - 1];
      SingleSessionIsLocked(p, store, before);
      assert last in events;
    }
  }

  /**
   * Without the lock all inventory calls of all runs address the mapped identity if
   * and only if there is a single session.
   */
  lemma AlwaysAddressedIff(p: Bytes, n: nat)
    ensures (forall store, events | SessionsBelow(events, n) :: AllAddressed(Run(p, store, events))) <==> n <= 1
  {
    hide Run, AllAddressed, Locked;
    if n <= 1 {
      forall store, events | SessionsBelow(events, n) ensures AllAddressed(Run(p, store, events)) {
        SingleSessionIsLocked(p, store, events);
        LockedCallsAreAddressed(p, store, events);
      }
    } else {
      var events := FIRST_MAPS + FIRST_MOVES + SECOND_SENDS;
      assert SessionsBelow(events, n);
      MisdirectedIsNotAddressed(p);
    }
  }

  lemma MisdirectedIsNotAddressed(p: Bytes)
    ensures !AllAddressed(Run(p, None, FIRST_MAPS + FIRST_MOVES + SECOND_SENDS))
  {
    hide Run;
    UncheckedSaveMisdirects(p);
    assert Sent(1, OLD, Some(NEW), 1, 2) in Run(p, None, FIRST_MAPS + FIRST_MOVES + SECOND_SENDS).sent;
  }

  lemma OneMore(p: Bytes, store: Option<StoreId>, events: seq<Event>, e: Event)
    ensures Run(p, store, events + [e]) == Next(p, store, Run(p, store, events), e)
  {
    assert (events + [e])[..|events|] == events;
  }

  const SIMPLE := UpsertReply(OLD, map[], false)
  const BUNDLE := UpsertReply(NEW, map[], true)
  const FIRST_MAPS := [Event(0, Look), Event(0, Answer(SIMPLE)), Event(0, Save(NoFault))]
  const FIRST_MOVES :=
    [Event(1, Look), Event(0, Stop), Event(0, Look), Event(0, Answer(BUNDLE)), Event(0, Save(NoFault))]
  const SECOND_SENDS := [Event(1, Answer(SIMPLE)), Event(1, Save(NoFault)), Event(1, Send)]

  lemma FirstMaps(p: Bytes)
    ensures var s := Run(p, None, FIRST_MAPS);
      s.tables.products == map[p := Mapping(OLD, None)] && |s.moves| == 1 && s.sent == []
      && PhaseOf(s, 0) == Durable(OLD, 1) && PhaseOf(s, 1) == Idle
  {
    assert Run(p, None, []) == State(Tables(map[], map[], map[]), map[], [], []);
    hide Run;
    OneMore(p, None, [], Event(0, Look));
    OneMore(p, None, [] + [Event(0, Look)], Event(0, Answer(SIMPLE)));
    OneMore(p, None, [] + [Event(0, Look)] + [Event(0, Answer(SIMPLE))], Event(0, Save(NoFault)));
    assert [] + [Event(0, Look)] + [Event(0, Answer(SIMPLE))] + [Event(0, Save(NoFault))] == FIRST_MAPS;
  }

  lemma FirstMoves(p: Bytes)
    ensures var s := Run(p, None, FIRST_MAPS + FIRST_MOVES);
      s.tables.products == map[p := Mapping(NEW, None)] && |s.moves| == 2 && s.sent == []
      && PhaseOf(s, 1) == Looked(Some(Mapping(OLD, None)), 1)
  {
    hide Run;
    FirstMaps(p);
    OneMore(p, None, FIRST_MAPS, FIRST_MOVES[0]);
    OneMore(p, None, FIRST_MAPS + [FIRST_MOVES[0]], FIRST_MOVES[1]);
    OneMore(p, None, FIRST_MAPS + [FIRST_MOVES[0]] + [FIRST_MOVES[1]], FIRST_MOVES[2]);
    OneMore(p, None, FIRST_MAPS + [FIRST_MOVES[0]] + [FIRST_MOVES[1]] + [FIRST_MOVES[2]], FIRST_MOVES[3]);
    OneMore(p, None, FIRST_MAPS + [FIRST_MOVES[0]] + [FIRST_MOVES[1]] + [FIRST_MOVES[2]] + [FIRST_MOVES[3]],
      FIRST_MOVES[4]);
    assert FIRST_MAPS + [FIRST_MOVES[0]] + [FIRST_MOVES[1]] + [FIRST_MOVES[2]] + [FIRST_MOVES[3]] + [FIRST_MOVES[4]] ==
      FIRST_MAPS + FIRST_MOVES;
  }

  /**
   * The failing input without the lock: one session reads a mapping, another moves
   * it, and the first saves what it had read, unchecked, and addresses its inventory
   * to an identity that is no longer mapped.
   */
  lemma UncheckedSaveMisdirects(p: Bytes)
    ensures Run(p, None, FIRST_MAPS + FIRST_MOVES + SECOND_SENDS).sent == [Sent(1, OLD, Some(NEW), 1, 2)]
  {
    hide Run;
    FirstMoves(p);
    var before := FIRST_MAPS + FIRST_MOVES;
    OneMore(p, None, before, SECOND_SENDS[0]);
    OneMore(p, None, before + [SECOND_SENDS[0]], SECOND_SENDS[1]);
    OneMore(p, None, before + [SECOND_SENDS[0]] + [SECOND_SENDS[1]], SECOND_SENDS[2]);
    assert before + [SECOND_SENDS[0]] + [SECOND_SENDS[1]] + [SECOND_SENDS[2]] == before + SECOND_SENDS;
  }

  const SECOND_MOVES := [Event(1, Look), Event(1, Answer(BUNDLE)), Event(1, Save(NoFault))]

  /** A compared save does not help its session either, when another one moves the identity before the call goes out. */
  lemma CheckedSaveMisdirects(p: Bytes)
    ensures Run(p, None, FIRST_MAPS + SECOND_MOVES + [Event(0, Send)]).sent == [Sent(0, OLD, Some(NEW), 1, 2)]
  {
    hide Run;
    FirstMaps(p);
    OneMore(p, None, FIRST_MAPS, SECOND_MOVES[0]);
    OneMore(p, None, FIRST_MAPS + [SECOND_MOVES[0]], SECOND_MOVES[1]);
    OneMore(p, None, FIRST_MAPS + [SECOND_MOVES[0]] + [SECOND_MOVES[1]], SECOND_MOVES[2]);
    assert FIRST_MAPS + [SECOND_MOVES[0]] + [SECOND_MOVES[1]] + [SECOND_MOVES[2]] == FIRST_MAPS + SECOND_MOVES;
    OneMore(p, None, FIRST_MAPS + SECOND_MOVES, Event(0, Send));
  }

  // ---- Variants ----

  /** Any mapping writes, by any syncs of any products, in any order. */
  function ApplyAll(t: Tables, writes: seq<Write>): Tables {
    if writes == [] then t else Apply(ApplyAll(t, writes[..|writes| - 1]), writes[|writes| - 1]).tables
  }

  /** What becomes of a variant's row: at most the one move from its parent to a child. */
  predicate MovedAtMostOnce(before: VariantMapping, after: VariantMapping) {
    || after == before
    || (before.external == before.parent != after.external && after == before.(external := after.external))
  }

  lemma WriteMovesOnce(t: Tables, w: Write, v: Part)
    requires v in t.variants
    ensures var u := Apply(t, w).tables; v in u.variants && MovedAtMostOnce(t.variants[v], u.variants[v])
  {
    hide ExternalTaken, PairTaken, PairTakenInStore, ValidExternal;
  }

  /**
   * Also without the lock a variant's row, once there, keeps its parent and its store
   * for ever, and its identity changes at most once, from the parent to a child.
   */
  lemma {:induction false} VariantMovesAtMostOnce(t: Tables, writes: seq<Write>, v: Part)
    requires v in t.variants
    ensures v in ApplyAll(t, writes).variants && MovedAtMostOnce(t.variants[v], ApplyAll(t, writes).variants[v])
  {
    hide Apply;
    if writes != [] {
      VariantMovesAtMostOnce(t, writes[..|writes| - 1], v);
      WriteMovesOnce(ApplyAll(t, writes[..|writes| - 1]), writes[|writes| - 1], v);
    }
  }
}
