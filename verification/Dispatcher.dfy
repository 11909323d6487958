/**
 * The dispatcher (internal/notifications/dispatcher.go) running step by step
 * against the shared outbox, with the events of all other dispatchers scheduled
 * by an adversary between any two of its steps.
 *
 * Every method leaves the deployment in Run(log) with the old log as a prefix, so
 * what module Outbox proves of every run holds at every step of this code.
 */
module Dispatcher {
  import opened Wrappers
  import opened Outbox
  import Backoff

  const DISPATCHER_BATCH_SIZE := 25

  datatype StoreReply = Applied | Stale | StoreError

  datatype ClaimedNotification = ClaimedNotification(token: Token, providerKey: string, attempts: nat,
    sendStarted: bool)

  /** The actions of one dispatcher among a log of events. */
  function OwnActions(events: seq<Event>, d: DispatcherId): seq<Action> {
    if events == [] then []
    else
      var e := events[|events| - 1];
      OwnActions(events[..|events| - 1], d) + (if e.dispatcher == d then [e.action] else [])
  }

  lemma {:induction false} OwnActionsOf(earlier: seq<Event>, later: seq<Event>, d: DispatcherId)
    ensures OwnActions(earlier + later, d) == OwnActions(earlier, d) + OwnActions(later, d)
    decreases |later|
  {
    if later == [] {
      assert earlier + later == earlier;
    } else {
      assert (earlier + later)[..|earlier + later| - 1] == earlier + later[..|later| - 1];
      OwnActionsOf(earlier, later[..|later| - 1], d);
    }
  }

  lemma OthersKeepPhase(s: State, e: Event, d: DispatcherId)
    requires e.dispatcher != d
    ensures PhaseOf(Next(s, e), d) == PhaseOf(s, d)
  {
  }

  /** A dispatcher that works on a notification can look up its sends. */
  lemma SendsAreKept(events: seq<Event>, d: DispatcherId)
    ensures var s := Run(events);
      !PhaseOf(s, d).Idle? ==>
        && PhaseOf(s, d).token.id in s.sends
        && (PhaseOf(s, d).Sending? || PhaseOf(s, d).Returned? ==> s.sends[PhaseOf(s, d).token.id] != [])
  {
    RunIsSafe(events);
    var s, p := Run(events), PhaseOf(Run(events), d);
    if !p.Idle? {
      assert PhaseFits(p, s.rows[p.token.id], s.sends[p.token.id]);
    }
  }

  /** The shared tables, the memory of every dispatcher process and the log of all that happened. */
  class Deployment {
    var state: State
    ghost var log: seq<Event>

    ghost predicate Valid()
      reads this
    {
      state == Run(log)
    }

    constructor ()
      ensures Valid() && log == []
    {
      state := START;
      log := [];
    }

    /** One event happens. */
    method Step(e: Event)
      requires Valid()
      modifies this
      ensures Valid() && log == old(log) + [e] && state == Next(old(state), e)
      ensures OwnActions(log, e.dispatcher) == old(OwnActions(log, e.dispatcher)) + [e.action]
    {
      state := Next(state, e);
      log := log + [e];
      assert log[..|log| - 1] == old(log);
    }

    /** The adversary lets other dispatchers act. */
    method Others(d: DispatcherId, schedule: seq<Event>)
      requires Valid()
      modifies this
      ensures Valid() && old(log) <= log
      ensures OwnActions(log, d) == old(OwnActions(log, d)) && PhaseOf(state, d) == old(PhaseOf(state, d))
    {
      for i := 0 to |schedule|
        invariant Valid() && old(log) <= log
        invariant OwnActions(log, d) == old(OwnActions(log, d)) && PhaseOf(state, d) == old(PhaseOf(state, d))
      {
        if schedule[i].dispatcher != d {
          OthersKeepPhase(state, schedule[i], d);
          OwnActionsOf(log, [schedule[i]], d);
          Step(schedule[i]);
        }
      }
    }

    /** Leases any due notification, or finds none. */
    method ClaimNotification(d: DispatcherId, owner: string, lease: nat, now: int)
        returns (r: Option<ClaimedNotification>)
      requires Valid() && PhaseOf(state, d) == Idle
      modifies this
      ensures Valid() && old(log) <= log
      ensures r.None? ==> log == old(log) && forall id | id in state.rows :: !Due(state.rows[id], now)
      ensures r.Some? ==>
        var c := r.value;
        && c.token.id in old(state).rows && Due(old(state).rows[c.token.id], now)
        && log == old(log) + [Event(d, Claim(c.token.id, owner, now, now + lease))]
        && OwnActions(log, d) == old(OwnActions(log, d)) + [Claim(c.token.id, owner, now, now + lease)]
        && PhaseOf(state, d) == Claimed(c.token, c.attempts, c.sendStarted)
        && c.token.owner == owner && c.providerKey == old(state).rows[c.token.id].providerKey
    {
      var due := set id | id in state.rows && Due(state.rows[id], now);
      if due == {} {
        assert forall id | id in state.rows && Due(state.rows[id], now) :: id in due;
        return None;
      }
      var id :| id in due;
      Step(Event(d, Claim(id, owner, now, now + lease)));
      var row := state.rows[id];
      return Some(ClaimedNotification(Token(id, owner, row.generation), row.providerKey, row.attempts,
        row.sendStarted));
    }

    method MarkNotificationSendStarted(d: DispatcherId, fault: Fault) returns (r: StoreReply)
      requires Valid() && PhaseOf(state, d).Claimed? && !PhaseOf(state, d).sendStarted
      modifies this
      ensures Valid() && log == old(log) + [Event(d, MarkSendStarted(fault))]
      ensures OwnActions(log, d) == old(OwnActions(log, d)) + [MarkSendStarted(fault)]
      ensures r == if fault != NoFault then StoreError
        else if Holds(old(state).rows, old(PhaseOf(state, d)).token) then Applied else Stale
      ensures PhaseOf(state, d) ==
        if r == Applied then Marked(old(PhaseOf(state, d)).token, old(PhaseOf(state, d)).attempts) else Idle
    {
      var holds := Holds(state.rows, PhaseOf(state, d).token);
      Step(Event(d, MarkSendStarted(fault)));
      return if fault != NoFault then StoreError else if holds then Applied else Stale;
    }

    /** The provider call: it starts, others act meanwhile, it returns. */
    method SendTemplate(d: DispatcherId, outcome: SendOutcome, meanwhile: seq<Event>)
      requires Valid() && PhaseOf(state, d).Marked?
      modifies this
      ensures Valid() && old(log) <= log
      ensures OwnActions(log, d) == old(OwnActions(log, d)) + [Send, Return(outcome)]
      ensures PhaseOf(state, d) == Returned(old(PhaseOf(state, d)).token, old(PhaseOf(state, d)).attempts, outcome)
    {
      SendsAreKept(log, d);
      Step(Event(d, Send));
      Others(d, meanwhile);
      SendsAreKept(log, d);
      Step(Event(d, Return(outcome)));
    }

    /** The process, or the request it serves, ends without concluding. */
    method Die(d: DispatcherId)
      requires Valid() && !PhaseOf(state, d).Idle?
      modifies this
      ensures Valid() && log == old(log) + [Event(d, Crash)] && PhaseOf(state, d) == Idle
      ensures OwnActions(log, d) == old(OwnActions(log, d)) + [Crash]
    {
      Step(Event(d, Crash));
    }

    /** The four finishes: one fenced write, which must be the one that the event stands for. */
    method FinishNotification(d: DispatcherId, t: Token, f: Finish, fault: Fault, a: Action) returns (r: StoreReply)
      requires Valid() && !PhaseOf(state, d).Idle? && PhaseOf(state, d).token == t
      requires Enabled(state, Event(d, a))
      requires (a == GiveUp(fault) && f == FinishAmbiguous(SendAmbiguous))
        || (a == RefuseProvider(fault) && f == FinishBlocked(ProviderUnknown))
        || (a.Conclude? && a.fault == fault
              && f == Verdict(PhaseOf(state, d).outcome, PhaseOf(state, d).attempts, a.readings))
      modifies this
      ensures Valid() && log == old(log) + [Event(d, a)] && PhaseOf(state, d) == Idle
      ensures OwnActions(log, d) == old(OwnActions(log, d)) + [a]
      ensures state.rows ==
        if TakesEffect(old(state).rows, t, fault) then old(state).rows[t.id := FinishRow(old(state).rows[t.id], f)]
          else old(state).rows
      ensures r == if fault != NoFault then StoreError else if Holds(old(state).rows, t) then Applied else Stale
    {
      var holds := Holds(state.rows, t);
      Step(Event(d, a));
      return if fault != NoFault then StoreError else if holds then Applied else Stale;
    }
  }

  /**
   * Everything one pass of processOne meets: faults, the provider, the clock,
   * cancellation and the other dispatchers.
   */
  datatype Environment = Environment(
    markFault: Fault, finishFault: Fault, outcome: SendOutcome, cancelled: bool, readings: Readings,
    others: nat -> seq<Event>)

  /** What processOne may do, by the claim it was given; sent tells whether it got past marking. */
  function Script(claimed: ClaimedNotification, providers: set<string>, env: Environment, sent: bool): seq<Action> {
    if claimed.sendStarted then [GiveUp(env.finishFault)]
    else if claimed.providerKey !in providers then [RefuseProvider(env.finishFault)]
    else if !sent then [MarkSendStarted(env.markFault)]
    else [MarkSendStarted(env.markFault), Send, Return(env.outcome),
          if env.cancelled && !env.outcome.Sent? then Crash else Conclude(env.readings, env.finishFault)]
  }

  /** One pass of a scan: when it claimed, what it got, and whether it sent. */
  datatype Pass = Pass(now: int, claimed: ClaimedNotification, sent: bool)

  /** What a scan does: the claim and the script of each pass, in order. */
  function ScanActions(passes: seq<Pass>, owner: string, providers: set<string>,
      envs: nat -> Environment): seq<Action> {
    if passes == [] then []
    else
      var n := |passes| - 1;
      ScanActions(passes[..n], owner, providers, envs) + PassActions(passes[n], owner, providers, envs(n))
  }

  function PassActions(p: Pass, owner: string, providers: set<string>, env: Environment): seq<Action> {
    [Claim(p.claimed.token.id, owner, p.now, p.now + DISPATCH_LEASE)] + Script(p.claimed, providers, env, p.sent)
  }

  /** A pass claims for five minutes, then does what its script says. */
  lemma PassesClaimFirst(p: Pass, owner: string, providers: set<string>, env: Environment)
    ensures var actions := PassActions(p, owner, providers, env);
      && actions != [] && actions[0] == Claim(p.claimed.token.id, owner, p.now, p.now + 5 * 60 * Backoff.SECOND)
      && actions[1..] == Script(p.claimed, providers, env, p.sent)
  {
  }

  /**
   * What a script comes to. A claim that was started before is given up, one without
   * its provider refused; else it is marked, and what was sent is concluded unless the
   * context ended without an accepted message.
   */
  lemma ScriptMeans(claimed: ClaimedNotification, providers: set<string>, env: Environment, sent: bool)
    ensures var s := Script(claimed, providers, env, sent);
      && ((exists f :: GiveUp(f) in s) <==> claimed.sendStarted)
      && ((exists f :: RefuseProvider(f) in s) <==> !claimed.sendStarted && claimed.providerKey !in providers)
      && (MarkSendStarted(env.markFault) in s <==> !claimed.sendStarted && claimed.providerKey in providers)
      && (forall i | 0 <= i < |s| && s[i] == Send :: i == 1 && s[0] == MarkSendStarted(env.markFault) && sent)
      && (sent && !claimed.sendStarted && claimed.providerKey in providers ==>
            && s[1..3] == [Send, Return(env.outcome)] && |s| == 4
            && (s[3] == Conclude(env.readings, env.finishFault) <==> env.outcome.Sent? || !env.cancelled)
            && (s[3] == Crash <==> !env.outcome.Sent? && env.cancelled))
  {
    var s := Script(claimed, providers, env, sent);
    if claimed.sendStarted || claimed.providerKey !in providers {
      assert s[0] in s;
    } else {
      assert MarkSendStarted(env.markFault) in s by { assert s[0] in s; }
    }
  }

  class Dispatcher {
    const deployment: Deployment
    const me: DispatcherId
    const owner: string
    const providers: set<string>

    constructor (deployment: Deployment, me: DispatcherId, owner: string, providers: set<string>)
      ensures this.deployment == deployment && this.me == me && this.owner == owner && this.providers == providers
    {
      this.deployment := deployment;
      this.me := me;
      this.owner := owner;
      this.providers := providers;
    }

    /** The backoff of the attempt, stretched by the provider's hint up to the cap. */
    method NextAttempt(outcome: SendOutcome, attempts: nat, r: Readings) returns (next: int)
      requires SafelyRetryable(outcome)
      ensures next == RetryAt(outcome, attempts, r)
    {
      var delay := Backoff.CappedDoubling(DISPATCH_BASE_DELAY, DISPATCH_MAX_DELAY, attempts);
      next := r.first + delay;
      if outcome.kind == RateLimited && outcome.retryAfter.Some? {
        var after := outcome.retryAfter.value;
        var hinted := r.second + after;
        if hinted > next && after <= DISPATCH_MAX_DELAY {
          next := hinted;
        } else if after > DISPATCH_MAX_DELAY {
          next := r.third + DISPATCH_MAX_DELAY;
        }
      }
    }

    /**
     * Dispatches one claimed notification. A provider is called at most once, only
     * after the mark took effect under this claim, and then the outcome decides the
     * one finish; the whole pass follows the script.
     */
    method ProcessOne(claimed: ClaimedNotification, env: Environment) returns (sent: bool)
      requires deployment.Valid()
      requires PhaseOf(deployment.state, me) == Claimed(claimed.token, claimed.attempts, claimed.sendStarted)
      modifies deployment
      ensures deployment.Valid() && old(deployment.log) <= deployment.log
      ensures PhaseOf(deployment.state, me) == Idle
      ensures OwnActions(deployment.log, me) ==
        old(OwnActions(deployment.log, me)) + Script(claimed, providers, env, sent)
      ensures sent ==> !claimed.sendStarted && claimed.providerKey in providers && env.markFault == NoFault
    {
      hide Next, Run, OwnActions, RetryAt;
      deployment.Others(me, env.others(0));
      if claimed.sendStarted {
        var _ := deployment.FinishNotification(me, claimed.token, FinishAmbiguous(SendAmbiguous), env.finishFault,
          GiveUp(env.finishFault));
        return false;
      }
      if claimed.providerKey !in providers {
        var _ := deployment.FinishNotification(me, claimed.token, FinishBlocked(ProviderUnknown), env.finishFault,
          RefuseProvider(env.finishFault));
        return false;
      }
      var started := deployment.MarkNotificationSendStarted(me, env.markFault);
      if started != Applied {
        return false;
      }
      deployment.Others(me, env.others(1));
      deployment.SendTemplate(me, env.outcome, env.others(2));
      deployment.Others(me, env.others(3));
      sent := true;
      match env.outcome
      case Sent(messageId) => Conclude(claimed, env, FinishAccepted(messageId));
      case Failed(kind, _) =>
        if env.cancelled {
          deployment.Die(me);
        } else {
          match kind
          case Temporary =>
            var next := NextAttempt(env.outcome, claimed.attempts, env.readings);
            Conclude(claimed, env, FinishRetry(next, ProviderRetry));
          case RateLimited =>
            var next := NextAttempt(env.outcome, claimed.attempts, env.readings);
            Conclude(claimed, env, FinishRetry(next, ProviderRateLimited));
          case AmbiguousError => Conclude(claimed, env, FinishAmbiguous(SendAmbiguous));
          case _ => Conclude(claimed, env, FinishBlocked(ProviderErrorCode(kind)));
        }
      case UnclassifiedError =>
        if env.cancelled {
          deployment.Die(me);
        } else {
          Conclude(claimed, env, FinishAmbiguous(SendAmbiguous));
        }
    }

    method Conclude(claimed: ClaimedNotification, env: Environment, f: Finish)
      requires deployment.Valid()
      requires PhaseOf(deployment.state, me) == Returned(claimed.token, claimed.attempts, env.outcome)
      requires f == Verdict(env.outcome, claimed.attempts, env.readings)
      modifies deployment
      ensures deployment.Valid()
        && deployment.log == old(deployment.log) + [Event(me, Action.Conclude(env.readings, env.finishFault))]
      ensures PhaseOf(deployment.state, me) == Idle
      ensures OwnActions(deployment.log, me) ==
        old(OwnActions(deployment.log, me)) + [Action.Conclude(env.readings, env.finishFault)]
    {
      SendsAreKept(deployment.log, me);
      var _ := deployment.FinishNotification(me, claimed.token, f, env.finishFault,
        Action.Conclude(env.readings, env.finishFault));
    }

    /**
     * One bounded scan: claim, dispatch, and again, until the batch is used up, the
     * context ends, a claim fails or nothing is due. Its own actions are the claims
     * and scripts of its passes and nothing else.
     */
    method Drain(
      claimFails: nat -> bool, cancelled: nat -> bool, now: nat -> int, envs: nat -> Environment,
        others: nat -> seq<Event>)
      returns (passes: seq<Pass>)
      requires deployment.Valid() && PhaseOf(deployment.state, me) == Idle
      modifies deployment
      ensures deployment.Valid() && old(deployment.log) <= deployment.log
      ensures PhaseOf(deployment.state, me) == Idle
      ensures OwnActions(deployment.log, me) == old(OwnActions(deployment.log, me))
        + ScanActions(passes, owner, providers, envs)
      ensures |passes| <= 25
      ensures forall i | 0 <= i < |passes| :: !cancelled(i) && !claimFails(i) && passes[i].now == now(i)
      ensures |passes| < 25 ==>
        || cancelled(|passes|) || claimFails(|passes|)
        || forall id | id in deployment.state.rows :: !Due(deployment.state.rows[id], now(|passes|))
    {
      hide Next, Run, OwnActions, PassActions, Due;
      passes := [];
      for i := 0 to DISPATCHER_BATCH_SIZE
        invariant deployment.Valid() && old(deployment.log) <= deployment.log
        invariant PhaseOf(deployment.state, me) == Idle && |passes| == i
        invariant OwnActions(deployment.log, me) == old(OwnActions(deployment.log, me))
          + ScanActions(passes, owner, providers, envs)
        invariant forall j | 0 <= j < i :: !cancelled(j) && !claimFails(j) && passes[j].now == now(j)
      {
        deployment.Others(me, others(i));
        if cancelled(i) || claimFails(i) {
          return;
        }
        var pass := ClaimAndProcess(now(i), envs(i));
        if pass.None? {
          return;
        }
        ghost var before := passes;
        passes := passes + [pass.value];
        assert passes[..i] == before;
      }
    }

    method ClaimAndProcess(now: int, env: Environment) returns (pass: Option<Pass>)
      requires deployment.Valid() && PhaseOf(deployment.state, me) == Idle
      modifies deployment
      ensures deployment.Valid() && old(deployment.log) <= deployment.log
      ensures PhaseOf(deployment.state, me) == Idle
      ensures pass.None? ==> deployment.log == old(deployment.log) && forall id | id in deployment.state.rows ::
        !Due(deployment.state.rows[id], now)
      ensures pass.Some? ==>
        && pass.value.now == now
        && OwnActions(deployment.log, me) == old(OwnActions(deployment.log, me))
              + PassActions(pass.value, owner, providers, env)
    {
      hide Next, Run, OwnActions, Script, Due;
      var claimed := deployment.ClaimNotification(me, owner, DISPATCH_LEASE, now);
      if claimed.None? {
        return None;
      }
      var sent := ProcessOne(claimed.value, env);
      return Some(Pass(now, claimed.value, sent));
    }
  }
}
