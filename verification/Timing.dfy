/**
 * Connection time against message time: who is owed what (ws_server.c:197-198; lib/msg_queue.c:31,
 * 162-169; lib/thread.c:41-42, 101, 136).
 */
module Timing {
  import opened Timestamp
  import opened Server
  import Delivery
  import Broadcast
  import Ownership
  import Pool
  import Cleanup
  import Ctmp

  /** Everything stamped since an instant at which `size` entries had a timestamp and `clients` clients were known. */
  predicate StampedSince(t: State, since: Time, size: nat, clients: nat) {
    && NotAfter(since, t.clock)
    && (forall e :: size <= e < |t.queue| ==> NotAfter(since, t.queue[e].ts))
    && (t.src.Appending? && size <= |t.queue| ==> NotAfter(since, t.src.entry.ts))
    && (forall k :: 0 <= k < |t.log| && clients <= t.log[k].client ==> NotAfter(since, t.log[k].ts))
    && ((t.dst.Scanning? || t.dst.ScanHolding? || t.dst.Assigning?) && clients <= t.dst.client ==>
          NotAfter(since, t.dst.ts))
  }

  lemma StampedSrc(cfg: Config, t: State, a: Action, since: Time, size: nat, clients: nat)
    requires SrcEnabled(t, a) && StampedSince(t, since, size, clients)
    ensures StampedSince(SrcNext(cfg, t, a), since, size, clients)
  {
    hide Ctmp.Parse;
  }

  lemma StampedDst(t: State, since: Time, size: nat, clients: nat)
    requires DstEnabled(t) && StampedSince(t, since, size, clients)
    ensures StampedSince(DstNext(t), since, size, clients)
  {
  }

  lemma StampedStep(cfg: Config, t: State, a: Action, since: Time, size: nat, clients: nat)
    requires Enabled(t, a) && StampedSince(t, since, size, clients)
    ensures StampedSince(Step(cfg, t, a), since, size, clients)
  {
    hide WorkerAfter;
    hide DstNext;
    hide SrcNext;
    match a {
      case WorkerStep(_, _) =>
      case DstStep => StampedDst(t, since, size, clients);
      case CleanerStep =>
      case Tick(_) =>
      case _ => StampedSrc(cfg, t, a, since, size, clients);
    }
  }

  /** The entries that have their timestamp: those in the queue and the one about to be appended. */
  function Stamped(s: State): nat {
    |s.queue| + (if s.src.Appending? then 1 else 0)
  }

  lemma OwnersKnown(s: State)
    requires Ownership.OwnershipInv(s)
    ensures forall k :: 0 <= k < |s.log| ==> s.log[k].client < s.clients
    ensures !s.dst.Accepting? ==> s.dst.client < s.clients
  {
    hide Ownership.OwnerOK;
  }

  lemma {:induction false} StampedRun(cfg: Config, s: State, actions: seq<Action>)
    requires Reachable(cfg, s) && ExecFrom(cfg, s, actions).Some?
    ensures StampedSince(ExecFrom(cfg, s, actions).value, s.clock, Stamped(s), s.clients)
  {
    hide Step;
    hide Enabled;
    if actions == [] {
      Ownership.OwnershipReachable(cfg, s);
      OwnersKnown(s);
    } else {
      var before := actions[..|actions| - 1];
      StampedRun(cfg, s, before);
      StampedStep(cfg, ExecFrom(cfg, s, before).value, actions[|actions| - 1], s.clock, Stamped(s), s.clients);
    }
  }

  lemma QueueNotAhead(cfg: Config, s: State, e: nat)
    requires Reachable(cfg, s) && e < |s.queue|
    ensures NotAfter(s.queue[e].ts, s.clock)
  {
    Delivery.DeliveryReachable(cfg, s);
    hide Delivery.WorkerInv;
  }

  /**
   * Nothing from before: a client accepted after `s` never gets, and its worker never even tries
   * to send it, an entry that was in the queue at `s`.
   */
  lemma NoEarlierMessage(cfg: Config, s: State, actions: seq<Action>, i: nat, k: nat, e: nat)
    requires Reachable(cfg, s) && ExecFrom(cfg, s, actions).Some?
    requires i < |ExecFrom(cfg, s, actions).value.workers|
    requires k < |Delivery.SessionsOf(ExecFrom(cfg, s, actions).value.workers[i])|
    requires Delivery.SessionsOf(ExecFrom(cfg, s, actions).value.workers[i])[k].client >= s.clients
    requires e < |s.queue|
    ensures e !in Delivery.SessionsOf(ExecFrom(cfg, s, actions).value.workers[i])[k].attempts
  {
    var t := ExecFrom(cfg, s, actions).value;
    var x := Delivery.SessionsOf(t.workers[i])[k];
    StampedRun(cfg, s, actions);
    Cleanup.QueueGrowsFrom(cfg, s, actions);
    ExecFromReachable(cfg, s, actions);
    hide ExecFrom;
    hide Reachable;
    Ownership.SessionIsLogged(cfg, t, i, k);
    assert NotAfter(s.clock, x.ts);
    QueueNotAhead(cfg, s, e);
    assert Broadcast.IsSession(t, i, x);
    Broadcast.Slice(cfg, t, i, x);
  }

  /**
   * Everything from after: an entry stamped after `s` is newer than every client handed over
   * before, as soon as the clock has moved on since that client was accepted.
   */
  lemma LaterMessageIsOwed(cfg: Config, s: State, actions: seq<Action>, client: Assignment, e: nat)
    requires Reachable(cfg, s) && ExecFrom(cfg, s, actions).Some?
    requires client in s.log && Before(client.ts, s.clock)
    requires Stamped(s) <= e < |ExecFrom(cfg, s, actions).value.queue|
    ensures Before(client.ts, ExecFrom(cfg, s, actions).value.queue[e].ts)
  {
    StampedRun(cfg, s, actions);
    hide ExecFrom;
  }

  // The instant of acceptance.

  /** Wherever `client` is, on its way or handed over, it carries the timestamp `since`. */
  predicate StampIs(t: State, client: nat, since: Time) {
    && client < t.clients
    && (forall k :: 0 <= k < |t.log| && t.log[k].client == client ==> t.log[k].ts == since)
    && (!t.dst.Accepting? && t.dst.client == client ==> !t.dst.Accepted? && t.dst.ts == since)
  }

  lemma StampIsDst(t: State, client: nat, since: Time)
    requires DstEnabled(t) && StampIs(t, client, since)
    ensures StampIs(DstNext(t), client, since)
  {
  }

  lemma StampIsStep(cfg: Config, t: State, a: Action, client: nat, since: Time)
    requires Enabled(t, a) && StampIs(t, client, since)
    ensures StampIs(Step(cfg, t, a), client, since)
  {
    hide WorkerAfter;
    hide CellsAfter;
    hide DstNext;
    if a.WorkerStep? {
    } else if a.DstStep? {
      StampIsDst(t, client, since);
    } else {
      hide Step;
      Pool.OthersLeavePool(cfg, t, a);
    }
  }

  lemma {:induction false} StampIsRun(cfg: Config, s: State, actions: seq<Action>, client: nat, since: Time)
    requires StampIs(s, client, since) && ExecFrom(cfg, s, actions).Some?
    ensures StampIs(ExecFrom(cfg, s, actions).value, client, since)
  {
    hide Step;
    hide Enabled;
    hide StampIs;
    if actions == [] {
    } else {
      var before := actions[..|actions| - 1];
      StampIsRun(cfg, s, before, client, since);
      StampIsStep(cfg, ExecFrom(cfg, s, before).value, actions[|actions| - 1], client, since);
    }
  }

  /**
   * A client keeps the timestamp of its acceptance however long it waits for a worker: in every
   * run from the step that takes the timestamp, its entry in the log carries the clock of that step.
   */
  lemma StampedAtAcceptance(cfg: Config, s: State, actions: seq<Action>, k: nat)
    requires Reachable(cfg, s) && s.fault.None? && s.dst.Accepted?
    requires ExecFrom(cfg, Step(cfg, s, DstStep), actions).Some?
    requires k < |ExecFrom(cfg, Step(cfg, s, DstStep), actions).value.log|
    requires ExecFrom(cfg, Step(cfg, s, DstStep), actions).value.log[k].client == s.dst.client
    ensures ExecFrom(cfg, Step(cfg, s, DstStep), actions).value.log[k].ts == s.clock
  {
    Ownership.OwnershipReachable(cfg, s);
    hide Ownership.OwnerOK;
    var s' := Step(cfg, s, DstStep);
    assert StampIs(s', s.dst.client, s.clock);
    StampIsRun(cfg, s', actions, s.dst.client, s.clock);
    hide ExecFrom;
  }

  /**
   * Who is owed what, in terms of the clock at acceptance: the session of a client has attempted
   * exactly the entries it has examined that were stamped after the client was accepted.
   */
  lemma OwedSinceAcceptance(cfg: Config, s: State, actions: seq<Action>, i: nat, x: Session)
    requires Reachable(cfg, s) && s.fault.None? && s.dst.Accepted?
    requires ExecFrom(cfg, Step(cfg, s, DstStep), actions).Some?
    requires Broadcast.IsSession(ExecFrom(cfg, Step(cfg, s, DstStep), actions).value, i, x)
    requires x.client == s.dst.client
    ensures var t := ExecFrom(cfg, Step(cfg, s, DstStep), actions).value;
            && x.ts == s.clock && x.hi <= |t.queue|
            && forall e :: e in x.attempts <==> x.start <= e < x.hi && Before(s.clock, t.queue[e].ts)
  {
    hide Reachable;
    hide Step;
    var s' := Step(cfg, s, DstStep);
    StepReachable(cfg, s, DstStep);
    ExecFromReachable(cfg, s', actions);
    var t := ExecFrom(cfg, s', actions).value;
    var xs := Delivery.SessionsOf(t.workers[i]);
    var k :| 0 <= k < |xs| && xs[k] == x;
    Ownership.SessionIsLogged(cfg, t, i, k);
    var l :| 0 <= l < |t.log| && t.log[l] == Assignment(x.client, x.ts, i);
    StampedAtAcceptance(cfg, s, actions, l);
    hide ExecFrom;
    Broadcast.Slice(cfg, t, i, x);
  }
}
