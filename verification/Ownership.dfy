/**
 * Who serves whom: every accepted client is handed over exactly once, in order, and the sessions
 * of a worker are exactly the clients handed to it (ws_server.c:190-229; lib/thread.c:83-141).
 */
module Ownership {
  import opened Common
  import opened Server
  import Pool
  import Delivery

  /** The clients handed to worker `i`, in order. */
  function LogOf(log: seq<Assignment>, i: nat): seq<Assignment> {
    if log == [] then []
    else
      var last := log[|log| - 1];
      LogOf(log[..|log| - 1], i) + (if last.worker == i then [last] else [])
  }

  lemma LogOfAppend(log: seq<Assignment>, x: Assignment, i: nat)
    ensures LogOf(log + [x], i) == LogOf(log, i) + (if x.worker == i then [x] else [])
  {
    assert (log + [x])[..|log|] == log;
  }

  /** The destination server has a client that it has not handed over yet. */
  predicate Undecided(d: Dst) {
    match d {
      case Accepting => false
      case Assigning(stage, _, _, _, _) =>
        stage.Switch? || stage.InitArgs? || stage.WakeAssert? || stage.WakeLock? || stage.WakeArgs?
      case _ => true
    }
  }

  /** Handed over, but the timestamp is still to be copied. */
  predicate StampPending(d: Dst, i: nat) {
    d.Assigning? && d.i == i
    && (d.stage.InitWant? || d.stage.InitSet? || d.stage.InitTs?
        || d.stage.WakeWant? || d.stage.WakeSet? || d.stage.WakeTs?)
  }

  /** Clients are numbered as they are accepted; the log has them all except the one in hand. */
  predicate LogOK(s: State) {
    && (forall k :: 0 <= k < |s.log| ==> s.log[k].client == k)
    && |s.log| + (if Undecided(s.dst) then 1 else 0) == s.clients
    && (Undecided(s.dst) ==> s.dst.client == |s.log|)
    && (!s.dst.Accepting? ==> s.dst.client < s.clients)
  }

  /** The worker has been given a client whose session has not begun. */
  predicate Given(w: Worker) {
    w.status == Busy
    && (w.pc.Unborn? || w.pc.Check? || w.pc.Wait? || w.pc.Relock? || w.pc.ResetTest? || w.pc.ResetDo? || w.pc.Resume?)
  }

  /** Sessions against the log of one worker. */
  predicate OwnerOK(i: nat, w: Worker, ls: seq<Assignment>, d: Dst) {
    var xs := Delivery.SessionsOf(w);
    && (w.pc.Unborn? ==> w.past == [])
    && |ls| == |xs| + (if Given(w) then 1 else 0)
    && (forall k :: 0 <= k < |xs| ==> xs[k].client == ls[k].client && xs[k].ts == ls[k].ts)
    && (Given(w) ==>
          && w.client == ls[|xs|].client
          && (if StampPending(d, i) then ls[|xs|] == Assignment(d.client, d.ts, i) else w.ts == ls[|xs|].ts))
  }

  predicate OwnershipInv(s: State) {
    LogOK(s) && forall i :: 0 <= i < |s.workers| ==> OwnerOK(i, s.workers[i], LogOf(s.log, i), s.dst)
  }

  lemma ServeStays(q: seq<Entry>, cells: seq<Cell>, i: nat, w: Worker, c: Choice)
    requires CanStep(q, cells, w, c) && Serving(w.pc)
    ensures var after := ServeAfter(q, cells, i, w, c);
            after.Some? ==> (Serving(after.value.pc) || after.value.pc.LockSelf?) && after.value.status == w.status
  {
    hide CanForward;
  }

  lemma ServeOwner(q: seq<Entry>, cells: seq<Cell>, i: nat, w: Worker, c: Choice, ls: seq<Assignment>, d: Dst)
    requires CanStep(q, cells, w, c) && Serving(w.pc) && OwnerOK(i, w, ls, d)
    ensures var after := ServeAfter(q, cells, i, w, c);
            after.Some? ==> OwnerOK(i, after.value, ls, d)
  {
    Delivery.ServeKeeps(q, cells, i, w, c);
    ServeStays(q, cells, i, w, c);
    hide ServeAfter;
  }

  lemma ParkOwner(q: seq<Entry>, cells: seq<Cell>, i: nat, w: Worker, c: Choice, bit: bool, ls: seq<Assignment>, d: Dst)
    requires CanStep(q, cells, w, c) && !Serving(w.pc) && OwnerOK(i, w, ls, d)
    requires Pool.Compatible(i, w, bit, Pool.StageFor(d, i))
    ensures var after := ParkAfter(q, cells, i, w, c);
            after.Some? ==> OwnerOK(i, after.value, ls, d)
  {
    var after := ParkAfter(q, cells, i, w, c);
    if after.Some? {
      var xs, ys := Delivery.SessionsOf(w), Delivery.SessionsOf(after.value);
      if w.pc.Resume? {
        assert ys == xs + [after.value.sess];
        assert !StampPending(d, i);
      } else {
        assert ys == xs;
      }
    }
  }

  lemma OwnershipWorker(cfg: Config, s: State, i: nat, c: Choice)
    requires OwnershipInv(s) && Pool.PoolInv(cfg, s) && WorkerEnabled(s, i, c)
    ensures OwnershipInv(WorkerNext(s, i, c))
  {
    hide OwnerOK;
    hide CellsAfter;
    var w := s.workers[i];
    assert Pool.Compatible(i, w, i in s.mask, Pool.StageFor(s.dst, i));
    hide Pool.Compatible;
    if Serving(w.pc) {
      ServeOwner(s.queue, s.cells, i, w, c, LogOf(s.log, i), s.dst);
    } else {
      ParkOwner(s.queue, s.cells, i, w, c, i in s.mask, LogOf(s.log, i), s.dst);
    }
    hide ServeAfter;
    hide ParkAfter;
  }

  /** One stage of an assignment, for the worker it is about. */
  predicate StageOwnerReady(s: State, bit: bool) {
    && s.dst.Assigning? && DstEnabled(s)
    && Pool.Compatible(s.dst.i, s.workers[s.dst.i], bit, Some(s.dst.stage))
    && OwnerOK(s.dst.i, s.workers[s.dst.i], LogOf(s.log, s.dst.i), s.dst)
  }

  lemma InitStageOwner(s: State, bit: bool)
    requires StageOwnerReady(s, bit) && !Pool.WakeStage(s.dst.stage)
    ensures var i, s' := s.dst.i, DstNext(s);
            i < |s'.workers| && OwnerOK(i, s'.workers[i], LogOf(s'.log, i), s'.dst)
  {
    hide LogOf;
    if s.dst.stage.InitArgs? {
      LogOfAppend(s.log, Assignment(s.dst.client, s.dst.ts, s.dst.i), s.dst.i);
    }
  }

  lemma WakeStageOwner(s: State, bit: bool)
    requires StageOwnerReady(s, bit) && Pool.WakeStage(s.dst.stage)
    ensures var i, s' := s.dst.i, DstNext(s);
            i < |s'.workers| && OwnerOK(i, s'.workers[i], LogOf(s'.log, i), s'.dst)
  {
    hide LogOf;
    if s.dst.stage.WakeArgs? {
      LogOfAppend(s.log, Assignment(s.dst.client, s.dst.ts, s.dst.i), s.dst.i);
    }
  }

  /** Nothing about another worker depends on the assignment in progress. */
  lemma OtherOwner(j: nat, w: Worker, ls: seq<Assignment>, d: Dst, d': Dst)
    requires OwnerOK(j, w, ls, d) && !StampPending(d, j) && !StampPending(d', j)
    ensures OwnerOK(j, w, ls, d')
  {
  }

  lemma StatusAtDecision(i: nat, w: Worker, bit: bool, stage: Stage)
    requires Pool.Compatible(i, w, bit, Some(stage))
    ensures stage.Switch? ==> w.status != Busy
    ensures stage.WakeAssert? ==> w.status == Ready
  {
  }

  lemma DstLog(s: State)
    requires LogOK(s) && s.dst.Assigning? && DstEnabled(s)
    requires s.dst.stage.Switch? ==> s.workers[s.dst.i].status != Busy
    requires s.dst.stage.WakeAssert? ==> s.workers[s.dst.i].status == Ready
    ensures var s' := DstNext(s);
            && LogOK(s')
            && (s'.log == s.log || s'.log == s.log + [Assignment(s.dst.client, s.dst.ts, s.dst.i)])
            && (s'.dst.Accepting? || (s'.dst.Assigning? && s'.dst.i == s.dst.i))
  {
  }

  lemma OwnershipAssigning(cfg: Config, s: State)
    requires OwnershipInv(s) && Pool.PoolInv(cfg, s) && s.dst.Assigning? && DstEnabled(s)
    ensures OwnershipInv(DstNext(s))
  {
    hide DstNext;
    hide OwnerOK;
    hide LogOf;
    hide LogOK;
    hide Pool.Compatible;
    var i, s' := s.dst.i, DstNext(s);
    assert Pool.Compatible(i, s.workers[i], i in s.mask, Some(s.dst.stage));
    StatusAtDecision(i, s.workers[i], i in s.mask, s.dst.stage);
    if Pool.WakeStage(s.dst.stage) {
      WakeStageOwner(s, i in s.mask);
    } else {
      InitStageOwner(s, i in s.mask);
    }
    DstLog(s);
    Delivery.DstTouches(cfg, s);
    forall j | 0 <= j < |s.workers| && j != i
      ensures OwnerOK(j, s.workers[j], LogOf(s'.log, j), s'.dst)
    {
      LogOfAppend(s.log, Assignment(s.dst.client, s.dst.ts, i), j);
      assert LogOf(s.log, j) + [] == LogOf(s.log, j);
      assert LogOf(s'.log, j) == LogOf(s.log, j);
      OtherOwner(j, s.workers[j], LogOf(s'.log, j), s.dst, s'.dst);
    }
  }

  lemma OwnershipDst(cfg: Config, s: State)
    requires OwnershipInv(s) && Pool.PoolInv(cfg, s) && DstEnabled(s)
    ensures OwnershipInv(DstNext(s))
  {
    if s.dst.Assigning? {
      OwnershipAssigning(cfg, s);
    } else {
      forall j | 0 <= j < |s.workers|
        ensures OwnerOK(j, s.workers[j], LogOf(s.log, j), DstNext(s).dst)
      {
        OtherOwner(j, s.workers[j], LogOf(s.log, j), s.dst, DstNext(s).dst);
      }
      hide OwnerOK;
    }
  }

  lemma OwnershipStep(cfg: Config, s: State, a: Action)
    requires OwnershipInv(s) && Pool.PoolInv(cfg, s) && Enabled(s, a)
    ensures OwnershipInv(Step(cfg, s, a))
  {
    hide Pool.PoolInv;
    hide OwnerOK;
    if a.WorkerStep? {
      hide OwnershipInv;
      hide WorkerNext;
      OwnershipWorker(cfg, s, a.w, a.choice);
    } else if a.DstStep? {
      hide OwnershipInv;
      hide DstNext;
      OwnershipDst(cfg, s);
    } else {
      hide Step;
      Pool.OthersLeavePool(cfg, s, a);
    }
  }

  lemma {:induction false} OwnershipRun(cfg: Config, actions: seq<Action>)
    requires Exec(cfg, actions).Some?
    ensures OwnershipInv(Exec(cfg, actions).value)
  {
    hide Pool.PoolInv;
    hide Step;
    hide Enabled;
    if actions == [] {
    } else {
      hide OwnershipInv;
      var before := actions[..|actions| - 1];
      OwnershipRun(cfg, before);
      Pool.PoolInvRun(cfg, before);
      OwnershipStep(cfg, Exec(cfg, before).value, actions[|actions| - 1]);
    }
  }

  lemma OwnershipReachable(cfg: Config, s: State)
    requires Reachable(cfg, s)
    ensures OwnershipInv(s)
  {
    hide OwnershipInv;
    var actions :| Exec(cfg, actions) == Some(s);
    OwnershipRun(cfg, actions);
  }

  // What it means.

  lemma {:induction false} LogOfMember(log: seq<Assignment>, i: nat, k: nat)
    requires k < |LogOf(log, i)|
    ensures LogOf(log, i)[k] in log && LogOf(log, i)[k].worker == i
  {
    var before := log[..|log| - 1];
    if k == |LogOf(before, i)| {
    } else {
      LogOfMember(before, i, k);
    }
  }

  lemma {:induction false} LogOfContains(log: seq<Assignment>, k: nat)
    requires k < |log|
    ensures log[k] in LogOf(log, log[k].worker)
  {
    if k == |log| - 1 {
    } else {
      LogOfContains(log[..|log| - 1], k);
    }
  }

  /** Clients are only handed to workers of the pool. */
  predicate LogInPool(s: State) {
    forall k :: 0 <= k < |s.log| ==> s.log[k].worker < |s.workers|
  }

  lemma LogInPoolStep(cfg: Config, s: State, a: Action)
    requires LogInPool(s) && Enabled(s, a)
    ensures LogInPool(Step(cfg, s, a))
  {
    hide WorkerAfter;
    hide CellsAfter;
    hide SrcNext;
    hide CleanerNext;
    if a.WorkerStep? || a.DstStep? {
    } else {
      hide Step;
      Pool.OthersLeavePool(cfg, s, a);
    }
  }

  lemma {:induction false} LogInPoolRun(cfg: Config, actions: seq<Action>)
    requires Exec(cfg, actions).Some?
    ensures LogInPool(Exec(cfg, actions).value)
  {
    hide Step;
    hide Enabled;
    if actions == [] {
    } else {
      hide LogInPool;
      var before := actions[..|actions| - 1];
      LogInPoolRun(cfg, before);
      LogInPoolStep(cfg, Exec(cfg, before).value, actions[|actions| - 1]);
    }
  }

  /** The worker's sessions and, while it has a client whose session has not begun, that client. */
  predicate HasOrHad(w: Worker, client: nat) {
    (exists x :: x in Delivery.SessionsOf(w) && x.client == client) || (Given(w) && w.client == client)
  }

  lemma LoggedIsHeld(i: nat, w: Worker, ls: seq<Assignment>, d: Dst, client: nat)
    requires OwnerOK(i, w, ls, d) && exists x :: x in ls && x.client == client
    ensures HasOrHad(w, client)
  {
    var xs := Delivery.SessionsOf(w);
    var x :| x in ls && x.client == client;
    var k :| 0 <= k < |ls| && ls[k] == x;
    if k < |xs| {
      assert xs[k] in xs;
    }
  }

  /**
   * Every accepted client but the one in hand was handed to exactly one worker, exactly once, in
   * the order of acceptance; that worker serves it, has served it, or is about to.
   */
  lemma EachClientHandedOnce(cfg: Config, s: State, client: nat)
    requires Reachable(cfg, s) && client < s.clients
    ensures (client < |s.log| && s.log[client].client == client)
            || (Undecided(s.dst) && s.dst.client == client && client == |s.log|)
    ensures forall k, l :: 0 <= k < |s.log| && 0 <= l < |s.log| && s.log[k].client == s.log[l].client ==> k == l
    ensures client < |s.log| ==>
              && s.log[client].worker < |s.workers|
              && HasOrHad(s.workers[s.log[client].worker], client)
  {
    OwnershipReachable(cfg, s);
    if client < |s.log| {
      var actions :| Exec(cfg, actions) == Some(s);
      LogInPoolRun(cfg, actions);
      var i := s.log[client].worker;
      assert OwnerOK(i, s.workers[i], LogOf(s.log, i), s.dst);
      hide OwnerOK;
      hide HasOrHad;
      LogOfContains(s.log, client);
      LoggedIsHeld(i, s.workers[i], LogOf(s.log, i), s.dst, client);
    }
  }

  /** A session runs on the worker its client was handed to, with the timestamp taken when it was accepted. */
  lemma SessionIsLogged(cfg: Config, s: State, i: nat, k: nat)
    requires Reachable(cfg, s) && i < |s.workers| && k < |Delivery.SessionsOf(s.workers[i])|
    ensures var x := Delivery.SessionsOf(s.workers[i])[k];
            Assignment(x.client, x.ts, i) in s.log
  {
    OwnershipReachable(cfg, s);
    assert OwnerOK(i, s.workers[i], LogOf(s.log, i), s.dst);
    LogOfMember(s.log, i, k);
  }

  /** The log of one worker names no client twice. */
  lemma {:induction false} LogOfDistinct(log: seq<Assignment>, i: nat, k: nat, l: nat)
    requires forall m :: 0 <= m < |log| ==> log[m].client == m
    requires k < l < |LogOf(log, i)|
    ensures LogOf(log, i)[k].client != LogOf(log, i)[l].client
  {
    var before := log[..|log| - 1];
    LogOfMember(before, i, k);
    if l == |LogOf(before, i)| {
    } else {
      LogOfDistinct(before, i, k, l);
    }
  }

  /** Every client has at most one session, over all workers and their whole past. */
  lemma OneSessionPerClient(cfg: Config, s: State, i: nat, k: nat, j: nat, l: nat)
    requires Reachable(cfg, s) && i < |s.workers| && k < |Delivery.SessionsOf(s.workers[i])|
    requires j < |s.workers| && l < |Delivery.SessionsOf(s.workers[j])|
    requires Delivery.SessionsOf(s.workers[i])[k].client == Delivery.SessionsOf(s.workers[j])[l].client
    ensures i == j && k == l
  {
    SessionIsLogged(cfg, s, i, k);
    SessionIsLogged(cfg, s, j, l);
    OwnershipReachable(cfg, s);
    assert OwnerOK(i, s.workers[i], LogOf(s.log, i), s.dst);
    hide Reachable;
    if k < l {
      LogOfDistinct(s.log, i, k, l);
    } else if l < k {
      LogOfDistinct(s.log, i, l, k);
    }
  }
}
