/**
 * The worker-pool protocol: three statuses, a busy mask and a lock per worker against a scan that
 * gives the mask lock back between bits (ws_server.c:143-161, 189-230; lib/thread.c:56-141).
 */
module Pool {
  import opened Common
  import opened Server
  import Ctmp

  /** The stage of an assignment in progress, for the worker it is about. */
  function StageFor(d: Dst, i: nat): Option<Stage> {
    if d.Assigning? && d.i == i then Some(d.stage) else None
  }

  /** Program points after the new client has been noticed. */
  predicate Taking(pc: WorkerPc) {
    pc.ResetTest? || pc.ResetDo? || pc.Resume?
  }

  /** In the wait loop of ws_server.c:152-154, holding the lock exactly at the test of the condition. */
  predicate InWaitLoop(i: nat, w: Worker) {
    (w.pc.Check? && w.lock == Some(WorkerThread(i))) || ((w.pc.Wait? || w.pc.Relock?) && w.lock.None?)
  }

  predicate Parked(i: nat, w: Worker) {
    InWaitLoop(i, w) && w.status == Ready
  }

  /** The worker is stopped inside the wait loop while the destination server has its lock. */
  predicate Held(w: Worker) {
    (w.pc.Wait? || w.pc.Relock?) && w.lock == Some(DstThread)
  }

  /** How a worker, its mask bit and the destination server's stage fit together. */
  predicate Compatible(i: nat, w: Worker, bit: bool, stage: Option<Stage>) {
    match stage {
      case None =>
        if w.pc.Unborn? then w.status == Available && !bit && w.lock.None?
        else if Serving(w.pc) || w.pc.LockSelf? then w.status == Busy && bit && w.lock.None?
        else if w.pc.SetReady? then w.status == Busy && bit && w.lock == Some(WorkerThread(i))
        else if w.pc.WantMask? || w.pc.ClearBit? then w.status == Ready && bit && w.lock == Some(WorkerThread(i))
        else if Taking(w.pc) then w.status == Busy && bit && w.lock == Some(WorkerThread(i))
        else (Parked(i, w) && !bit) || (InWaitLoop(i, w) && !w.pc.Wait? && w.status == Busy && bit)
      case Some(st) =>
        match st {
          case Switch => !bit && ((w.pc.Unborn? && w.status == Available && w.lock.None?) || Parked(i, w))
          case InitArgs => !bit && w.pc.Unborn? && w.status == Available && w.lock.None?
          case InitWant => !bit && w.pc.Unborn? && w.status == Busy && w.lock.None?
          case InitSet => !bit && w.pc.Unborn? && w.status == Busy && w.lock.None?
          case InitTs => bit && w.pc.Unborn? && w.status == Busy && w.lock.None?
          case Create => bit && w.pc.Unborn? && w.status == Busy && w.lock.None?
          case WakeAssert => !bit && Parked(i, w)
          case WakeLock => !bit && Parked(i, w)
          case WakeArgs => !bit && Held(w) && w.status == Ready
          case WakeWant => !bit && Held(w) && w.status == Busy
          case WakeSet => !bit && Held(w) && w.status == Busy
          case WakeTs => bit && Held(w) && w.status == Busy
          case WakeSignal => bit && Held(w) && w.status == Busy
          case WakeUnlock => bit && Held(w) && w.status == Busy && w.pc.Relock?
        }
    }
  }

  /** The destination server holds the mask lock. */
  predicate DstHasMask(d: Dst) {
    d.ScanHolding? || (d.Assigning? && (d.stage.InitSet? || d.stage.WakeSet?))
  }

  /** What a scan in progress knows about the mask at its start. */
  predicate ScanOK(s: State) {
    match s.dst {
      case Scanning(_, _, i, snap) => s.mask <= snap && i <= |s.workers| && forall j :: 0 <= j < i ==> j in snap
      case ScanHolding(_, _, i, snap) => s.mask <= snap && i < |s.workers| && forall j :: 0 <= j < i ==> j in snap
      case Assigning(_, _, _, i, snap) => i < |s.workers| && forall j :: 0 <= j < i ==> j in snap
      case _ => true
    }
  }

  predicate PoolInv(cfg: Config, s: State) {
    && |s.workers| == cfg.workers
    && (forall i :: 0 <= i < |s.workers| ==> Compatible(i, s.workers[i], i in s.mask, StageFor(s.dst, i)))
    && (forall i :: i in s.mask ==> i < |s.workers|)
    && (s.maskLock == Some(DstThread) <==> DstHasMask(s.dst))
    && (forall i :: 0 <= i < |s.workers| ==> (s.workers[i].pc.ClearBit? <==> s.maskLock == Some(WorkerThread(i))))
    && (s.maskLock.Some? && s.maskLock.value.WorkerThread? ==> s.maskLock.value.index < |s.workers|)
    && ScanOK(s)
    && (s.fault.Some? ==> s.fault.value.UseAfterFree?)
  }

  lemma PoolInvInit(cfg: Config)
    ensures PoolInv(cfg, Init(cfg))
  {
  }

  /** What one step of worker `i` may do to the shared pool state. */
  predicate OwnStep(s: State, s': State, i: nat)
    requires i < |s.workers|
  {
    && |s'.workers| == |s.workers|
    && s'.workers == s.workers[i := s'.workers[i]]
    && (s'.mask == s.mask || s'.mask == s.mask - {i})
    && s'.dst == s.dst
    && (s'.maskLock == s.maskLock
        || (s.maskLock.None? && s'.maskLock == Some(WorkerThread(i)))
        || (s.maskLock == Some(WorkerThread(i)) && s'.maskLock.None?))
    && (s'.workers[i].pc.ClearBit? <==> s'.maskLock == Some(WorkerThread(i)))
    && (s'.fault == s.fault || (s'.fault.Some? && s'.fault.value.UseAfterFree?))
  }

  /** The worker's own part of the invariant follows from that part alone. */
  lemma ServeKeepsCompatible(q: seq<Entry>, cells: seq<Cell>, i: nat, w: Worker, c: Choice, stage: Option<Stage>)
    requires CanStep(q, cells, w, c) && Serving(w.pc) && Compatible(i, w, true, stage)
    ensures var after := ServeAfter(q, cells, i, w, c);
            after.Some? ==> Compatible(i, after.value, true, stage) && !after.value.pc.ClearBit?
  {
    hide CanForward;
  }

  lemma ParkKeepsCompatible(q: seq<Entry>, cells: seq<Cell>, i: nat, w: Worker, c: Choice,
                            bit: bool, stage: Option<Stage>)
    requires CanStep(q, cells, w, c) && !Serving(w.pc) && Compatible(i, w, bit, stage)
    ensures var after := ParkAfter(q, cells, i, w, c);
            after.Some? ==>
              && Compatible(i, after.value, if w.pc.ClearBit? then false else bit, stage)
              && (after.value.pc.ClearBit? <==> w.pc.WantMask?)
  {
  }

  lemma WorkerOwnStep(s: State, i: nat, c: Choice)
    requires WorkerEnabled(s, i, c)
    requires Compatible(i, s.workers[i], i in s.mask, StageFor(s.dst, i))
    requires s.workers[i].pc.ClearBit? <==> s.maskLock == Some(WorkerThread(i))
    ensures var s' := WorkerNext(s, i, c);
            OwnStep(s, s', i) && Compatible(i, s'.workers[i], i in s'.mask, StageFor(s'.dst, i))
  {
    hide ServeAfter;
    hide ParkAfter;
    hide CellsAfter;
    var w := s.workers[i];
    if Serving(w.pc) {
      ServeKeepsCompatible(s.queue, s.cells, i, w, c, StageFor(s.dst, i));
    } else {
      ParkKeepsCompatible(s.queue, s.cells, i, w, c, i in s.mask, StageFor(s.dst, i));
    }
  }

  lemma PoolInvWorker(cfg: Config, s: State, i: nat, c: Choice)
    requires PoolInv(cfg, s) && s.fault.None? && WorkerEnabled(s, i, c)
    ensures PoolInv(cfg, WorkerNext(s, i, c))
  {
    hide WorkerNext;
    hide Compatible;
    WorkerOwnStep(s, i, c);
  }

  predicate WakeStage(st: Stage) {
    st.WakeAssert? || st.WakeLock? || st.WakeArgs? || st.WakeWant? || st.WakeSet? || st.WakeTs?
    || st.WakeSignal? || st.WakeUnlock?
  }

  predicate StageReady(s: State) {
    && s.dst.Assigning? && DstEnabled(s)
    && Compatible(s.dst.i, s.workers[s.dst.i], s.dst.i in s.mask, Some(s.dst.stage))
    && (s.maskLock == Some(DstThread) <==> DstHasMask(s.dst))
  }

  /** What one stage of an assignment to worker `i` may do to the shared pool state. */
  predicate StageStep(s: State, s': State, i: nat)
    requires i < |s.workers| && s.dst.Assigning?
  {
    && |s'.workers| == |s.workers|
    && s'.workers == s.workers[i := s'.workers[i]]
    && (s'.mask == s.mask || s'.mask == s.mask + {i})
    && (s'.dst.Accepting? || (s'.dst.Assigning? && s'.dst.i == i && s'.dst.snap == s.dst.snap))
    && (s'.maskLock == s.maskLock
        || (s.maskLock.None? && s'.maskLock == Some(DstThread))
        || (s.maskLock == Some(DstThread) && s'.maskLock.None?))
    && (s'.maskLock == Some(DstThread) <==> DstHasMask(s'.dst))
    && (s'.workers[i].pc.ClearBit? <==> s.workers[i].pc.ClearBit?)
    && s'.fault == s.fault
  }

  predicate StageDone(s: State, s': State)
    requires s.dst.Assigning? && s.dst.i < |s.workers|
  {
    var i := s.dst.i;
    StageStep(s, s', i) && Compatible(i, s'.workers[i], i in s'.mask, StageFor(s'.dst, i))
  }

  lemma InitStageKeepsCompatible(s: State)
    requires StageReady(s) && !WakeStage(s.dst.stage)
    ensures StageDone(s, DstNext(s))
  {
  }

  lemma WakeStageKeepsCompatible(s: State)
    requires StageReady(s) && WakeStage(s.dst.stage)
    ensures StageDone(s, DstNext(s))
  {
  }

  lemma PoolInvAssigning(cfg: Config, s: State)
    requires PoolInv(cfg, s) && s.dst.Assigning? && s.fault.None? && DstEnabled(s)
    ensures PoolInv(cfg, DstNext(s))
  {
    hide DstNext;
    hide Compatible;
    if WakeStage(s.dst.stage) {
      WakeStageKeepsCompatible(s);
    } else {
      InitStageKeepsCompatible(s);
    }
  }

  lemma PoolInvDst(cfg: Config, s: State)
    requires PoolInv(cfg, s) && s.fault.None? && DstEnabled(s)
    ensures PoolInv(cfg, DstNext(s))
  {
    if s.dst.Assigning? {
      PoolInvAssigning(cfg, s);
    }
  }

  /** The source, the cleanup thread and the clock leave the pool alone. */
  lemma OthersLeavePool(cfg: Config, s: State, a: Action)
    requires Enabled(s, a) && !a.WorkerStep? && !a.DstStep?
    ensures var s' := Step(cfg, s, a);
            && s'.workers == s.workers && s'.mask == s.mask && s'.maskLock == s.maskLock
            && s'.dst == s.dst && s'.clients == s.clients && s'.log == s.log && s'.fault == s.fault
  {
    hide Ctmp.Parse;
  }

  lemma PoolInvStep(cfg: Config, s: State, a: Action)
    requires PoolInv(cfg, s) && Enabled(s, a)
    ensures PoolInv(cfg, Step(cfg, s, a))
  {
    hide Compatible;
    if a.WorkerStep? {
      hide PoolInv;
      hide WorkerNext;
      PoolInvWorker(cfg, s, a.w, a.choice);
    } else if a.DstStep? {
      hide PoolInv;
      hide DstNext;
      PoolInvDst(cfg, s);
    } else {
      hide Step;
      OthersLeavePool(cfg, s, a);
    }
  }

  lemma {:induction false} PoolInvRun(cfg: Config, actions: seq<Action>)
    requires Exec(cfg, actions).Some?
    ensures PoolInv(cfg, Exec(cfg, actions).value)
  {
    hide PoolInv;
    hide Step;
    hide Enabled;
    if actions == [] {
      PoolInvInit(cfg);
    } else {
      PoolInvRun(cfg, actions[..|actions| - 1]);
      PoolInvStep(cfg, Exec(cfg, actions[..|actions| - 1]).value, actions[|actions| - 1]);
    }
  }

  /** The pool invariant holds in every reachable state. */
  lemma PoolInvReachable(cfg: Config, s: State)
    requires Reachable(cfg, s)
    ensures PoolInv(cfg, s)
  {
    var actions :| Exec(cfg, actions) == Some(s);
    PoolInvRun(cfg, actions);
  }

  // What the invariant means.

  /** A bit the destination server may see clear belongs to a worker that no thread is serving with. */
  lemma ClearBitMeansIdle(cfg: Config, s: State, i: nat)
    requires Reachable(cfg, s) && i < |s.workers| && i !in s.mask
    requires !(s.dst.Assigning? && s.dst.i == i && !s.dst.stage.Switch?)
    ensures s.workers[i].status == Available || s.workers[i].status == Ready
    ensures s.workers[i].status == Available <==> s.workers[i].pc.Unborn?
    ensures s.workers[i].status == Ready <==> Parked(i, s.workers[i])
  {
    PoolInvReachable(cfg, s);
  }

  /** Neither the default branch of the switch nor a failing assertion is ever reached. */
  lemma AssignmentNeverDropped(cfg: Config, s: State)
    requires Reachable(cfg, s)
    ensures s.dst.Assigning? && s.dst.stage.Switch? ==>
              s.dst.i < |s.workers| && s.workers[s.dst.i].status != Busy
    ensures s.dst.Assigning? && s.dst.stage.WakeAssert? ==>
              s.dst.i < |s.workers| && s.workers[s.dst.i].status == Ready
    ensures s.fault.Some? ==> s.fault.value.UseAfterFree?
  {
    PoolInvReachable(cfg, s);
  }

  /** The assertion is made where it stands: with another status than ready, in whatever state, it ends the run. */
  lemma AssertionChecks(s: State)
    requires DstEnabled(s) && s.dst.Assigning? && s.dst.stage.WakeAssert? && s.fault.None?
    ensures DstNext(s).fault.Some? <==> s.workers[s.dst.i].status != Ready
  {
  }

  lemma WorkerStatus(s: State, i: nat, c: Choice)
    requires WorkerEnabled(s, i, c)
    ensures var s' := WorkerNext(s, i, c);
            && |s'.workers| == |s.workers|
            && s'.workers == s.workers[i := s'.workers[i]]
            && (s'.workers[i].status == s.workers[i].status || s.workers[i].pc.SetReady?)
            && s'.mask <= s.mask
  {
    hide CanForward;
    hide CellsAfter;
  }

  /** Only the destination server ever makes an idle worker busy, and no one undoes its choice meanwhile. */
  lemma IdleUntilAssigned(cfg: Config, s: State, a: Action, i: nat)
    requires Reachable(cfg, s) && Enabled(s, a) && !a.DstStep?
    requires i < |s.workers| && i !in s.mask
    ensures var s' := Step(cfg, s, a);
            i < |s'.workers| && i !in s'.mask && s'.workers[i].status == s.workers[i].status
  {
    PoolInvReachable(cfg, s);
    assert Compatible(i, s.workers[i], i in s.mask, StageFor(s.dst, i));
    assert !s.workers[i].pc.SetReady?;
    hide WorkerNext;
    hide WorkerEnabled;
    hide Ctmp.Parse;
    if a.WorkerStep? {
      WorkerStatus(s, a.w, a.choice);
    }
  }

  // The scan (lib/thread.c:56-73).

  /** An answer of -1: every worker was busy when the scan began. */
  lemma ScanFoundNone(cfg: Config, s: State)
    requires Reachable(cfg, s) && s.dst.Scanning? && s.dst.i == |s.workers|
    ensures forall j :: 0 <= j < cfg.workers ==> j in s.dst.snap
  {
    PoolInvReachable(cfg, s);
  }

  /** An answer of i: every lower worker was busy when the scan began, and i is idle on return. */
  lemma ScanFound(cfg: Config, s: State)
    requires Reachable(cfg, s) && s.dst.Assigning? && s.dst.stage.Switch?
    ensures forall j :: 0 <= j < s.dst.i ==> j in s.dst.snap
    ensures s.dst.i < |s.workers| == cfg.workers && s.dst.i !in s.mask
    ensures s.workers[s.dst.i].status != Busy
  {
    PoolInvReachable(cfg, s);
  }

  /** While a scan runs the mask only loses bits: what it will still read was at most as busy at its start. */
  lemma MaskShrinksDuringScan(cfg: Config, s: State)
    requires Reachable(cfg, s) && (s.dst.Scanning? || s.dst.ScanHolding?)
    ensures s.mask <= s.dst.snap
  {
    PoolInvReachable(cfg, s);
  }

  // Wake-ups and locks.

  /** No lost wake-up: a worker asleep although it has a client is about to be signalled by the lock holder. */
  lemma NoLostWakeUp(cfg: Config, s: State, i: nat)
    requires Reachable(cfg, s) && i < |s.workers|
    requires s.workers[i].pc.Wait? && s.workers[i].status == Busy
    ensures s.dst.Assigning? && s.dst.i == i && s.workers[i].lock == Some(DstThread)
    ensures s.dst.stage.WakeWant? || s.dst.stage.WakeSet? || s.dst.stage.WakeTs? || s.dst.stage.WakeSignal?
  {
    PoolInvReachable(cfg, s);
  }

  datatype Lock = MaskLock | OwnLock(i: nat)

  /** The lock a thread is blocked on or about to take. */
  function Wants(s: State, t: Thread): Option<Lock> {
    match t {
      case DstThread =>
        if s.dst.Scanning? && s.dst.i < |s.workers| then Some(MaskLock)
        else if s.dst.Assigning? && (s.dst.stage.InitWant? || s.dst.stage.WakeWant?) then Some(MaskLock)
        else if s.dst.Assigning? && s.dst.stage.WakeLock? then Some(OwnLock(s.dst.i))
        else None
      case WorkerThread(i) =>
        if i >= |s.workers| then None
        else if s.workers[i].pc.WantMask? then Some(MaskLock)
        else if s.workers[i].pc.LockSelf? || s.workers[i].pc.Relock? then Some(OwnLock(i))
        else None
    }
  }

  function Owner(s: State, l: Lock): Option<Thread> {
    match l {
      case MaskLock => s.maskLock
      case OwnLock(i) => if i < |s.workers| then s.workers[i].lock else None
    }
  }

  /** Thread `t` cannot proceed because `u` has the lock it wants. */
  predicate WaitsFor(s: State, t: Thread, u: Thread) {
    Wants(s, t).Some? && Owner(s, Wants(s, t).value) == Some(u)
  }

  /** The holder of the mask lock wants nothing; the holder of a worker's lock wants at most the mask lock. */
  lemma WaitsAreShort(cfg: Config, s: State, t: Thread, u: Thread)
    requires Reachable(cfg, s) && WaitsFor(s, t, u)
    ensures Wants(s, t).value.MaskLock? ==> Wants(s, u).None?
    ensures Wants(s, u).None? || Wants(s, u) == Some(MaskLock)
  {
    PoolInvReachable(cfg, s);
    match t {
      case DstThread =>
        if s.dst.Assigning? {
          assert Compatible(s.dst.i, s.workers[s.dst.i], s.dst.i in s.mask, Some(s.dst.stage));
        }
      case WorkerThread(i) =>
        assert Compatible(i, s.workers[i], i in s.mask, StageFor(s.dst, i));
    }
  }

  /** A chain of threads each of which waits for the next, and the last for the first. */
  predicate CircularWait(s: State, ring: seq<Thread>) {
    && ring != []
    && (forall k :: 0 <= k < |ring| - 1 ==> WaitsFor(s, ring[k], ring[k + 1]))
    && WaitsFor(s, ring[|ring| - 1], ring[0])
  }

  function After(ring: seq<Thread>, k: nat): Thread
    requires k < |ring|
  {
    if k + 1 < |ring| then ring[k + 1] else ring[0]
  }

  lemma RingStep(s: State, ring: seq<Thread>, k: nat)
    requires CircularWait(s, ring) && k < |ring|
    ensures WaitsFor(s, ring[k], After(ring, k))
  {
    hide WaitsFor;
  }

  /** No deadlock: no reachable state has a circular wait of any length. */
  lemma NoCircularWait(cfg: Config, s: State, ring: seq<Thread>)
    requires Reachable(cfg, s)
    ensures !CircularWait(s, ring)
  {
    hide Wants;
    hide Owner;
    if CircularWait(s, ring) {
      var k1 := if 1 < |ring| then 1 else 0;
      var k2 := if k1 + 1 < |ring| then k1 + 1 else 0;
      RingStep(s, ring, 0);
      RingStep(s, ring, k1);
      RingStep(s, ring, k2);
      WaitsAreShort(cfg, s, ring[0], ring[k1]);
      WaitsAreShort(cfg, s, ring[k1], ring[k2]);
      assert false;
    }
  }
}
