/**
 * When each thread can take a step, exactly: a thread is held up by a lock that another one holds
 * or by a queue that has nothing more for it, and by nothing else.
 */
module Blocking {
  import opened Common
  import opened Timestamp
  import opened Server
  import opened Sessions
  import Pool
  import Delivery
  import Broadcast
  import Cleanup

  /** The lock the thread is about to take, if any, is free. */
  predicate LockFree(s: State, t: Thread) {
    Pool.Wants(s, t).Some? ==> Pool.Owner(s, Pool.Wants(s, t).value).None?
  }

  /** The destination server waits for a lock and for nothing else: a full pool does not stop it. */
  lemma DstBlockedIff(cfg: Config, s: State)
    requires Reachable(cfg, s) && s.fault.None?
    ensures Enabled(s, DstStep) <==> LockFree(s, DstThread)
  {
    Pool.PoolInvReachable(cfg, s);
    hide Pool.Compatible;
  }

  /** The answers of the environment a worker can get, at each point where there is a choice. */
  predicate Answers(s: State, i: nat, c: Choice)
    requires i < |s.workers|
  {
    var w := s.workers[i];
    if w.pc.Alive? then c.Go? || c.Fail?
    else if w.pc.Send? && AtEntry(s.queue, s.cells, w) then
      var size := |s.queue[w.current.value].frame|;
      if c.Take? then
        // a call takes at least one byte, and never bytes of both the header and the data
        c.count > 0 && w.pc.off + c.count <= size && !(w.pc.off < 8 < w.pc.off + c.count)
      else c.Fail? <==> w.pc.off < size
    else c.Go?
  }

  /** Between two entries a worker gets the entry at its cursor, and has to wait exactly when there is none yet. */
  lemma GetsAtCursor(cfg: Config, s: State, i: nat)
    requires Reachable(cfg, s) && i < |s.workers| && s.workers[i].pc.Get?
    ensures var w := s.workers[i];
            GetEntry(|s.queue|, w.current, w.prev, false)
            == if w.sess.hi < |s.queue| then Some(w.sess.hi) else None
  {
    Delivery.DeliveryReachable(cfg, s);
    assert Delivery.WorkerInv(s.queue, s.cells, i, s.workers[i]);
    hide Delivery.HistoryOK;
    hide Delivery.FailedOK;
    hide Delivery.SentOK;
  }

  /** What has been taken of the frame being sent. */
  lemma SendsWithinFrame(cfg: Config, s: State, i: nat)
    requires Reachable(cfg, s) && i < |s.workers| && s.workers[i].pc.Send?
    ensures AtEntry(s.queue, s.cells, s.workers[i])
    ensures s.workers[i].pc.off <= |s.queue[s.workers[i].current.value].frame|
  {
    Broadcast.EntryAtHand(cfg, s, i);
    Delivery.DeliveryReachable(cfg, s);
    assert Delivery.WorkerInv(s.queue, s.cells, i, s.workers[i]);
    hide Delivery.FailedOK;
    hide Delivery.SentOK;
    hide Delivery.Chained;
    hide Newer;
    hide Flat;
  }

  /**
   * A worker waits for a lock or, between two entries, for an entry beyond its cursor, and for
   * nothing else; every answer of its client is possible.
   */
  lemma WorkerBlockedIff(cfg: Config, s: State, i: nat, c: Choice)
    requires Reachable(cfg, s) && s.fault.None? && i < |s.workers|
    ensures Enabled(s, WorkerStep(i, c)) <==>
            && !s.workers[i].pc.Unborn?
            && LockFree(s, WorkerThread(i))
            && (s.workers[i].pc.Get? ==> s.workers[i].sess.hi < |s.queue|)
            && Answers(s, i, c)
  {
    if s.workers[i].pc.Get? {
      GetsAtCursor(cfg, s, i);
    } else if !s.workers[i].pc.Unborn? {
      Broadcast.EntryAtHand(cfg, s, i);
      if s.workers[i].pc.Send? {
        SendsWithinFrame(cfg, s, i);
      }
    }
    hide Reachable;
    hide GetEntry;
  }

  /**
   * After an entry a worker looks at the one that follows in the queue: `next` is that entry, or
   * NULL exactly when there is none yet.
   */
  lemma NextIsFollowing(cfg: Config, s: State, i: nat)
    requires Reachable(cfg, s) && WorkerEnabled(s, i, Go) && s.workers[i].pc.Next?
    ensures WorkerAfter(s.queue, s.cells, i, s.workers[i], Go).Some?
    ensures var v, hi := WorkerAfter(s.queue, s.cells, i, s.workers[i], Go).value, s.workers[i].sess.hi;
            && v.next == (if hi < |s.queue| then Some(hi) else None)
            && (v.pc.Get? ==> v.current == v.next)
  {
    Delivery.DeliveryReachable(cfg, s);
    assert Delivery.WorkerInv(s.queue, s.cells, i, s.workers[i]);
    hide Delivery.HistoryOK;
    hide Delivery.FailedOK;
    hide Delivery.SentOK;
  }

  /** The cleanup thread waits only while the queue is empty or holds nothing beyond its last pass. */
  lemma CleanerBlockedIff(cfg: Config, s: State)
    requires Reachable(cfg, s) && s.fault.None?
    ensures Enabled(s, CleanerStep) <==> s.queue != [] && !Cleanup.Resting(s)
  {
    Cleanup.CleanReachable(cfg, s);
    hide Cleanup.CellOK;
  }

  /** A pass of the cleanup thread visits every entry: after one it goes on to the one that follows, if any. */
  lemma CleanerGoesOn(cfg: Config, s: State)
    requires Reachable(cfg, s) && CleanerEnabled(s) && s.cleaner.pc.CNext?
    ensures var e, c := s.cleaner.current.value, CleanerNext(cfg, s).cleaner;
            && c.pc.CGet? && c.prev == Some(e)
            && c.current == (if e + 1 < |s.queue| then Some(e + 1) else None)
  {
    Cleanup.CleanReachable(cfg, s);
    hide Cleanup.CellOK;
  }

  /** The clock can go on to any later reading, and does nothing else. */
  lemma ClockGoesOn(cfg: Config, s: State, now: Time)
    requires s.fault.None? && Normal(s.clock) && Normal(now)
    ensures Enabled(s, Tick(now)) <==> Instant(s.clock) <= Instant(now)
    ensures Enabled(s, Tick(now)) ==> Step(cfg, s, Tick(now)) == s.(clock := now)
  {
    InstantsCompare(s.clock, now, 0);
  }

  /** The source thread never stops: without a connection it accepts any, and with one it goes on reading. */
  lemma SourceNeverBlocked(s: State, a: Action)
    requires s.fault.None?
    ensures a.SrcAccept? ==> (Enabled(s, a) <==> s.src.NoSource?)
    ensures a.SrcStep? ==> (Enabled(s, a) <==> !s.src.NoSource?)
    ensures a.SrcClose? ==> (Enabled(s, a) <==> s.src == Connected([]))
  {
  }
}
