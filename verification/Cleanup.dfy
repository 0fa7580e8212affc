/**
 * The cleanup thread: what it frees, when, and who may still be looking
 * (ws_server.c:240-274; lib/msg_queue.c:52-66, 88-110, 162-169).
 */
module Cleanup {
  import opened Common
  import opened Timestamp
  import opened Server
  import opened Sessions
  import Delivery
  import Ctmp

  predicate Freed(cell: Cell) {
    !cell.msg && cell.sent.None?
  }

  predicate Live(cell: Cell) {
    cell.msg && cell.sent.Some?
  }

  /** The entry's time to live has passed at instant `t`. */
  predicate ExpiredAt(cfg: Config, e: Entry, t: Time) {
    Before(Plus(e.ts, cfg.ttl), t)
  }

  /** How many entries the current pass has dealt with. */
  function Done(c: Cleaner): nat {
    match c.pc {
      case CGet => Position(c.current, c.prev)
      case CNext => if c.current.Some? then c.current.value + 1 else 0
      case _ => if c.current.Some? then c.current.value else 0
    }
  }

  /** Between the two `free` calls. */
  predicate HalfFreed(c: Cleaner, e: nat) {
    c.pc.CFreeMsg? && c.current == Some(e)
  }

  predicate CellOK(cfg: Config, e: nat, entry: Entry, cell: Cell, c: Cleaner, clock: Time) {
    && (if HalfFreed(c, e) then cell.msg && cell.sent.None? else Freed(cell) || Live(cell))
    && (!Live(cell) ==> ExpiredAt(cfg, entry, clock))
    && (e < Done(c) && ExpiredAt(cfg, entry, c.began) ==> Freed(cell))
  }

  predicate CleanerOK(cfg: Config, s: State) {
    var c := s.cleaner;
    && |s.cells| == |s.queue|
    && Delivery.InRange(s.queue, c.current) && Delivery.InRange(s.queue, c.prev)
    && (!c.pc.CGet? ==> c.current.Some?)
    && NotAfter(c.began, s.clock)
    && (c.pc.CClock? ==> Live(s.cells[c.current.value]))
    && (c.pc.CFreeSent? ==> Live(s.cells[c.current.value]))
    && (c.pc.CFreeSent? || c.pc.CFreeMsg? ==> ExpiredAt(cfg, s.queue[c.current.value], s.clock))
  }

  predicate CleanInv(cfg: Config, s: State) {
    && CleanerOK(cfg, s)
    && forall e :: 0 <= e < |s.queue| ==> CellOK(cfg, e, s.queue[e], s.cells[e], s.cleaner, s.clock)
  }

  /** Workers change the contents of sent masks, never whether anything is allocated. */
  lemma WorkersFreeNothing(cells: seq<Cell>, i: nat, w: Worker)
    ensures |CellsAfter(cells, i, w)| == |cells|
    ensures forall e :: 0 <= e < |cells| ==>
              && CellsAfter(cells, i, w)[e].msg == cells[e].msg
              && CellsAfter(cells, i, w)[e].sent.Some? == cells[e].sent.Some?
  {
  }

  lemma CleanWorker(cfg: Config, s: State, i: nat, c: Choice)
    requires CleanInv(cfg, s) && WorkerEnabled(s, i, c)
    ensures CleanInv(cfg, WorkerNext(s, i, c))
  {
    hide WorkerAfter;
    hide CellsAfter;
    hide ExpiredAt;
    WorkersFreeNothing(s.cells, i, s.workers[i]);
    var s' := WorkerNext(s, i, c);
    forall e | 0 <= e < |s'.queue|
      ensures CellOK(cfg, e, s'.queue[e], s'.cells[e], s'.cleaner, s'.clock)
    {
      assert CellOK(cfg, e, s.queue[e], s.cells[e], s.cleaner, s.clock);
    }
  }

  lemma CleanCleaner(cfg: Config, s: State)
    requires CleanInv(cfg, s) && CleanerEnabled(s)
    ensures CleanInv(cfg, CleanerNext(cfg, s))
  {
    var s' := CleanerNext(cfg, s);
    forall e | 0 <= e < |s'.queue|
      ensures CellOK(cfg, e, s'.queue[e], s'.cells[e], s'.cleaner, s'.clock)
    {
      assert CellOK(cfg, e, s.queue[e], s.cells[e], s.cleaner, s.clock);
    }
  }

  lemma CleanTick(cfg: Config, s: State, now: Time)
    requires CleanInv(cfg, s) && NotAfter(s.clock, now)
    ensures CleanInv(cfg, s.(clock := now))
  {
    forall e | 0 <= e < |s.queue|
      ensures CellOK(cfg, e, s.queue[e], s.cells[e], s.cleaner, now)
    {
      assert CellOK(cfg, e, s.queue[e], s.cells[e], s.cleaner, s.clock);
    }
  }

  lemma CleanSrc(cfg: Config, s: State, a: Action)
    requires CleanInv(cfg, s) && SrcEnabled(s, a)
    ensures CleanInv(cfg, SrcNext(cfg, s, a))
  {
    hide Ctmp.Parse;
    hide ExpiredAt;
    var s' := SrcNext(cfg, s, a);
    forall e | 0 <= e < |s.queue|
      ensures CellOK(cfg, e, s'.queue[e], s'.cells[e], s'.cleaner, s'.clock)
    {
      assert CellOK(cfg, e, s.queue[e], s.cells[e], s.cleaner, s.clock);
    }
  }

  lemma CleanStep(cfg: Config, s: State, a: Action)
    requires CleanInv(cfg, s) && Enabled(s, a)
    ensures CleanInv(cfg, Step(cfg, s, a))
  {
    hide CellOK;
    hide CleanerNext;
    hide WorkerNext;
    hide SrcNext;
    match a {
      case WorkerStep(i, c) => CleanWorker(cfg, s, i, c);
      case CleanerStep => CleanCleaner(cfg, s);
      case Tick(now) => CleanTick(cfg, s, now);
      case DstStep =>
      case _ => CleanSrc(cfg, s, a);
    }
  }

  lemma {:induction false} CleanRun(cfg: Config, actions: seq<Action>)
    requires Exec(cfg, actions).Some?
    ensures CleanInv(cfg, Exec(cfg, actions).value)
  {
    hide Step;
    hide Enabled;
    if actions == [] {
    } else {
      hide CleanInv;
      var before := actions[..|actions| - 1];
      CleanRun(cfg, before);
      CleanStep(cfg, Exec(cfg, before).value, actions[|actions| - 1]);
    }
  }

  lemma CleanReachable(cfg: Config, s: State)
    requires Reachable(cfg, s)
    ensures CleanInv(cfg, s)
  {
    hide CleanInv;
    var actions :| Exec(cfg, actions) == Some(s);
    CleanRun(cfg, actions);
  }

  // Safety.

  /** More than `ttl` seconds lie between `ts` and `now`. */
  predicate PastTtl(ts: Time, ttl: nat, now: Time) {
    now.sec > ts.sec + ttl || (now.sec == ts.sec + ttl && now.nsec > ts.nsec)
  }

  lemma ExpiredIff(cfg: Config, e: Entry, t: Time)
    ensures ExpiredAt(cfg, e, t) <==> PastTtl(e.ts, cfg.ttl, t)
  {
  }

  /**
   * The decision of the cleanup thread: with the clock as it is at this moment, the entry's data is
   * freed exactly when more than the time to live has passed since its timestamp.
   */
  lemma FreesIffPastTtl(cfg: Config, s: State)
    requires CleanerEnabled(s) && s.cleaner.pc.CClock?
    ensures var e, s' := s.cleaner.current.value, CleanerNext(cfg, s);
            && (s'.cleaner.pc.CFreeSent? <==> PastTtl(s.queue[e].ts, cfg.ttl, s.clock))
            && (s'.cleaner.pc.CFreeSent? || s'.cleaner.pc.CNext?)
            && s'.cleaner.current == Some(e) && s'.cells == s.cells
  {
    ExpiredIff(cfg, s.queue[s.cleaner.current.value], s.clock);
  }

  /** Data is freed only strictly after its time to live, and message and mask together. */
  lemma FreedOnlyAfterTtl(cfg: Config, s: State, e: nat)
    requires Reachable(cfg, s) && e < |s.queue|
    ensures e < |s.cells|
    ensures !Live(s.cells[e]) ==> ExpiredAt(cfg, s.queue[e], s.clock) && PastTtl(s.queue[e].ts, cfg.ttl, s.clock)
    ensures Live(s.cells[e]) || Freed(s.cells[e]) || HalfFreed(s.cleaner, e)
  {
    CleanReachable(cfg, s);
    assert CellOK(cfg, e, s.queue[e], s.cells[e], s.cleaner, s.clock);
  }

  /** Nothing is freed twice: both calls find what they free still allocated. */
  lemma NoDoubleFree(cfg: Config, s: State)
    requires Reachable(cfg, s) && CleanerEnabled(s)
    ensures s.cleaner.pc.CFreeSent? ==> s.cells[s.cleaner.current.value].sent.Some?
    ensures s.cleaner.pc.CFreeMsg? ==> s.cells[s.cleaner.current.value].msg
  {
    CleanReachable(cfg, s);
    if s.cleaner.current.Some? {
      var e := s.cleaner.current.value;
      assert CellOK(cfg, e, s.queue[e], s.cells[e], s.cleaner, s.clock);
    }
  }

  /** No step unlinks, reorders or revives an entry. */
  lemma QueueOnlyGrows(cfg: Config, s: State, a: Action)
    requires Reachable(cfg, s) && Enabled(s, a)
    ensures var s' := Step(cfg, s, a);
            && s.queue <= s'.queue
            && |s'.cells| == |s'.queue| && |s.cells| == |s.queue|
            && forall e :: 0 <= e < |s.queue| ==>
                 && (s.cells[e].sent.None? ==> s'.cells[e].sent.None?)
                 && (!s.cells[e].msg ==> !s'.cells[e].msg)
  {
    CleanReachable(cfg, s);
    hide Ctmp.Parse;
    hide WorkerAfter;
    hide CellsAfter;
    hide CellOK;
    if a.WorkerStep? {
      WorkersFreeNothing(s.cells, a.w, s.workers[a.w]);
    } else if a.DstStep? {
      DstLeavesQueue(s);
      hide DstNext;
    }
  }

  /** Does this step of worker `i` read freed data? */
  predicate Faults(s: State, i: nat, c: Choice)
    requires WorkerEnabled(s, i, c)
  {
    WorkerAfter(s.queue, s.cells, i, s.workers[i], c).None?
  }

  lemma AttemptIsOwed(cfg: Config, s: State, i: nat)
    requires Reachable(cfg, s) && i < |s.workers| && (s.workers[i].pc.Send? || s.workers[i].pc.Mark?)
    ensures AtEntry(s.queue, s.cells, s.workers[i])
    ensures Before(s.workers[i].ts, s.queue[s.workers[i].current.value].ts)
  {
    Delivery.DeliveryReachable(cfg, s);
    var w := s.workers[i];
    assert Delivery.WorkerInv(s.queue, s.cells, i, w);
    var x := w.sess;
    NewerMembers(s.queue, x.ts, x.start, x.hi);
    assert x.attempts[|x.attempts| - 1] in x.attempts;
  }

  /** An entry is whole or its mask is gone: the mask is freed before the message. */
  lemma MaskGoesFirst(cfg: Config, s: State, e: nat)
    requires Reachable(cfg, s) && e < |s.queue|
    ensures e < |s.cells| && (Live(s.cells[e]) <==> s.cells[e].sent.Some?)
  {
    CleanReachable(cfg, s);
    assert CellOK(cfg, e, s.queue[e], s.cells[e], s.cleaner, s.clock);
  }

  /**
   * When a worker reads freed data, exactly: at the test of an entry its client is owed, at the
   * mark and at the reset, iff the entry is no longer whole; while sending, iff both parts are gone.
   */
  lemma FaultIff(cfg: Config, s: State, i: nat, c: Choice)
    requires Reachable(cfg, s) && WorkerEnabled(s, i, c)
    requires AtEntry(s.queue, s.cells, s.workers[i])
    ensures var w, e := s.workers[i], s.workers[i].current.value;
            Faults(s, i, c) <==>
              || (w.pc.Test? && Before(w.ts, s.queue[e].ts) && !Live(s.cells[e]))
              || (w.pc.Send? && c != Go && Freed(s.cells[e]))
              || ((w.pc.Mark? || w.pc.ResetDo?) && !Live(s.cells[e]))
  {
    FreedOnlyAfterTtl(cfg, s, s.workers[i].current.value);
    CleanReachable(cfg, s);
    var e := s.workers[i].current.value;
    assert CellOK(cfg, e, s.queue[e], s.cells[e], s.cleaner, s.clock);
  }

  lemma OnlyAtEntry(s: State, i: nat, c: Choice)
    requires WorkerEnabled(s, i, c) && Faults(s, i, c)
    ensures AtEntry(s.queue, s.cells, s.workers[i])
  {
  }

  /** Reading freed data needs an expired entry, and a client owed that entry or the reset of a sent bit. */
  lemma FaultNeedsExpiry(cfg: Config, s: State, i: nat, c: Choice)
    requires Reachable(cfg, s) && WorkerEnabled(s, i, c) && Faults(s, i, c)
    ensures AtEntry(s.queue, s.cells, s.workers[i])
    ensures var w, e := s.workers[i], s.workers[i].current.value;
            && ExpiredAt(cfg, s.queue[e], s.clock)
            && (w.pc.ResetDo? || Before(w.ts, s.queue[e].ts))
  {
    var w := s.workers[i];
    OnlyAtEntry(s, i, c);
    FaultIff(cfg, s, i, c);
    hide Faults;
    FreedOnlyAfterTtl(cfg, s, w.current.value);
    if w.pc.Send? || w.pc.Mark? {
      AttemptIsOwed(cfg, s, i);
    }
  }

  /**
   * A client that connected at or after an entry: `can_forward`'s short circuit keeps its worker
   * away from freed data at every point except one, the reset of the sent bit, where it faults
   * exactly when the mask went away after the check.
   */
  lemma OldEntryFaultIff(cfg: Config, s: State, i: nat, c: Choice)
    requires Reachable(cfg, s) && WorkerEnabled(s, i, c)
    requires AtEntry(s.queue, s.cells, s.workers[i])
    requires !Before(s.workers[i].ts, s.queue[s.workers[i].current.value].ts)
    ensures Faults(s, i, c) <==>
            s.workers[i].pc.ResetDo? && s.cells[s.workers[i].current.value].sent.None?
  {
    var w := s.workers[i];
    FaultIff(cfg, s, i, c);
    hide Faults;
    FreedOnlyAfterTtl(cfg, s, w.current.value);
    MaskGoesFirst(cfg, s, w.current.value);
    if w.pc.Send? || w.pc.Mark? {
      AttemptIsOwed(cfg, s, i);
    }
  }

  /** Within an entry's time to live no worker faults on it. */
  lemma NoFaultWithinTtl(cfg: Config, s: State, i: nat, c: Choice)
    requires Reachable(cfg, s) && WorkerEnabled(s, i, c)
    requires AtEntry(s.queue, s.cells, s.workers[i])
    requires !ExpiredAt(cfg, s.queue[s.workers[i].current.value], s.clock)
    ensures !Faults(s, i, c)
  {
    hide Faults;
    if Faults(s, i, c) {
      FaultNeedsExpiry(cfg, s, i, c);
    }
  }

  // Progress.

  lemma StepGrows(cfg: Config, s: State, a: Action)
    requires Enabled(s, a)
    ensures s.queue <= Step(cfg, s, a).queue
  {
    hide Ctmp.Parse;
    hide WorkerAfter;
    if a.DstStep? {
      DstLeavesQueue(s);
      hide DstNext;
    }
  }

  lemma {:induction false} QueueGrowsFrom(cfg: Config, s: State, actions: seq<Action>)
    requires ExecFrom(cfg, s, actions).Some?
    ensures s.queue <= ExecFrom(cfg, s, actions).value.queue
  {
    if actions == [] {
    } else {
      var before := actions[..|actions| - 1];
      QueueGrowsFrom(cfg, s, before);
      StepGrows(cfg, ExecFrom(cfg, s, before).value, actions[|actions| - 1]);
      hide Step;
    }
  }

  /** Between two passes: about to take the first entry, or waiting to. */
  predicate BetweenPasses(s: State) {
    s.cleaner.pc.CGet? && s.cleaner.current.None?
  }

  /** A pass that has left the starting point began after it. */
  predicate BegunSince(s: State, since: Time) {
    NotAfter(since, s.clock) && (BetweenPasses(s) || NotAfter(since, s.cleaner.began))
  }

  lemma BegunSinceStep(cfg: Config, s: State, a: Action, since: Time)
    requires Enabled(s, a) && BegunSince(s, since)
    ensures BegunSince(Step(cfg, s, a), since)
  {
    hide Ctmp.Parse;
    hide WorkerAfter;
    if a.DstStep? {
      DstLeavesQueue(s);
      hide DstNext;
    }
  }

  lemma {:induction false} BegunSinceRun(cfg: Config, s: State, actions: seq<Action>)
    requires BetweenPasses(s) && ExecFrom(cfg, s, actions).Some?
    ensures BegunSince(ExecFrom(cfg, s, actions).value, s.clock)
  {
    hide Step;
    hide Enabled;
    if actions == [] {
    } else {
      var before := actions[..|actions| - 1];
      BegunSinceRun(cfg, s, before);
      BegunSinceStep(cfg, ExecFrom(cfg, s, before).value, actions[|actions| - 1], s.clock);
    }
  }

  /**
   * Progress: whatever the other threads do and however long the source keeps the pass going, an
   * entry that had expired between two passes is freed by the time a later pass has gone by it.
   */
  lemma CleanupProgress(cfg: Config, s: State, actions: seq<Action>, e: nat)
    requires Reachable(cfg, s) && BetweenPasses(s)
    requires ExecFrom(cfg, s, actions).Some? && !BetweenPasses(ExecFrom(cfg, s, actions).value)
    requires e < Done(ExecFrom(cfg, s, actions).value.cleaner)
    requires e < |s.queue| && ExpiredAt(cfg, s.queue[e], s.clock)
    ensures e < |ExecFrom(cfg, s, actions).value.cells|
    ensures Freed(ExecFrom(cfg, s, actions).value.cells[e])
  {
    var t := ExecFrom(cfg, s, actions).value;
    BegunSinceRun(cfg, s, actions);
    QueueGrowsFrom(cfg, s, actions);
    ExecFromReachable(cfg, s, actions);
    hide ExecFrom;
    hide Reachable;
    assert t.queue[e] == s.queue[e];
    CleanReachable(cfg, t);
    assert CellOK(cfg, e, t.queue[e], t.cells[e], t.cleaner, t.clock);
  }

  /** The cleanup thread has reached the end and waits for another entry. */
  predicate Resting(s: State) {
    s.cleaner.pc.CGet? && s.cleaner.current.None? && s.cleaner.prev.Some? && s.cleaner.prev.value + 1 == |s.queue|
  }

  lemma RestingStep(cfg: Config, s: State, a: Action)
    requires Enabled(s, a) && Resting(s) && |s.cells| == |s.queue|
    requires Step(cfg, s, a).queue == s.queue
    ensures var s' := Step(cfg, s, a);
            && Resting(s') && |s'.cells| == |s.queue|
            && forall e :: 0 <= e < |s.queue| ==>
                 s'.cells[e].msg == s.cells[e].msg && s'.cells[e].sent.Some? == s.cells[e].sent.Some?
  {
    hide Ctmp.Parse;
    hide WorkerAfter;
    hide CellsAfter;
    if a.WorkerStep? {
      WorkersFreeNothing(s.cells, a.w, s.workers[a.w]);
    } else if a.DstStep? {
      DstLeavesQueue(s);
      hide DstNext;
    }
  }

  /**
   * Expiry alone frees nothing: while no message arrives, a resting cleanup thread stays where it
   * is and every entry keeps its data, whatever the clock and the other threads do.
   */
  lemma {:induction false} QuietQueueKeepsData(cfg: Config, s: State, actions: seq<Action>)
    requires Reachable(cfg, s) && Resting(s)
    requires ExecFrom(cfg, s, actions).Some? && ExecFrom(cfg, s, actions).value.queue == s.queue
    ensures var t := ExecFrom(cfg, s, actions).value;
            && Resting(t) && |t.cells| == |s.queue| == |s.cells|
            && forall e :: 0 <= e < |s.queue| ==>
                 t.cells[e].msg == s.cells[e].msg && t.cells[e].sent.Some? == s.cells[e].sent.Some?
  {
    if actions == [] {
      CleanReachable(cfg, s);
    } else {
      var before, a := actions[..|actions| - 1], actions[|actions| - 1];
      QueueGrowsFrom(cfg, s, before);
      StepGrows(cfg, ExecFrom(cfg, s, before).value, a);
      QuietQueueKeepsData(cfg, s, before);
      RestingStep(cfg, ExecFrom(cfg, s, before).value, a);
      hide Step;
    }
  }

  /** The cleanup thread has not moved since `s`, or its pass began after `s`. */
  predicate PassSince(s: State, t: State) {
    NotAfter(s.clock, t.clock) && (t.cleaner == s.cleaner || NotAfter(s.clock, t.cleaner.began))
  }

  lemma PassSinceStep(cfg: Config, s: State, t: State, a: Action)
    requires Resting(s) && Enabled(t, a) && PassSince(s, t)
    ensures PassSince(s, Step(cfg, t, a))
  {
    hide Ctmp.Parse;
    hide WorkerAfter;
    if a.DstStep? {
      DstLeavesQueue(t);
      hide DstNext;
    }
  }

  lemma {:induction false} PassSinceRun(cfg: Config, s: State, actions: seq<Action>)
    requires Resting(s) && ExecFrom(cfg, s, actions).Some?
    ensures PassSince(s, ExecFrom(cfg, s, actions).value)
  {
    hide Step;
    hide Enabled;
    if actions == [] {
    } else {
      hide PassSince;
      var before := actions[..|actions| - 1];
      PassSinceRun(cfg, s, before);
      PassSinceStep(cfg, s, ExecFrom(cfg, s, before).value, actions[|actions| - 1]);
    }
  }

  /**
   * When expired data is freed, exactly: between two rests of the cleanup thread, whatever else
   * happens, an entry that had expired by the first is freed by the second iff a message was
   * appended in between.
   */
  lemma FreedIffMessageArrived(cfg: Config, s: State, actions: seq<Action>, e: nat)
    requires Reachable(cfg, s) && Resting(s)
    requires ExecFrom(cfg, s, actions).Some? && Resting(ExecFrom(cfg, s, actions).value)
    requires e < |s.queue| && e < |s.cells| && Live(s.cells[e]) && ExpiredAt(cfg, s.queue[e], s.clock)
    ensures var t := ExecFrom(cfg, s, actions).value;
            e < |t.cells| && (Freed(t.cells[e]) <==> |t.queue| > |s.queue|)
  {
    var t := ExecFrom(cfg, s, actions).value;
    PassSinceRun(cfg, s, actions);
    QueueGrowsFrom(cfg, s, actions);
    ExecFromReachable(cfg, s, actions);
    CleanReachable(cfg, t);
    assert t.queue[e] == s.queue[e];
    if |t.queue| == |s.queue| {
      QuietQueueKeepsData(cfg, s, actions);
    } else {
      hide ExecFrom;
      hide Reachable;
      assert CellOK(cfg, e, t.queue[e], t.cells[e], t.cleaner, t.clock);
    }
  }
}
