/**
 * The sent masks say what they are meant to say: within a session, a worker's bit on an entry
 * records whether the worker has attempted it (lib/msg_queue.c:127-150; ws_server.c:127, 156-159).
 */
module Marks {
  import opened Common
  import opened Server
  import opened Sessions
  import opened Delivery
  import Pool
  import Ctmp

  /** The attempt whose bit is still to be written. */
  predicate InFlight(w: Worker, e: nat) {
    (w.pc.Send? || w.pc.Mark?) && w.current == Some(e)
  }

  predicate BitOK(cell: Cell, i: nat, w: Worker, e: nat) {
    cell.sent.Some? ==>
      && (i in cell.sent.value && w.sess.start <= e ==> e in w.sess.attempts)
      && (Serving(w.pc) && !w.pc.Close? && e in w.sess.attempts && !InFlight(w, e) ==> i in cell.sent.value)
  }

  predicate MarksOK(cells: seq<Cell>, i: nat, w: Worker) {
    forall e :: 0 <= e < |cells| ==> BitOK(cells[e], i, w, e)
  }

  predicate MarkInv(s: State) {
    forall i :: 0 <= i < |s.workers| ==> MarksOK(s.cells, i, s.workers[i])
  }

  /** A step that touches neither the worker's bit nor its session. */
  predicate SameBits(cells: seq<Cell>, cells': seq<Cell>, i: nat) {
    && |cells'| == |cells|
    && forall e :: 0 <= e < |cells| && cells'[e].sent.Some? ==>
         cells[e].sent.Some? && (i in cells'[e].sent.value <==> i in cells[e].sent.value)
  }

  lemma MarksUndisturbed(cells: seq<Cell>, cells': seq<Cell>, i: nat, w: Worker)
    requires MarksOK(cells, i, w) && SameBits(cells, cells', i)
    ensures MarksOK(cells', i, w)
  {
    forall e | 0 <= e < |cells'|
      ensures BitOK(cells'[e], i, w, e)
    {
      assert BitOK(cells[e], i, w, e);
    }
  }

  lemma ServeBit(q: seq<Entry>, cells: seq<Cell>, i: nat, w: Worker, c: Choice, e: nat)
    requires CanStep(q, cells, w, c) && Serving(w.pc) && |cells| == |q| && e < |cells|
    requires CursorOK(q, w) && PartOK(w) && BitOK(cells[e], i, w, e)
    ensures var after := ServeAfter(q, cells, i, w, c);
            after.Some? ==> BitOK(CellsAfter(cells, i, w)[e], i, after.value, e)
  {
    hide CanForward;
  }

  lemma ParkBit(q: seq<Entry>, cells: seq<Cell>, i: nat, w: Worker, c: Choice, e: nat)
    requires CanStep(q, cells, w, c) && !Serving(w.pc) && |cells| == |q| && e < |cells|
    requires CursorOK(q, w) && SentOK(cells, i, w) && BitOK(cells[e], i, w, e)
    ensures var after := ParkAfter(q, cells, i, w, c);
            after.Some? ==> BitOK(CellsAfter(cells, i, w)[e], i, after.value, e)
  {
    if w.pc.Resume? {
      assert e >= w.sess.hi && cells[e].sent.Some? ==> i !in cells[e].sent.value;
    } else {
      ParkKeeps(q, cells, i, w, c);
      hide ParkAfter;
    }
  }

  lemma OwnBit(q: seq<Entry>, cells: seq<Cell>, i: nat, w: Worker, c: Choice, e: nat)
    requires CanStep(q, cells, w, c) && |cells| == |q| && e < |cells|
    requires CursorOK(q, w) && PartOK(w) && SentOK(cells, i, w)
    requires BitOK(cells[e], i, w, e)
    ensures var after := WorkerAfter(q, cells, i, w, c);
            after.Some? ==> BitOK(CellsAfter(cells, i, w)[e], i, after.value, e)
  {
    hide CanForward;
    if Serving(w.pc) {
      ServeBit(q, cells, i, w, c, e);
    } else {
      ParkBit(q, cells, i, w, c, e);
    }
    hide ServeAfter;
    hide ParkAfter;
  }

  lemma OtherBits(cells: seq<Cell>, i: nat, w: Worker, j: nat)
    requires i != j
    ensures SameBits(cells, CellsAfter(cells, i, w), j)
  {
  }

  lemma MarkWorker(s: State, i: nat, c: Choice)
    requires MarkInv(s) && DeliveryInv(s) && WorkerEnabled(s, i, c)
    ensures MarkInv(WorkerNext(s, i, c))
  {
    hide WorkerAfter;
    hide HistoryOK;
    hide FailedOK;
    hide BitOK;
    var w := s.workers[i];
    assert WorkerInv(s.queue, s.cells, i, w);
    hide WorkerInv;
    hide CellsAfter;
    var cells := CellsAfter(s.cells, i, w);
    forall e | 0 <= e < |cells| && WorkerAfter(s.queue, s.cells, i, w, c).Some?
      ensures BitOK(cells[e], i, WorkerAfter(s.queue, s.cells, i, w, c).value, e)
    {
      assert BitOK(s.cells[e], i, w, e);
      OwnBit(s.queue, s.cells, i, w, c, e);
    }
    forall j | 0 <= j < |s.workers| && j != i
      ensures MarksOK(cells, j, s.workers[j])
    {
      OtherBits(s.cells, i, w, j);
      MarksUndisturbed(s.cells, cells, j, s.workers[j]);
    }
  }

  lemma TouchedMarks(s: State, i: nat, w: Worker, v: Worker)
    requires i < |s.workers| && s.workers[i] == w && MarksOK(s.cells, i, w) && DeliveryInv(s)
    requires (!Serving(v.pc) && v.sess == w.sess) || (w.pc.Unborn? && v.sess.start == 0 && v.sess.attempts == [])
    ensures MarksOK(s.cells, i, v)
  {
    assert WorkerInv(s.queue, s.cells, i, w);
    hide HistoryOK;
    hide FailedOK;
    hide DeliveryInv;
    forall e | 0 <= e < |s.cells|
      ensures BitOK(s.cells[e], i, v, e)
    {
      assert BitOK(s.cells[e], i, w, e);
    }
  }

  lemma MarkDst(cfg: Config, s: State)
    requires MarkInv(s) && DeliveryInv(s) && Pool.PoolInv(cfg, s) && DstEnabled(s)
    ensures MarkInv(DstNext(s))
  {
    if s.dst.Assigning? {
      hide DstNext;
      hide Pool.PoolInv;
      hide DeliveryInv;
      hide BitOK;
      DstTouches(cfg, s);
      var i, s' := s.dst.i, DstNext(s);
      var w, v := s.workers[i], s'.workers[i];
      if v != w {
        TouchedMarks(s, i, w, v);
      }
    }
  }

  lemma AttemptsInQueue(s: State, i: nat)
    requires DeliveryInv(s) && i < |s.workers|
    ensures forall e :: e in s.workers[i].sess.attempts ==> e < |s.cells|
  {
    assert WorkerInv(s.queue, s.cells, i, s.workers[i]);
    var x := s.workers[i].sess;
    hide FailedOK;
    NewerMembers(s.queue, x.ts, x.start, x.hi);
  }

  lemma MarkSrc(cfg: Config, s: State, a: Action)
    requires MarkInv(s) && DeliveryInv(s) && SrcEnabled(s, a)
    ensures MarkInv(SrcNext(cfg, s, a))
  {
    hide Ctmp.Parse;
    hide DeliveryInv;
    var s' := SrcNext(cfg, s, a);
    forall i | 0 <= i < |s.workers|
      ensures MarksOK(s'.cells, i, s.workers[i])
    {
      AttemptsInQueue(s, i);
      forall e | 0 <= e < |s'.cells|
        ensures BitOK(s'.cells[e], i, s.workers[i], e)
      {
        assert e < |s.cells| ==> BitOK(s.cells[e], i, s.workers[i], e);
      }
    }
  }

  lemma MarkCleaner(cfg: Config, s: State)
    requires MarkInv(s) && CleanerEnabled(s)
    ensures MarkInv(CleanerNext(cfg, s))
  {
    hide BitOK;
    var s' := CleanerNext(cfg, s);
    forall i | 0 <= i < |s.workers|
      ensures MarksOK(s'.cells, i, s.workers[i])
    {
      MarksUndisturbed(s.cells, s'.cells, i, s.workers[i]);
    }
  }

  lemma MarkStep(cfg: Config, s: State, a: Action)
    requires MarkInv(s) && DeliveryInv(s) && Pool.PoolInv(cfg, s) && Enabled(s, a)
    ensures MarkInv(Step(cfg, s, a))
  {
    hide MarksOK;
    hide DeliveryInv;
    hide Pool.PoolInv;
    hide WorkerNext;
    hide DstNext;
    hide SrcNext;
    hide CleanerNext;
    match a {
      case WorkerStep(i, c) => MarkWorker(s, i, c);
      case DstStep => MarkDst(cfg, s);
      case CleanerStep => MarkCleaner(cfg, s);
      case Tick(_) =>
      case _ => MarkSrc(cfg, s, a);
    }
  }

  lemma {:induction false} MarkRun(cfg: Config, actions: seq<Action>)
    requires Exec(cfg, actions).Some?
    ensures MarkInv(Exec(cfg, actions).value)
  {
    hide Step;
    hide Enabled;
    hide DeliveryInv;
    hide Pool.PoolInv;
    if actions == [] {
    } else {
      hide MarkInv;
      var before := actions[..|actions| - 1];
      MarkRun(cfg, before);
      DeliveryRun(cfg, before);
      Pool.PoolInvRun(cfg, before);
      MarkStep(cfg, Exec(cfg, before).value, actions[|actions| - 1]);
    }
  }

  lemma MarkAt(s: State, i: nat, e: nat)
    requires MarkInv(s) && i < |s.workers| && e < |s.cells|
    ensures BitOK(s.cells[e], i, s.workers[i], e)
  {
    hide BitOK;
    assert MarksOK(s.cells, i, s.workers[i]);
  }

  /**
   * `is_sent` is truthful: for every entry a serving worker has examined for its client and is
   * done with, the bit is set iff the worker attempted to send it.
   */
  lemma SentIffAttempted(cfg: Config, s: State, i: nat, e: nat)
    requires Reachable(cfg, s) && i < |s.workers|
    requires Serving(s.workers[i].pc) && !s.workers[i].pc.Close?
    requires s.workers[i].sess.start <= e < |s.cells| && s.cells[e].sent.Some?
    requires !InFlight(s.workers[i], e)
    ensures i in s.cells[e].sent.value <==> e in s.workers[i].sess.attempts
  {
    hide MarkInv;
    var actions :| Exec(cfg, actions) == Some(s);
    MarkRun(cfg, actions);
    MarkAt(s, i, e);
  }
}
