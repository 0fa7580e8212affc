/**
 * The broadcast protocol: what each worker delivers over its whole life, across clients
 * (ws_server.c:75-90, 105-171; lib/msg_queue.c:82-169).
 */
module Delivery {
  import opened Common
  import opened Timestamp
  import opened Server
  import opened Sessions
  import Pool
  import Ctmp

  // The queue: entries in timestamp order, none newer than the clock.

  predicate QueueInv(s: State) {
    && |s.cells| == |s.queue|
    && InTimeOrder(s.queue)
    && (forall e :: 0 <= e < |s.queue| ==> NotAfter(s.queue[e].ts, s.clock))
    && (s.src.Appending? ==>
          && NotAfter(s.src.entry.ts, s.clock)
          && forall e :: 0 <= e < |s.queue| ==> NotAfter(s.queue[e].ts, s.src.entry.ts))
  }

  // One worker: where its cursor stands at each program point.

  predicate InRange(q: seq<Entry>, e: Option<nat>) {
    e.Some? ==> e.value < |q|
  }

  predicate CursorOK(q: seq<Entry>, w: Worker) {
    && InRange(q, w.current) && InRange(q, w.prev) && InRange(q, w.next)
    && (!w.pc.Unborn? && !w.pc.Get? ==> w.current.Some?)
    && match w.pc {
         case Unborn => w.current.None? && w.prev.None? && w.next.None? && w.sess == NO_SESSION && w.past == []
         case Get => w.next == w.current && Position(w.current, w.prev) == w.sess.hi
         case Alive => w.current.value == w.sess.hi && (w.next.None? || w.next == w.current)
         case Test => w.current.value == w.sess.hi && (w.next.None? || w.next == w.current)
         case Send(off) => w.current.value + 1 == w.sess.hi
         case Mark => w.current.value + 1 == w.sess.hi
         case Next => w.current.value + 1 == w.sess.hi
         case _ =>
           || (w.current.value == w.sess.hi && (w.next.None? || w.next == w.current))
           || (w.current.value + 1 == w.sess.hi && (w.next.None? || w.next == Some(w.sess.hi)))
       }
  }

  /** A frame is incomplete only while it is being sent or after a failure that ends the session. */
  predicate PartOK(w: Worker) {
    match w.pc {
      case Unborn => true
      case Get => w.sess.part.None?
      case Alive => w.sess.part.None?
      case Test => w.sess.part.None?
      case Send(off) =>
        && w.sess.attempts != [] && Some(w.sess.attempts[|w.sess.attempts| - 1]) == w.current
        && w.sess.part == Some(off)
      case Mark =>
        && w.sess.attempts != [] && Some(w.sess.attempts[|w.sess.attempts| - 1]) == w.current
        && w.sess.part.Some? == w.failed
      case Next => w.sess.part.Some? ==> w.failed
      case _ => true
    }
  }

  function SessionsOf(w: Worker): seq<Session> {
    if w.pc.Unborn? then [] else w.past + [w.sess]
  }

  /** Each session starts where the previous one stopped, or one entry later; the first starts at the front. */
  predicate Chained(xs: seq<Session>) {
    && (xs != [] ==> xs[0].start == 0)
    && forall k :: 0 <= k < |xs| - 1 ==> xs[k].hi <= xs[k + 1].start <= xs[k].hi + 1
  }

  /** Did the most recent attempt of all fail? */
  predicate LastFailed(xs: seq<Session>) {
    xs != [] && var last := xs[|xs| - 1];
                if last.attempts != [] then last.part.Some? else LastFailed(xs[..|xs| - 1])
  }

  /** What `bytes_sent` remembers: it outlives the session whose send set it. */
  predicate FailedOK(w: Worker) {
    && (!w.pc.Send? ==> w.failed == LastFailed(SessionsOf(w)))
    && (w.pc.Get? || w.pc.Alive? || w.pc.Test? ==>
          w.failed ==> w.sess.attempts == [] && w.sess.hi == w.sess.start)
    && (w.pc.Next? ==>
          w.failed ==> w.sess.part.Some? || (w.sess.attempts == [] && w.sess.hi == w.sess.start + 1))
  }

  /** The arguments a serving worker reads are those of its session. */
  predicate ArgsOK(w: Worker) {
    Serving(w.pc) ==> w.client == w.sess.client && w.ts == w.sess.ts
  }

  predicate HistoryOK(q: seq<Entry>, w: Worker) {
    && (forall k :: 0 <= k < |w.past| ==> SessionOK(q, w.past[k]))
    && SessionOK(q, w.sess)
    && Chained(SessionsOf(w))
  }

  /** The worker's bit is only set on entries its cursor has passed. */
  predicate SentOK(cells: seq<Cell>, i: nat, w: Worker) {
    forall e :: w.sess.hi <= e < |cells| && cells[e].sent.Some? ==> i !in cells[e].sent.value
  }

  predicate WorkerInv(q: seq<Entry>, cells: seq<Cell>, i: nat, w: Worker) {
    CursorOK(q, w) && PartOK(w) && FailedOK(w) && ArgsOK(w) && HistoryOK(q, w) && SentOK(cells, i, w)
  }

  predicate DeliveryInv(s: State) {
    QueueInv(s) && forall i :: 0 <= i < |s.workers| ==> WorkerInv(s.queue, s.cells, i, s.workers[i])
  }

  // A worker's own steps, one clause at a time.

  lemma ServeCursor(q: seq<Entry>, cells: seq<Cell>, i: nat, w: Worker, c: Choice)
    requires CanStep(q, cells, w, c) && Serving(w.pc) && CursorOK(q, w) && PartOK(w)
    ensures var after := ServeAfter(q, cells, i, w, c);
            after.Some? ==> CursorOK(q, after.value) && PartOK(after.value)
  {
    hide CanForward;
  }

  /** Until it resumes, a parked worker keeps its cursor and its history. */
  lemma ParkKeeps(q: seq<Entry>, cells: seq<Cell>, i: nat, w: Worker, c: Choice)
    requires CanStep(q, cells, w, c) && !Serving(w.pc) && !w.pc.Resume?
    ensures var after := ParkAfter(q, cells, i, w, c);
            after.Some? ==>
              var v := after.value;
              && !Serving(v.pc) && !v.pc.Unborn?
              && v == w.(pc := v.pc, status := v.status, lock := v.lock)
  {
  }

  lemma ParkCursor(q: seq<Entry>, cells: seq<Cell>, i: nat, w: Worker, c: Choice)
    requires CanStep(q, cells, w, c) && !Serving(w.pc) && CursorOK(q, w) && PartOK(w)
    ensures var after := ParkAfter(q, cells, i, w, c);
            after.Some? ==> CursorOK(q, after.value) && PartOK(after.value)
  {
    if !w.pc.Resume? {
      hide ParkAfter;
      ParkKeeps(q, cells, i, w, c);
    }
  }

  /** The guard on the sent mask never fires: at the test the worker's bit is clear. */
  lemma GuardIsRedundant(q: seq<Entry>, cells: seq<Cell>, i: nat, w: Worker)
    requires w.pc.Test? && AtEntry(q, cells, w) && CursorOK(q, w) && SentOK(cells, i, w)
    requires CanForward(q[w.current.value], cells[w.current.value], i, w.ts).Some?
    ensures CanForward(q[w.current.value], cells[w.current.value], i, w.ts).value
            <==> Before(w.ts, q[w.current.value].ts)
  {
  }

  lemma DecideSession(q: seq<Entry>, cells: seq<Cell>, i: nat, w: Worker)
    requires w.pc.Test? && AtEntry(q, cells, w)
    requires CursorOK(q, w) && PartOK(w) && ArgsOK(w) && SentOK(cells, i, w) && SessionOK(q, w.sess)
    ensures var after := ServeAfter(q, cells, i, w, Go);
            after.Some? ==> SessionOK(q, after.value.sess)
  {
    var e := w.current.value;
    var after := ServeAfter(q, cells, i, w, Go);
    if after.Some? {
      GuardIsRedundant(q, cells, i, w);
      var x := after.value.sess;
      assert x.attempts == Newer(q, x.ts, x.start, x.hi);
      if Before(w.ts, q[e].ts) {
        assert x.attempts[..|x.attempts| - 1] == w.sess.attempts;
      }
    }
  }

  lemma SliceGrows(f: Frame, lo: nat, hi: nat)
    requires lo <= hi <= |f|
    ensures f[..hi] == f[..lo] + f[lo..hi]
  {
  }

  /** The socket takes some more bytes of the frame being sent. */
  lemma TakeOut(q: seq<Entry>, x: Session, k: nat)
    requires OutOK(q, x) && x.part.Some? && x.attempts != []
    requires x.part.value + k <= |FrameAt(q, x.attempts[|x.attempts| - 1])|
    ensures var f, off := FrameAt(q, x.attempts[|x.attempts| - 1]), x.part.value;
            OutOK(q, x.(out := x.out + f[off..off + k], part := Some(off + k)))
  {
    hide Flat;
    SliceGrows(FrameAt(q, x.attempts[|x.attempts| - 1]), x.part.value, x.part.value + k);
  }

  /** The frame being sent is complete. */
  lemma DoneOut(q: seq<Entry>, x: Session)
    requires OutOK(q, x) && x.part.Some? && x.attempts != []
    requires x.part.value == |FrameAt(q, x.attempts[|x.attempts| - 1])|
    ensures OutOK(q, x.(part := None))
  {
    hide Flat;
    FlatLast(q, x.attempts);
    var f := FrameAt(q, x.attempts[|x.attempts| - 1]);
    assert f[..|f|] == f;
  }

  lemma SendSession(q: seq<Entry>, cells: seq<Cell>, i: nat, w: Worker, c: Choice)
    requires w.pc.Send? && CanStep(q, cells, w, c)
    requires CursorOK(q, w) && PartOK(w) && SessionOK(q, w.sess)
    ensures var after := ServeAfter(q, cells, i, w, c);
            after.Some? ==> SessionOK(q, after.value.sess)
  {
    hide Newer;
    hide OutOK;
    if c.Take? {
      TakeOut(q, w.sess, c.count);
    } else if c.Go? {
      DoneOut(q, w.sess);
    }
  }

  /** The session record after one serving step: the slice grows by the entry just decided. */
  lemma ServeSession(q: seq<Entry>, cells: seq<Cell>, i: nat, w: Worker, c: Choice)
    requires CanStep(q, cells, w, c) && Serving(w.pc)
    requires CursorOK(q, w) && PartOK(w) && ArgsOK(w) && SentOK(cells, i, w) && SessionOK(q, w.sess)
    ensures var after := ServeAfter(q, cells, i, w, c);
            after.Some? ==> SessionOK(q, after.value.sess)
  {
    match w.pc {
      case Test => DecideSession(q, cells, i, w);
      case Send(off) => SendSession(q, cells, i, w, c);
      case _ =>
    }
  }

  lemma ServeFailed(q: seq<Entry>, cells: seq<Cell>, i: nat, w: Worker, c: Choice)
    requires CanStep(q, cells, w, c) && Serving(w.pc)
    requires CursorOK(q, w) && PartOK(w) && FailedOK(w)
    ensures var after := ServeAfter(q, cells, i, w, c);
            after.Some? ==> FailedOK(after.value)
  {
    hide CanForward;
    var after := ServeAfter(q, cells, i, w, c);
    if after.Some? {
      var xs, ys := SessionsOf(w), SessionsOf(after.value);
      assert xs[..|xs| - 1] == w.past && ys[..|ys| - 1] == w.past;
    }
  }

  /** The session that starts when a worker resumes. */
  function NewSession(w: Worker): Session {
    var start := Position(w.next, w.current);
    Session(w.client, w.ts, start, start, [], [], None)
  }

  lemma EmptySessionOK(q: seq<Entry>, x: Session)
    requires x.start == x.hi <= |q| && x.attempts == [] && x.out == [] && x.part.None?
    ensures SessionOK(q, x)
  {
    assert Newer(q, x.ts, x.start, x.hi) == [];
  }

  lemma NewSessionOK(q: seq<Entry>, w: Worker)
    requires w.pc.Resume? && w.current.Some? && CursorOK(q, w)
    ensures SessionOK(q, NewSession(w))
    ensures w.sess.hi <= NewSession(w).start <= w.sess.hi + 1
  {
    EmptySessionOK(q, NewSession(w));
  }

  lemma LastFailedAppend(xs: seq<Session>, x: Session)
    requires x.attempts == []
    ensures LastFailed(xs + [x]) == LastFailed(xs)
  {
    assert (xs + [x])[..|xs|] == xs;
  }

  lemma ResumeFailed(q: seq<Entry>, cells: seq<Cell>, i: nat, w: Worker)
    requires w.pc.Resume? && AtEntry(q, cells, w) && FailedOK(w)
    ensures FailedOK(ParkAfter(q, cells, i, w, Go).value)
  {
    hide LastFailed;
    var v := ParkAfter(q, cells, i, w, Go).value;
    LastFailedAppend(SessionsOf(w), NewSession(w));
    assert SessionsOf(v) == SessionsOf(w) + [NewSession(w)];
  }

  lemma ResumeResult(q: seq<Entry>, cells: seq<Cell>, i: nat, w: Worker)
    requires w.pc.Resume? && AtEntry(q, cells, w)
    ensures ParkAfter(q, cells, i, w, Go).Some?
    ensures var v := ParkAfter(q, cells, i, w, Go).value;
            && v.pc == Get && v.past == w.past + [w.sess] && v.sess == NewSession(w)
            && v.sess.client == v.client && v.sess.ts == v.ts
  {
  }

  lemma AllOKSnoc(q: seq<Entry>, xs: seq<Session>, x: Session)
    requires (forall k :: 0 <= k < |xs| ==> SessionOK(q, xs[k])) && SessionOK(q, x)
    ensures forall k :: 0 <= k < |xs + [x]| ==> SessionOK(q, (xs + [x])[k])
  {
    hide SessionOK;
  }

  lemma ChainedAppend(xs: seq<Session>, x: Session)
    requires Chained(xs) && xs != [] && xs[|xs| - 1].hi <= x.start <= xs[|xs| - 1].hi + 1
    ensures Chained(xs + [x])
  {
  }

  /** A new session continues the chain, at the stop of the last one or one entry later. */
  lemma ResumeHistory(q: seq<Entry>, cells: seq<Cell>, i: nat, w: Worker)
    requires w.pc.Resume? && AtEntry(q, cells, w) && CursorOK(q, w) && HistoryOK(q, w)
    ensures var v := ParkAfter(q, cells, i, w, Go).value;
            HistoryOK(q, v) && ArgsOK(v)
  {
    hide SessionOK;
    hide CursorOK;
    hide Chained;
    hide ParkAfter;
    hide NewSession;
    ResumeResult(q, cells, i, w);
    NewSessionOK(q, w);
    var v := ParkAfter(q, cells, i, w, Go).value;
    var xs := SessionsOf(w);
    assert xs[|xs| - 1] == w.sess;
    ChainedAppend(xs, NewSession(w));
    AllOKSnoc(q, w.past, w.sess);
    assert SessionsOf(v) == xs + [NewSession(w)];
  }

  lemma ParkHistory(q: seq<Entry>, cells: seq<Cell>, i: nat, w: Worker, c: Choice)
    requires CanStep(q, cells, w, c) && !Serving(w.pc)
    requires CursorOK(q, w) && FailedOK(w) && HistoryOK(q, w)
    ensures var after := ParkAfter(q, cells, i, w, c);
            after.Some? ==> FailedOK(after.value) && HistoryOK(q, after.value) && ArgsOK(after.value)
  {
    hide ParkAfter;
    hide CursorOK;
    hide SessionOK;
    if w.pc.Resume? {
      hide FailedOK;
      hide HistoryOK;
      ResumeFailed(q, cells, i, w);
      ResumeHistory(q, cells, i, w);
    } else {
      ParkKeeps(q, cells, i, w, c);
    }
  }

  lemma ServeKeeps(q: seq<Entry>, cells: seq<Cell>, i: nat, w: Worker, c: Choice)
    requires CanStep(q, cells, w, c) && Serving(w.pc)
    ensures var after := ServeAfter(q, cells, i, w, c);
            after.Some? ==>
              var v := after.value;
              && v.past == w.past && v.client == w.client && v.ts == w.ts && !v.pc.Unborn?
              && v.sess.start == w.sess.start && v.sess.client == w.sess.client && v.sess.ts == w.sess.ts
  {
    hide CanForward;
  }

  lemma ChainedUpdate(past: seq<Session>, x: Session, y: Session)
    requires Chained(past + [x]) && y.start == x.start
    ensures Chained(past + [y])
  {
    var xs, ys := past + [x], past + [y];
    assert forall k :: 0 <= k < |xs| ==> ys[k].start == xs[k].start;
    assert forall k :: 0 <= k < |xs| - 1 ==> ys[k].hi == xs[k].hi;
  }

  /** Serving keeps the past and only moves the end of the current session. */
  lemma ServeHistory(q: seq<Entry>, cells: seq<Cell>, i: nat, w: Worker, c: Choice)
    requires CanStep(q, cells, w, c) && Serving(w.pc)
    requires CursorOK(q, w) && PartOK(w) && ArgsOK(w) && SentOK(cells, i, w) && HistoryOK(q, w)
    ensures var after := ServeAfter(q, cells, i, w, c);
            after.Some? ==> HistoryOK(q, after.value) && ArgsOK(after.value)
  {
    hide ServeAfter;
    hide SessionOK;
    ServeSession(q, cells, i, w, c);
    ServeKeeps(q, cells, i, w, c);
    var after := ServeAfter(q, cells, i, w, c);
    if after.Some? {
      ChainedUpdate(w.past, w.sess, after.value.sess);
    }
  }

  /** The sent masks after the worker's own step. */
  lemma OwnCells(q: seq<Entry>, cells: seq<Cell>, i: nat, w: Worker, c: Choice)
    requires CanStep(q, cells, w, c) && |cells| == |q|
    requires CursorOK(q, w) && SentOK(cells, i, w)
    ensures var after := WorkerAfter(q, cells, i, w, c);
            after.Some? ==> SentOK(CellsAfter(cells, i, w), i, after.value)
  {
    hide CanForward;
    var after := WorkerAfter(q, cells, i, w, c);
    if after.Some? {
      assert after.value.sess.hi >= w.sess.hi;
      assert w.pc.Mark? ==> w.current.value < w.sess.hi;
    }
  }

  /** One worker's step keeps that worker's invariant. */
  lemma OwnInv(q: seq<Entry>, cells: seq<Cell>, i: nat, w: Worker, c: Choice)
    requires CanStep(q, cells, w, c) && |cells| == |q| && WorkerInv(q, cells, i, w)
    ensures var after := WorkerAfter(q, cells, i, w, c);
            after.Some? ==> WorkerInv(q, CellsAfter(cells, i, w), i, after.value)
  {
    OwnCells(q, cells, i, w, c);
    if Serving(w.pc) {
      ServeCursor(q, cells, i, w, c);
      ServeFailed(q, cells, i, w, c);
      ServeHistory(q, cells, i, w, c);
    } else {
      ParkCursor(q, cells, i, w, c);
      ParkHistory(q, cells, i, w, c);
    }
    hide ServeAfter;
    hide ParkAfter;
    hide CellsAfter;
    hide CursorOK;
    hide PartOK;
    hide FailedOK;
    hide HistoryOK;
    hide SentOK;
    hide ArgsOK;
  }

  // Interference by the other threads.

  /** Cells may change in any way that does not set a bit of worker `i`. */
  predicate NoNewBit(cells: seq<Cell>, cells': seq<Cell>, i: nat) {
    && |cells| <= |cells'|
    && (forall e :: 0 <= e < |cells| && cells'[e].sent.Some? && i in cells'[e].sent.value ==>
          cells[e].sent.Some? && i in cells[e].sent.value)
    && (forall e :: |cells| <= e < |cells'| && cells'[e].sent.Some? ==> i !in cells'[e].sent.value)
  }

  lemma HistoryExtends(q: seq<Entry>, q': seq<Entry>, w: Worker)
    requires HistoryOK(q, w) && q <= q'
    ensures HistoryOK(q', w)
  {
    forall k | 0 <= k < |w.past|
      ensures SessionOK(q', w.past[k])
    {
      SessionExtends(q, q', w.past[k]);
    }
    SessionExtends(q, q', w.sess);
    hide SessionOK;
  }

  lemma Undisturbed(q: seq<Entry>, cells: seq<Cell>, q': seq<Entry>, cells': seq<Cell>, i: nat, w: Worker)
    requires WorkerInv(q, cells, i, w) && q <= q' && NoNewBit(cells, cells', i)
    ensures WorkerInv(q', cells', i, w)
  {
    assert SentOK(cells', i, w);
    HistoryExtends(q, q', w);
    hide HistoryOK;
    hide FailedOK;
    hide PartOK;
  }

  /** The destination server only touches workers that are not serving, and not their cursors. */
  lemma DstTouches(cfg: Config, s: State)
    requires Pool.PoolInv(cfg, s) && s.dst.Assigning? && DstEnabled(s)
    ensures var i, s' := s.dst.i, DstNext(s);
            var w := s.workers[i];
            && s'.queue == s.queue && s'.cells == s.cells && s'.src == s.src && s'.clock == s.clock
            && |s'.workers| == |s.workers|
            && s'.workers == s.workers[i := s'.workers[i]]
            && (s'.workers[i] == w
                || (!Serving(w.pc) && !Serving(s'.workers[i].pc) && w.pc.Unborn? == s'.workers[i].pc.Unborn?
                    && var v := s'.workers[i];
                       v == w.(pc := v.pc, status := v.status, lock := v.lock, client := v.client, ts := v.ts))
                || (s.dst.stage.Create? && w.pc.Unborn?
                    && s'.workers[i] == w.(pc := Get, sess := Session(w.client, w.ts, 0, 0, [], [], None))))
  {
    var i := s.dst.i;
    assert Pool.Compatible(i, s.workers[i], i in s.mask, Some(s.dst.stage));
  }

  lemma TouchedInv(q: seq<Entry>, cells: seq<Cell>, i: nat, w: Worker, v: Worker)
    requires WorkerInv(q, cells, i, w)
    requires !Serving(w.pc) && !Serving(v.pc) && w.pc.Unborn? == v.pc.Unborn?
    requires v == w.(pc := v.pc, status := v.status, lock := v.lock, client := v.client, ts := v.ts)
    ensures WorkerInv(q, cells, i, v)
  {
    hide SessionOK;
  }

  lemma LastFailedNone()
    ensures !LastFailed([])
  {
  }

  lemma CreatedInv(q: seq<Entry>, cells: seq<Cell>, i: nat, w: Worker)
    requires WorkerInv(q, cells, i, w) && w.pc.Unborn?
    ensures WorkerInv(q, cells, i, w.(pc := Get, sess := Session(w.client, w.ts, 0, 0, [], [], None)))
  {
    hide SessionOK;
    hide LastFailed;
    var x := Session(w.client, w.ts, 0, 0, [], [], None);
    EmptySessionOK(q, x);
    LastFailedAppend([], x);
    LastFailedNone();
    assert [] + [x] == [x];
    assert SessionsOf(w.(pc := Get, sess := x)) == [x];
  }

  // Whole steps.

  lemma DeliveryWorker(s: State, i: nat, c: Choice)
    requires DeliveryInv(s) && WorkerEnabled(s, i, c)
    ensures DeliveryInv(WorkerNext(s, i, c))
  {
    hide WorkerInv;
    hide WorkerAfter;
    hide InTimeOrder;
    var s' := WorkerNext(s, i, c);
    var w := s.workers[i];
    OwnInv(s.queue, s.cells, i, w, c);
    forall j | 0 <= j < |s.workers| && j != i
      ensures WorkerInv(s.queue, CellsAfter(s.cells, i, w), j, s.workers[j])
    {
      Undisturbed(s.queue, s.cells, s.queue, CellsAfter(s.cells, i, w), j, s.workers[j]);
    }
  }

  lemma DeliveryDst(cfg: Config, s: State)
    requires DeliveryInv(s) && Pool.PoolInv(cfg, s) && DstEnabled(s)
    ensures DeliveryInv(DstNext(s))
  {
    hide WorkerInv;
    hide InTimeOrder;
    hide Pool.PoolInv;
    if s.dst.Assigning? {
      var i, s' := s.dst.i, DstNext(s);
      DstTouches(cfg, s);
      hide DstNext;
      var w, v := s.workers[i], s'.workers[i];
      if v != w {
        if s.dst.stage.Create? && w.pc.Unborn? {
          CreatedInv(s.queue, s.cells, i, w);
        } else {
          TouchedInv(s.queue, s.cells, i, w, v);
        }
      }
    }
  }

  lemma DeliverySrc(cfg: Config, s: State, a: Action)
    requires DeliveryInv(s) && SrcEnabled(s, a)
    ensures DeliveryInv(SrcNext(cfg, s, a))
  {
    hide Ctmp.Parse;
    hide WorkerInv;
    var s' := SrcNext(cfg, s, a);
    if a.SrcStep? && s.src.Appending? {
      forall j | 0 <= j < |s.workers|
        ensures WorkerInv(s'.queue, s'.cells, j, s.workers[j])
      {
        Undisturbed(s.queue, s.cells, s'.queue, s'.cells, j, s.workers[j]);
      }
    }
  }

  lemma DeliveryCleaner(cfg: Config, s: State)
    requires DeliveryInv(s) && CleanerEnabled(s)
    ensures DeliveryInv(CleanerNext(cfg, s))
  {
    hide WorkerInv;
    hide InTimeOrder;
    var s' := CleanerNext(cfg, s);
    forall j | 0 <= j < |s.workers|
      ensures WorkerInv(s'.queue, s'.cells, j, s.workers[j])
    {
      Undisturbed(s.queue, s.cells, s'.queue, s'.cells, j, s.workers[j]);
    }
  }

  lemma DeliveryStep(cfg: Config, s: State, a: Action)
    requires DeliveryInv(s) && Pool.PoolInv(cfg, s) && Enabled(s, a)
    ensures DeliveryInv(Step(cfg, s, a))
  {
    match a {
      case WorkerStep(i, c) => DeliveryWorker(s, i, c);
      case DstStep => DeliveryDst(cfg, s);
      case CleanerStep => DeliveryCleaner(cfg, s);
      case Tick(now) =>
        hide WorkerInv;
        assert InTimeOrder(s.queue);
      case _ => DeliverySrc(cfg, s, a);
    }
  }

  lemma DeliveryInit(cfg: Config)
    ensures DeliveryInv(Init(cfg))
  {
    assert Newer([], EPOCH, 0, 0) == [];
    assert Flat([], []) == [];
    assert SessionOK([], NO_SESSION);
  }

  lemma {:induction false} DeliveryRun(cfg: Config, actions: seq<Action>)
    requires Exec(cfg, actions).Some?
    ensures DeliveryInv(Exec(cfg, actions).value)
  {
    hide DeliveryInv;
    hide Pool.PoolInv;
    hide Step;
    hide Enabled;
    if actions == [] {
      DeliveryInit(cfg);
    } else {
      var before := actions[..|actions| - 1];
      DeliveryRun(cfg, before);
      Pool.PoolInvRun(cfg, before);
      DeliveryStep(cfg, Exec(cfg, before).value, actions[|actions| - 1]);
    }
  }

  /** The delivery invariant holds in every reachable state. */
  lemma DeliveryReachable(cfg: Config, s: State)
    requires Reachable(cfg, s)
    ensures DeliveryInv(s)
  {
    hide DeliveryInv;
    var actions :| Exec(cfg, actions) == Some(s);
    DeliveryRun(cfg, actions);
  }
}
