/**
 * What a worker gets done by steps of its own: it serves a healthy client to the end of the queue,
 * gives up on a client that is gone, parks, and takes its next client (ws_server.c:105-171).
 */
module Service {
  import opened Common
  import opened Timestamp
  import opened Server
  import opened Sessions
  import opened Runs
  import Wire
  import Ctmp
  import Pool
  import Delivery
  import Broadcast
  import Blocking
  import EndToEnd
  import Cleanup

  lemma WorkerGo(cfg: Config, s: State, i: nat, t: State, c: Choice, u: State)
    requires Leads(cfg, s, WorkerActor(i), t) && t.fault.None? && WorkerEnabled(t, i, c) && WorkerNext(t, i, c) == u
    ensures Leads(cfg, s, WorkerActor(i), u)
  {
    hide Leads;
    hide WorkerNext;
    hide WorkerEnabled;
    LeadsOn(cfg, s, WorkerActor(i), t, WorkerStep(i, c), u);
  }

  lemma PutSame(s: State, i: nat)
    requires i < |s.workers|
    ensures Put(s, i, s.workers[i]) == s
  {
    assert s.workers[i := s.workers[i]] == s.workers;
  }

  lemma PutPut(s: State, i: nat, w: Worker, v: Worker)
    requires i < |s.workers|
    ensures var t := Put(s, i, w);
            && i < |t.workers| && t.workers[i] == w && Put(t, i, v) == Put(s, i, v)
            && t == s.(workers := t.workers)
  {
    assert s.workers[i := w][i := v] == s.workers[i := v];
  }

  /** From `s`, by steps that change nothing but worker `i`: from `w` to `v`. */
  lemma Moves(cfg: Config, s: State, i: nat, w: Worker, c: Choice, v: Worker)
    requires s.fault.None? && i < |s.workers| && Leads(cfg, s, WorkerActor(i), Put(s, i, w))
    requires CanStep(s.queue, s.cells, w, c) && WorkerAfter(s.queue, s.cells, i, w, c) == Some(v)
    requires !w.pc.WantMask? && !w.pc.ClearBit? && !w.pc.Mark? && !w.pc.ResetDo?
    ensures Leads(cfg, s, WorkerActor(i), Put(s, i, v))
  {
    hide Leads;
    hide WorkerAfter;
    hide CanStep;
    var t := Put(s, i, w);
    assert t.workers[i := v] == s.workers[i := v];
    assert WorkerNext(t, i, c) == Put(s, i, v);
    WorkerGo(cfg, s, i, t, c, Put(s, i, v));
  }

  lemma Stays(cfg: Config, s: State, i: nat)
    requires i < |s.workers|
    ensures Leads(cfg, s, WorkerActor(i), Put(s, i, s.workers[i]))
  {
    hide Leads;
    PutSame(s, i);
    LeadsNowhere(cfg, s, WorkerActor(i));
  }

  // Sending.

  /** The state once worker `i`, sending, has been rid of `n` more bytes of its frame. */
  function Took(s: State, i: nat, n: nat): State
    requires i < |s.workers| && s.workers[i].pc.Send? && AtEntry(s.queue, s.cells, s.workers[i])
    requires s.workers[i].pc.off + n <= |s.queue[s.workers[i].current.value].frame|
  {
    var w, off := s.workers[i], s.workers[i].pc.off;
    Put(s, i, w.(pc := Send(off + n),
                 sess := w.sess.(out := w.sess.out + s.queue[w.current.value].frame[off..off + n],
                                 part := Some(off + n))))
  }

  /** Worker `i` is sending and has the message; what it has sent so far is recorded. */
  predicate Sending(s: State, i: nat) {
    && s.fault.None? && i < |s.workers| && s.workers[i].pc.Send?
    && AtEntry(s.queue, s.cells, s.workers[i]) && s.cells[s.workers[i].current.value].msg
    && s.workers[i].pc.off <= |s.queue[s.workers[i].current.value].frame|
    && s.workers[i].sess.part == Some(s.workers[i].pc.off)
  }

  lemma TookNothing(s: State, i: nat)
    requires Sending(s, i)
    ensures Took(s, i, 0) == s
  {
    var w := s.workers[i];
    var f := s.queue[w.current.value].frame;
    assert w.sess.out + f[w.pc.off..w.pc.off] == w.sess.out;
    assert s.workers[i := w] == s.workers;
  }

  lemma TookMore(s: State, i: nat, m: nat, n: nat)
    requires Sending(s, i) && s.workers[i].pc.off + m + n <= |s.queue[s.workers[i].current.value].frame|
    ensures Sending(Took(s, i, m), i) && Took(Took(s, i, m), i, n) == Took(s, i, m + n)
  {
    var w := s.workers[i];
    var f, off := s.queue[w.current.value].frame, w.pc.off;
    assert f[off..off + m + n] == f[off..off + m] + f[off + m..off + m + n];
    assert w.sess.out + f[off..off + m + n] == w.sess.out + f[off..off + m] + f[off + m..off + m + n];
    assert Took(s, i, m).workers[i := Took(s, i, m + n).workers[i]] == Took(s, i, m + n).workers;
  }

  /** One call of `send` that takes `n` bytes. */
  lemma Takes(cfg: Config, s: State, i: nat, n: nat)
    requires Sending(s, i) && 0 < n && s.workers[i].pc.off + n <= |s.queue[s.workers[i].current.value].frame|
    requires s.workers[i].pc.off + n <= 8 || s.workers[i].pc.off >= 8
    ensures Enabled(s, WorkerStep(i, Take(n))) && Step(cfg, s, WorkerStep(i, Take(n))) == Took(s, i, n)
  {
  }

  lemma TookAt(s: State, i: nat, n: nat)
    requires Sending(s, i) && s.workers[i].pc.off + n <= |s.queue[s.workers[i].current.value].frame|
    ensures var t := Took(s, i, n);
            && i < |t.workers| && t.workers[i].pc == Send(s.workers[i].pc.off + n)
            && t.workers[i].current == s.workers[i].current && t.queue == s.queue
  {
  }

  lemma ExecFromNone(cfg: Config, s: State)
    ensures ExecFrom(cfg, s, []) == Some(s)
  {
  }

  /** The `send` calls of a script that take something: of `left` bytes of this call, then of `later` ones. */
  function TakesFor(i: nat, script: seq<Wire.SendEvent>, left: nat, later: nat): seq<Action> {
    if script == [] || left == 0 then []
    else
      match script[0] {
        case SendInterrupted => TakesFor(i, script[1..], left, later)
        case SendFailure(_) => []
        case Takes(n) =>
          if n == 0 then []
          else if n < left then [WorkerStep(i, Take(n))] + TakesFor(i, script[1..], left - n, later)
          else [WorkerStep(i, Take(left))] + TakesFor(i, script[1..], later, 0)
      }
  }

  /** How many bytes one call of `send_msg` and, if it succeeds, a second one get rid of. */
  function BytesTaken(script: seq<Wire.SendEvent>, left: nat, later: nat): (n: nat)
    ensures n <= left + later
  {
    var h := Wire.SendSpec(script, left);
    if h.code < 0 || later == 0 then h.taken else left + Wire.SendSpec(h.rest, later).taken
  }

  lemma {:induction false} FollowsScript(cfg: Config, s: State, i: nat, script: seq<Wire.SendEvent>,
                                         left: nat, later: nat)
    requires Sending(s, i)
    requires s.workers[i].pc.off + left + later == |s.queue[s.workers[i].current.value].frame|
    requires if later > 0 then 0 < left && s.workers[i].pc.off + left == 8 else s.workers[i].pc.off >= 8
    ensures ExecFrom(cfg, s, TakesFor(i, script, left, later)) == Some(Took(s, i, BytesTaken(script, left, later)))
    decreases |script|
  {
    hide Step;
    hide Enabled;
    hide Took;
    hide ExecFrom;
    if script == [] || left == 0 || script[0].SendFailure? || script[0] == Wire.Takes(0) {
      TookNothing(s, i);
      ExecFromNone(cfg, s);
    } else if script[0].SendInterrupted? {
      FollowsScript(cfg, s, i, script[1..], left, later);
    } else {
      var n := if script[0].count < left then script[0].count else left;
      var t := Took(s, i, n);
      Takes(cfg, s, i, n);
      if n < left {
        TookMore(s, i, n, BytesTaken(script[1..], left - n, later));
        TookAt(s, i, n);
        FollowsScript(cfg, t, i, script[1..], left - n, later);
        ExecFromCons(cfg, s, WorkerStep(i, Take(n)), TakesFor(i, script[1..], left - n, later));
      } else {
        TookMore(s, i, n, BytesTaken(script[1..], later, 0));
        TookAt(s, i, n);
        FollowsScript(cfg, t, i, script[1..], later, 0);
        ExecFromCons(cfg, s, WorkerStep(i, Take(n)), TakesFor(i, script[1..], later, 0));
      }
    }
  }

  /** A worker about to send is in order, as long as the message is there. */
  lemma SendStarts(cfg: Config, s: State, i: nat)
    requires Reachable(cfg, s) && s.fault.None? && i < |s.workers| && s.workers[i].pc.Send?
    requires AtEntry(s.queue, s.cells, s.workers[i]) && s.cells[s.workers[i].current.value].msg
    ensures Sending(s, i)
  {
    Blocking.SendsWithinFrame(cfg, s, i);
    Delivery.DeliveryReachable(cfg, s);
    assert Delivery.WorkerInv(s.queue, s.cells, i, s.workers[i]);
    hide Delivery.HistoryOK;
    hide Delivery.FailedOK;
  }

  /** The send can fail exactly when the frame is incomplete, and end well exactly when it is complete. */
  lemma SendEnds(s: State, i: nat)
    requires Sending(s, i)
    ensures var whole := s.workers[i].pc.off == |s.queue[s.workers[i].current.value].frame|;
            && (Enabled(s, WorkerStep(i, Fail)) <==> !whole)
            && (Enabled(s, WorkerStep(i, Go)) <==> whole)
  {
  }

  lemma BytesOfFrame(script: seq<Wire.SendEvent>, len: nat)
    requires len > 0
    ensures BytesTaken(script, 8, len) == Ctmp.FrameSpec(script, len).taken
  {
    hide Wire.SendSpec;
  }

  /**
   * The machine follows `Ctmp.SendCtmpMsg` event by event: for every script, taking what its `send`
   * calls take, header first and then data, is a run of the worker; it ends with the bytes that
   * FrameSpec says, able to fail or to go on as FrameSpec's code says.
   */
  lemma SendFollowsScript(cfg: Config, s: State, i: nat, script: seq<Wire.SendEvent>)
    requires Reachable(cfg, s) && s.fault.None? && i < |s.workers| && s.workers[i].pc == Send(0)
    requires AtEntry(s.queue, s.cells, s.workers[i]) && s.cells[s.workers[i].current.value].msg
    ensures var f := s.queue[s.workers[i].current.value].frame;
            && |f| > 8 && Ctmp.FrameSpec(script, |f| - 8).taken <= |f|
            && var o := Ctmp.FrameSpec(script, |f| - 8);
               var t := Took(s, i, o.taken);
               && ExecFrom(cfg, s, TakesFor(i, script, 8, |f| - 8)) == Some(t)
               && (Enabled(t, WorkerStep(i, Fail)) <==> o.code < 0)
               && (Enabled(t, WorkerStep(i, Go)) <==> o.code == 0)
  {
    var f := s.queue[s.workers[i].current.value].frame;
    EndToEnd.QueuedFramesHaveData(cfg, s, s.workers[i].current.value);
    SendStarts(cfg, s, i);
    Ctmp.FrameSentIffWhole(script, |f| - 8);
    BytesOfFrame(script, |f| - 8);
    hide Reachable;
    hide Enabled;
    hide ExecFrom;
    hide TakesFor;
    hide BytesTaken;
    hide Ctmp.FrameSpec;
    hide Wire.GaveUp;
    FollowsScript(cfg, s, i, script, 8, |f| - 8);
    var o := Ctmp.FrameSpec(script, |f| - 8);
    TookMore(s, i, o.taken, 0);
    TookAt(s, i, o.taken);
    SendEnds(Took(s, i, o.taken), i);
  }

  lemma {:induction false} SendsOn(cfg: Config, s: State, i: nat, n: nat)
    requires Sending(s, i) && s.workers[i].pc.off + n <= |s.queue[s.workers[i].current.value].frame|
    ensures Leads(cfg, s, WorkerActor(i), Took(s, i, n))
    decreases n
  {
    hide Leads;
    hide Step;
    hide Enabled;
    hide Took;
    if n == 0 {
      TookNothing(s, i);
      LeadsNowhere(cfg, s, WorkerActor(i));
    } else {
      SendsOn(cfg, s, i, n - 1);
      TookMore(s, i, n - 1, 1);
      TookAt(s, i, n - 1);
      var t := Took(s, i, n - 1);
      Takes(cfg, t, i, 1);
      LeadsOn(cfg, s, WorkerActor(i), t, WorkerStep(i, Take(1)), Took(s, i, n));
    }
  }

  /**
   * Every outcome of sending a frame is possible: any part of what is left can be taken, and then
   * the send can fail exactly when the frame is not complete.
   */
  lemma SendCovered(cfg: Config, s: State, i: nat, n: nat)
    requires Reachable(cfg, s) && s.fault.None? && i < |s.workers| && s.workers[i].pc.Send?
    requires AtEntry(s.queue, s.cells, s.workers[i]) && s.cells[s.workers[i].current.value].msg
    requires s.workers[i].pc.off + n <= |s.queue[s.workers[i].current.value].frame|
    ensures Leads(cfg, s, WorkerActor(i), Took(s, i, n))
    ensures var whole := s.workers[i].pc.off + n == |s.queue[s.workers[i].current.value].frame|;
            && (Enabled(Took(s, i, n), WorkerStep(i, Fail)) <==> !whole)
            && (Enabled(Took(s, i, n), WorkerStep(i, Go)) <==> whole)
  {
    SendStarts(cfg, s, i);
    hide Reachable;
    hide Leads;
    hide Enabled;
    SendsOn(cfg, s, i, n);
    TookMore(s, i, n, 0);
    TookAt(s, i, n);
    SendEnds(Took(s, i, n), i);
  }

  // Serving.

  function Following(s: State, e: nat): Option<nat> {
    if e + 1 < |s.queue| then Some(e + 1) else None
  }

  /** Worker `i` between two entries, once it has dealt with the entry at its cursor for a healthy client. */
  function AfterEntry(s: State, i: nat): State
    requires i < |s.workers| && s.workers[i].sess.hi < |s.queue| == |s.cells|
  {
    var w, e := s.workers[i], s.workers[i].sess.hi;
    var v := w.(pc := Get, current := Following(s, e), next := Following(s, e), prev := Some(e));
    if Before(w.ts, s.queue[e].ts) && s.cells[e].sent.Some? then
      var x := w.sess.(hi := e + 1, attempts := w.sess.attempts + [e],
                       out := w.sess.out + s.queue[e].frame, part := None);
      var cell := s.cells[e].(sent := Some(s.cells[e].sent.value + {i}));
      Put(s, i, v.(failed := false, sess := x)).(cells := s.cells[e := cell])
    else Put(s, i, v.(sess := w.sess.(hi := e + 1)))
  }

  /** Worker `i` has got the entry at its cursor and found its client alive. */
  lemma LooksAt(cfg: Config, s: State, i: nat)
    requires Reachable(cfg, s) && s.fault.None? && i < |s.workers|
    requires s.workers[i].pc.Get? && s.workers[i].sess.hi < |s.queue|
    ensures |s.cells| == |s.queue|
    ensures var w := s.workers[i];
            Leads(cfg, s, WorkerActor(i), Put(s, i, w.(pc := Test, current := Some(w.sess.hi))))
  {
    Blocking.GetsAtCursor(cfg, s, i);
    Cleanup.CleanReachable(cfg, s);
    hide Cleanup.CellOK;
    hide Reachable;
    hide Leads;
    hide GetEntry;
    hide Put;
    Stays(cfg, s, i);
    var w := s.workers[i];
    var v := w.(pc := Alive, current := Some(w.sess.hi));
    Moves(cfg, s, i, w, Go, v);
    Moves(cfg, s, i, v, Go, w.(pc := Test, current := Some(w.sess.hi)));
  }

  /** Testing an entry that the client is not owed, and going on. */
  lemma SkipSteps(q: seq<Entry>, cells: seq<Cell>, i: nat, w: Worker)
    requires w.pc.Test? && AtEntry(q, cells, w) && !w.failed && !Before(w.ts, q[w.current.value].ts)
    ensures var e := w.current.value;
            var v := w.(pc := Next, sess := w.sess.(hi := e + 1));
            var next := NextEntry(|q|, e);
            && CanStep(q, cells, w, Go) && WorkerAfter(q, cells, i, w, Go) == Some(v)
            && CanStep(q, cells, v, Go)
            && WorkerAfter(q, cells, i, v, Go) == Some(v.(pc := Get, current := next, next := next, prev := Some(e)))
  {
    hide ParkAfter;
  }

  lemma AfterSkip(s: State, i: nat)
    requires i < |s.workers| && s.workers[i].sess.hi < |s.queue| == |s.cells|
    requires !Before(s.workers[i].ts, s.queue[s.workers[i].sess.hi].ts)
    ensures var w, e := s.workers[i], s.workers[i].sess.hi;
            AfterEntry(s, i) ==
            Put(s, i, w.(pc := Get, current := Following(s, e), next := Following(s, e), prev := Some(e),
                         sess := w.sess.(hi := e + 1)))
  {
  }

  /** An entry stamped no later than the client was accepted is skipped. */
  lemma SkipsEntry(cfg: Config, s: State, i: nat)
    requires Reachable(cfg, s) && s.fault.None? && i < |s.workers|
    requires s.workers[i].pc.Get? && s.workers[i].sess.hi < |s.queue| && !s.workers[i].failed
    requires !Before(s.workers[i].ts, s.queue[s.workers[i].sess.hi].ts)
    ensures |s.cells| == |s.queue| && Leads(cfg, s, WorkerActor(i), AfterEntry(s, i))
  {
    LooksAt(cfg, s, i);
    AfterSkip(s, i);
    hide Reachable;
    hide Leads;
    hide Put;
    hide AfterEntry;
    hide WorkerAfter;
    hide CanStep;
    var w, e := s.workers[i], s.workers[i].sess.hi;
    var v := w.(pc := Test, current := Some(e));
    SkipSteps(s.queue, s.cells, i, v);
    var u := v.(pc := Next, sess := w.sess.(hi := e + 1));
    Moves(cfg, s, i, v, Go, u);
    Moves(cfg, s, i, u, Go, u.(pc := Get, current := Following(s, e), next := Following(s, e), prev := Some(e)));
  }

  /** The worker has decided to send entry `e`. */
  function Attempting(s: State, i: nat): State
    requires i < |s.workers|
  {
    var w, e := s.workers[i], s.workers[i].sess.hi;
    Put(s, i, w.(pc := Send(0), current := Some(e),
                 sess := w.sess.(hi := e + 1, attempts := w.sess.attempts + [e], part := Some(0))))
  }

  lemma AttemptStep(q: seq<Entry>, cells: seq<Cell>, i: nat, w: Worker)
    requires w.pc.Test? && AtEntry(q, cells, w)
    requires CanForward(q[w.current.value], cells[w.current.value], i, w.ts) == Some(true)
    ensures var e := w.current.value;
            WorkerAfter(q, cells, i, w, Go) ==
            Some(w.(pc := Send(0),
                    sess := w.sess.(hi := e + 1, attempts := w.sess.attempts + [e], part := Some(0))))
  {
    hide CanForward;
    hide ParkAfter;
  }

  /** An entry newer than the client, its data still there, is always attempted. */
  lemma Attempts(cfg: Config, s: State, i: nat)
    requires Reachable(cfg, s) && s.fault.None? && i < |s.workers|
    requires s.workers[i].pc.Get? && s.workers[i].sess.hi < |s.queue| == |s.cells|
    requires Before(s.workers[i].ts, s.queue[s.workers[i].sess.hi].ts) && Cleanup.Live(s.cells[s.workers[i].sess.hi])
    ensures Leads(cfg, s, WorkerActor(i), Attempting(s, i))
  {
    LooksAt(cfg, s, i);
    var w, e := s.workers[i], s.workers[i].sess.hi;
    var s1 := Put(s, i, w.(pc := Test, current := Some(e)));
    LeadsReachable(cfg, s, WorkerActor(i), s1);
    Broadcast.GuardNeverFires(cfg, s1, i);
    hide Reachable;
    hide Leads;
    AttemptStep(s.queue, s.cells, i, w.(pc := Test, current := Some(e)));
    var v := Attempting(s, i).workers[i];
    hide Put;
    hide WorkerAfter;
    hide CanForward;
    Moves(cfg, s, i, w.(pc := Test, current := Some(e)), Go, v);
  }

  /** Worker `i`, sending the frame of entry `e`, once the whole rest of it is out: marked, and on to the next entry. */
  function WholeSent(s: State, i: nat): State
    requires Sending(s, i)
  {
    var w, e := s.workers[i], s.workers[i].current.value;
    var x := w.sess.(out := w.sess.out + s.queue[e].frame[w.pc.off..], part := None);
    var v := w.(pc := Get, current := Following(s, e), next := Following(s, e), prev := Some(e),
                failed := false, sess := x);
    if s.cells[e].sent.Some? then
      Put(s, i, v).(cells := s.cells[e := s.cells[e].(sent := Some(s.cells[e].sent.value + {i}))])
    else Put(s, i, v)
  }

  /** A complete frame is marked, and the worker goes on to the next entry. */
  lemma GoesOn(cfg: Config, s: State, i: nat)
    requires Sending(s, i) && s.workers[i].pc.off == |s.queue[s.workers[i].current.value].frame|
    requires s.cells[s.workers[i].current.value].sent.Some?
    ensures Leads(cfg, s, WorkerActor(i), WholeSent(s, i))
  {
    hide Leads;
    LeadsNowhere(cfg, s, WorkerActor(i));
    var w, e := s.workers[i], s.workers[i].current.value;
    assert w.sess.out + s.queue[e].frame[w.pc.off..] == w.sess.out;
    var cell := s.cells[e].(sent := Some(s.cells[e].sent.value + {i}));
    var v := w.(pc := Mark, failed := false, sess := w.sess.(part := None));
    var s1 := Put(s, i, v);
    WorkerGo(cfg, s, i, s, Go, s1);
    var s2 := Put(s, i, v.(pc := Next)).(cells := s.cells[e := cell]);
    WorkerGo(cfg, s, i, s1, Go, s2);
    WorkerGo(cfg, s, i, s2, Go, WholeSent(s, i));
  }

  lemma SendsWhole(cfg: Config, s: State, i: nat)
    requires Sending(s, i) && s.cells[s.workers[i].current.value].sent.Some?
    ensures Leads(cfg, s, WorkerActor(i), WholeSent(s, i))
  {
    hide Leads;
    var w, f := s.workers[i], s.queue[s.workers[i].current.value].frame;
    var n := |f| - w.pc.off;
    var t := Took(s, i, n);
    SendsOn(cfg, s, i, n);
    TookMore(s, i, n, 0);
    GoesOn(cfg, t, i);
    assert w.sess.out + f[w.pc.off..] == w.sess.out + f[w.pc.off..w.pc.off + n] + f[|f|..];
    assert t.workers[i := WholeSent(s, i).workers[i]] == WholeSent(s, i).workers;
    LeadsThrough(cfg, s, WorkerActor(i), t, WholeSent(s, i));
  }

  lemma SentWhole(s: State, i: nat)
    requires s.fault.None? && i < |s.workers|
    requires s.workers[i].pc.Get? && s.workers[i].sess.hi < |s.queue| == |s.cells|
    requires Before(s.workers[i].ts, s.queue[s.workers[i].sess.hi].ts) && Cleanup.Live(s.cells[s.workers[i].sess.hi])
    ensures Sending(Attempting(s, i), i) && WholeSent(Attempting(s, i), i) == AfterEntry(s, i)
  {
    var f := s.queue[s.workers[i].sess.hi].frame;
    assert f[0..] == f;
    assert Attempting(s, i).workers[i := AfterEntry(s, i).workers[i]] == AfterEntry(s, i).workers;
  }

  /** An entry newer than the client is sent to it whole. */
  lemma SendsEntry(cfg: Config, s: State, i: nat)
    requires Reachable(cfg, s) && s.fault.None? && i < |s.workers|
    requires s.workers[i].pc.Get? && s.workers[i].sess.hi < |s.queue| == |s.cells|
    requires Before(s.workers[i].ts, s.queue[s.workers[i].sess.hi].ts) && Cleanup.Live(s.cells[s.workers[i].sess.hi])
    ensures Leads(cfg, s, WorkerActor(i), AfterEntry(s, i))
  {
    Attempts(cfg, s, i);
    var f, s1 := s.queue[s.workers[i].sess.hi].frame, Attempting(s, i);
    hide Reachable;
    hide Leads;
    assert Sending(s1, i);
    SendsWhole(cfg, s1, i);
    SentWhole(s, i);
    LeadsThrough(cfg, s, WorkerActor(i), s1, AfterEntry(s, i));
  }

  /** The data of every entry from the cursor on that the client is owed is still there. */
  predicate OwedAreLive(s: State, i: nat)
    requires i < |s.workers|
  {
    && |s.cells| == |s.queue|
    && forall e :: s.workers[i].sess.hi <= e < |s.queue| && Before(s.workers[i].ts, s.queue[e].ts) ==>
         Cleanup.Live(s.cells[e])
  }

  /** The failure of an earlier client does not strike at once: there is none, or the entry at hand is owed. */
  predicate NotHaunted(s: State, i: nat)
    requires i < |s.workers|
  {
    var w := s.workers[i];
    w.failed ==> w.sess.hi == |s.queue| || (w.sess.hi < |s.queue| && Before(w.ts, s.queue[w.sess.hi].ts))
  }

  /** The rest of the queue, entry by entry. */
  lemma {:induction false} GoesThroughQueue(cfg: Config, s: State, i: nat) returns (t: State)
    requires Reachable(cfg, s) && s.fault.None? && i < |s.workers| && s.workers[i].pc.Get?
    requires s.workers[i].sess.hi <= |s.queue| && OwedAreLive(s, i) && NotHaunted(s, i)
    ensures Leads(cfg, s, WorkerActor(i), t) && t.queue == s.queue && |t.workers| == |s.workers|
    ensures var w, v := s.workers[i], t.workers[i];
            && v.pc.Get? && v.sess.hi == |s.queue| && v.past == w.past
            && v.sess.client == w.sess.client && v.sess.ts == w.sess.ts && v.sess.start == w.sess.start
    decreases |s.queue| - s.workers[i].sess.hi
  {
    if s.workers[i].sess.hi == |s.queue| {
      hide Reachable;
      LeadsNowhere(cfg, s, WorkerActor(i));
      t := s;
    } else {
      if Before(s.workers[i].ts, s.queue[s.workers[i].sess.hi].ts) {
        SendsEntry(cfg, s, i);
      } else {
        SkipsEntry(cfg, s, i);
      }
      var s1 := AfterEntry(s, i);
      LeadsReachable(cfg, s, WorkerActor(i), s1);
      hide Leads;
      hide Reachable;
      t := GoesThroughQueue(cfg, s1, i);
      LeadsThrough(cfg, s, WorkerActor(i), s1, t);
    }
  }

  lemma CurrentSession(cfg: Config, s: State, i: nat)
    requires Reachable(cfg, s) && i < |s.workers| && s.workers[i].pc.Get?
    ensures Broadcast.IsSession(s, i, s.workers[i].sess)
    ensures SessionOK(s.queue, s.workers[i].sess) && InTimeOrder(s.queue)
    ensures s.workers[i].sess.part.None? && s.workers[i].sess.hi <= |s.queue|
  {
    Delivery.DeliveryReachable(cfg, s);
    assert Delivery.WorkerInv(s.queue, s.cells, i, s.workers[i]);
    var w := s.workers[i];
    assert Delivery.SessionsOf(w)[|w.past|] == w.sess;
    hide Delivery.FailedOK;
    hide Delivery.SentOK;
    hide Delivery.Chained;
  }

  /** The bytes of a session that has reached the end of the queue. */
  lemma SessionToEnd(q: seq<Entry>, x: Session)
    requires SessionOK(q, x) && InTimeOrder(q) && x.hi == |q| && x.part.None?
    ensures var first := FirstNewer(q, x.ts, x.start, |q|);
            x.attempts == Range(first, |q|) && x.out == Flatten(EndToEnd.FramesOf(q)[first..])
  {
    var fs, first := EndToEnd.FramesOf(q), FirstNewer(q, x.ts, x.start, |q|);
    EndToEnd.SessionBytes(q, x);
    NewerIsBlock(q, x.ts, x.start, x.hi);
    hide OutOK;
    hide Newer;
    assert fs[first..|fs|] == fs[first..];
  }

  /**
   * A healthy client gets everything: as long as its data is not freed, the worker can bring it to
   * the end of the queue, having sent it whole, byte for byte and in order, every entry of its
   * session that is newer than the client, and nothing else.
   */
  lemma HealthyClientGetsAll(cfg: Config, s: State, i: nat) returns (t: State)
    requires Reachable(cfg, s) && s.fault.None? && i < |s.workers| && s.workers[i].pc.Get?
    requires OwedAreLive(s, i) && NotHaunted(s, i)
    ensures Leads(cfg, s, WorkerActor(i), t) && t.queue == s.queue && |t.workers| == |s.workers|
    ensures var x, y := s.workers[i].sess, t.workers[i].sess;
            && t.workers[i].pc.Get? && t.workers[i].past == s.workers[i].past
            && y.client == x.client && y.ts == x.ts && y.start == x.start <= |s.queue| && y.part.None?
            && y.attempts == Range(FirstNewer(s.queue, x.ts, x.start, |s.queue|), |s.queue|)
            && y.out == Flatten(EndToEnd.FramesOf(s.queue)[FirstNewer(s.queue, x.ts, x.start, |s.queue|)..])
  {
    CurrentSession(cfg, s, i);
    t := GoesThroughQueue(cfg, s, i);
    LeadsReachable(cfg, s, WorkerActor(i), t);
    CurrentSession(cfg, t, i);
    hide Leads;
    hide Reachable;
    hide SessionOK;
    hide OwedAreLive;
    hide NotHaunted;
    SessionToEnd(t.queue, t.workers[i].sess);
  }

  // The end of a session, and the next one.

  /** A client that is gone is closed, whatever else. */
  lemma ClosesGone(cfg: Config, s: State, i: nat)
    requires Reachable(cfg, s) && s.fault.None? && i < |s.workers| && s.workers[i].pc.Alive?
    ensures Leads(cfg, s, WorkerActor(i), Put(s, i, s.workers[i].(pc := Close)))
  {
    Broadcast.EntryAtHand(cfg, s, i);
    hide Reachable;
    hide Leads;
    LeadsNowhere(cfg, s, WorkerActor(i));
    WorkerGo(cfg, s, i, s, Fail, Put(s, i, s.workers[i].(pc := Close)));
  }

  /** A client to which a send has failed is closed, the attempt marked and remembered. */
  lemma ClosesAfterFailure(cfg: Config, s: State, i: nat)
    requires Sending(s, i) && s.workers[i].pc.off < |s.queue[s.workers[i].current.value].frame|
    requires s.cells[s.workers[i].current.value].sent.Some?
    ensures var w, e := s.workers[i], s.workers[i].current.value;
            var cell := s.cells[e].(sent := Some(s.cells[e].sent.value + {i}));
            Leads(cfg, s, WorkerActor(i),
                  Put(s, i, w.(pc := Close, next := Following(s, e), failed := true)).(cells := s.cells[e := cell]))
  {
    hide Leads;
    LeadsNowhere(cfg, s, WorkerActor(i));
    var w, e := s.workers[i], s.workers[i].current.value;
    var cell := s.cells[e].(sent := Some(s.cells[e].sent.value + {i}));
    var s1 := Put(s, i, w.(pc := Mark, failed := true));
    WorkerGo(cfg, s, i, s, Fail, s1);
    var s2 := Put(s, i, w.(pc := Next, failed := true)).(cells := s.cells[e := cell]);
    WorkerGo(cfg, s, i, s1, Go, s2);
    WorkerGo(cfg, s, i, s2, Go,
             Put(s, i, w.(pc := Close, next := Following(s, e), failed := true)).(cells := s.cells[e := cell]));
  }

  lemma ServesUnlocked(cfg: Config, s: State, i: nat)
    requires Reachable(cfg, s) && i < |s.workers| && s.workers[i].pc.Close?
    ensures s.workers[i].lock.None?
  {
    Pool.PoolInvReachable(cfg, s);
    assert Pool.Compatible(i, s.workers[i], i in s.mask, Pool.StageFor(s.dst, i));
  }

  lemma ParksLocked(cfg: Config, s: State, i: nat)
    requires s.fault.None? && s.maskLock.None? && i < |s.workers|
    requires s.workers[i].pc.WantMask? && s.workers[i].status == Ready
    ensures Leads(cfg, s, WorkerActor(i),
                  Put(s, i, s.workers[i].(pc := Wait, lock := None)).(mask := s.mask - {i}))
  {
    hide Leads;
    LeadsNowhere(cfg, s, WorkerActor(i));
    var w := s.workers[i];
    var s1 := Put(s, i, w.(pc := ClearBit)).(maskLock := Some(WorkerThread(i)));
    WorkerGo(cfg, s, i, s, Go, s1);
    var s2 := Put(s, i, w.(pc := Check)).(mask := s.mask - {i});
    WorkerGo(cfg, s, i, s1, Go, s2);
    WorkerGo(cfg, s, i, s2, Go, Put(s, i, w.(pc := Wait, lock := None)).(mask := s.mask - {i}));
  }

  /** A worker that has closed its client parks, with its status and its bit saying that it is idle. */
  lemma Parks(cfg: Config, s: State, i: nat)
    requires Reachable(cfg, s) && s.fault.None? && s.maskLock.None? && i < |s.workers| && s.workers[i].pc.Close?
    ensures Leads(cfg, s, WorkerActor(i),
                  Put(s, i, s.workers[i].(pc := Wait, status := Ready)).(mask := s.mask - {i}))
  {
    ServesUnlocked(cfg, s, i);
    hide Reachable;
    hide Leads;
    hide Put;
    Stays(cfg, s, i);
    var w, me := s.workers[i], Some(WorkerThread(i));
    Moves(cfg, s, i, w, Go, w.(pc := LockSelf));
    Moves(cfg, s, i, w.(pc := LockSelf), Go, w.(pc := SetReady, lock := me));
    var v := w.(pc := WantMask, status := Ready, lock := me);
    Moves(cfg, s, i, w.(pc := SetReady, lock := me), Go, v);
    PutPut(s, i, v, w.(pc := Wait, status := Ready));
    ParksLocked(cfg, Put(s, i, v), i);
    LeadsThrough(cfg, s, WorkerActor(i), Put(s, i, v),
                 Put(s, i, w.(pc := Wait, status := Ready)).(mask := s.mask - {i}));
  }

  /** Worker `i` once it has noticed its next client, reset its bit and begun the new session. */
  function Resumed(s: State, i: nat): State
    requires i < |s.workers| && AtEntry(s.queue, s.cells, s.workers[i])
  {
    var w, e := s.workers[i], s.workers[i].current.value;
    var start := if w.next.Some? then w.next.value else e + 1;
    var t := Put(s, i, w.(pc := Get, lock := None, prev := w.current, current := w.next, past := w.past + [w.sess],
                          sess := Session(w.client, w.ts, start, start, [], [], None)));
    if s.cells[e].sent.Some? then
      t.(cells := s.cells[e := s.cells[e].(sent := Some(s.cells[e].sent.value - {i}))])
    else t
  }

  /** The reset of the sent bit, and the start of the session. */
  lemma ResetsBit(cfg: Config, s: State, i: nat)
    requires s.fault.None? && i < |s.workers| && AtEntry(s.queue, s.cells, s.workers[i])
    requires s.workers[i].pc.ResetTest?
    ensures Leads(cfg, s, WorkerActor(i), Resumed(s, i))
  {
    hide Leads;
    LeadsNowhere(cfg, s, WorkerActor(i));
    var w, e := s.workers[i], s.workers[i].current.value;
    var s2 := Put(s, i, w.(pc := Resume)).(cells := Resumed(s, i).cells);
    if s.cells[e].sent.Some? {
      var s1 := Put(s, i, w.(pc := ResetDo));
      WorkerGo(cfg, s, i, s, Go, s1);
      WorkerGo(cfg, s, i, s1, Go, s2);
    } else {
      WorkerGo(cfg, s, i, s, Go, s2);
    }
    WorkerGo(cfg, s, i, s2, Go, Resumed(s, i));
  }

  /** Only the fields that a new session starts from matter. */
  lemma ResumedSame(s: State, i: nat, u: Worker)
    requires i < |s.workers| && AtEntry(s.queue, s.cells, s.workers[i])
    requires u == s.workers[i].(pc := u.pc, lock := u.lock)
    ensures var t := Put(s, i, u);
            i < |t.workers| && AtEntry(t.queue, t.cells, t.workers[i]) && Resumed(t, i) == Resumed(s, i)
  {
    assert s.workers[i := u][i := Resumed(s, i).workers[i]] == Resumed(s, i).workers;
  }

  /** A woken worker takes up its next client, freed data or not, as long as nothing is freed meanwhile. */
  lemma Resumes(cfg: Config, s: State, i: nat)
    requires s.fault.None? && i < |s.workers| && AtEntry(s.queue, s.cells, s.workers[i])
    requires s.workers[i].pc.Relock? && s.workers[i].status == Busy && s.workers[i].lock.None?
    ensures Leads(cfg, s, WorkerActor(i), Resumed(s, i))
  {
    hide Leads;
    hide Put;
    Stays(cfg, s, i);
    var w := s.workers[i];
    var v := w.(pc := Check, lock := Some(WorkerThread(i)));
    Moves(cfg, s, i, w, Go, v);
    var u := v.(pc := ResetTest);
    Moves(cfg, s, i, v, Go, u);
    PutPut(s, i, u, u);
    ResetsBit(cfg, Put(s, i, u), i);
    ResumedSame(s, i, u);
    LeadsThrough(cfg, s, WorkerActor(i), Put(s, i, u), Resumed(s, i));
  }
}
