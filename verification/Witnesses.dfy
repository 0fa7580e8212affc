/**
 * Concrete runs of a server with one worker that show where the obvious promises fail.  The exact
 * conditions are Broadcast.CompleteIff, Broadcast.PassedOverIff, Broadcast.ClosesIff,
 * Cleanup.FaultIff, for entries the client is not owed Cleanup.OldEntryFaultIff, and
 * Cleanup.FreedIffMessageArrived.
 */
module Witnesses {
  import opened Common
  import opened Timestamp
  import opened Server
  import opened Delivery
  import opened Runs
  import Broadcast
  import Cleanup
  import Wire
  import Ctmp
  import Framing
  import Progress
  import Service

  const CFG := Config(1, 2, false)

  /** A message with one byte of data. */
  const FRAME: Frame := [0xcc, 0, 0, 1, 0, 0, 0, 0, 42]

  const T1 := Time(1, 0)
  const T2 := Time(2, 0)
  const T3 := Time(3, 0)
  const T4 := Time(4, 0)
  const T9 := Time(9, 0)

  // Runs of one thread while the others stand still.

  /** The worker's step is possible and leads to `s'`. */
  lemma WorkerGo(s: State, c: Choice, s': State)
    requires Reachable(CFG, s) && s.fault.None? && WorkerEnabled(s, 0, c) && WorkerNext(s, 0, c) == s'
    ensures Reachable(CFG, s')
  {
    StepReachable(CFG, s, WorkerStep(0, c));
  }

  lemma DstGo(s: State, s': State)
    requires Reachable(CFG, s) && s.fault.None? && DstEnabled(s) && DstNext(s) == s'
    ensures Reachable(CFG, s')
  {
    StepReachable(CFG, s, DstStep);
  }

  lemma TickTo(s: State, now: Time)
    requires Reachable(CFG, s) && s.fault.None? && NotAfter(s.clock, now)
    ensures Reachable(CFG, s.(clock := now))
  {
    StepReachable(CFG, s, Tick(now));
  }

  /** The server with its only worker. */
  ghost predicate Lone(s: State, w: Worker) {
    Reachable(CFG, s) && s.fault.None? && s.workers == [w] && s.maskLock.None?
  }

  lemma ByWorker(s: State, t: State)
    requires Reachable(CFG, s) && Leads(CFG, s, WorkerActor(0), t)
    ensures Reachable(CFG, t)
  {
    LeadsReachable(CFG, s, WorkerActor(0), t);
  }

  lemma ByDst(s: State, t: State)
    requires Reachable(CFG, s) && Leads(CFG, s, DstActor, t)
    ensures Reachable(CFG, t)
  {
    LeadsReachable(CFG, s, DstActor, t);
  }

  /** A closing worker parks. */
  lemma Park(s: State, w: Worker)
    requires Lone(s, w) && w.pc.Close?
    ensures Lone(s.(workers := [w.(pc := Wait, status := Ready)], mask := s.mask - {0}),
                 w.(pc := Wait, status := Ready))
  {
    Service.Parks(CFG, s, 0);
    assert s.workers[0 := w.(pc := Wait, status := Ready)] == [w.(pc := Wait, status := Ready)];
    ByWorker(s, s.(workers := [w.(pc := Wait, status := Ready)], mask := s.mask - {0}));
  }

  /** The destination server, having accepted a client, finds the parked worker and wakes it. */
  lemma Wake(s: State, w: Worker)
    requires Lone(s, w) && w.pc.Wait? && w.status == Ready && w.lock.None? && 0 !in s.mask
    requires s.dst.Scanning? && s.dst.i == 0
    ensures var v := w.(pc := Relock, status := Busy, client := s.dst.client, ts := s.dst.ts);
            Lone(s.(workers := [v], mask := s.mask + {0}, dst := Accepting,
                    log := s.log + [Assignment(s.dst.client, s.dst.ts, 0)]), v)
  {
    var s1 := s.(dst := Assigning(Switch, s.dst.client, s.dst.ts, 0, s.dst.snap));
    Progress.ScanFindsFirstIdle(CFG, s, 0);
    ByDst(s, s1);
    Progress.WakesWorker(CFG, s1);
    var v := w.(pc := Relock, status := Busy, client := s.dst.client, ts := s.dst.ts);
    assert s.workers[0 := v] == [v];
    ByDst(s1, Progress.HandedOver(s1, s.dst.client, s.dst.ts, 0));
  }

  /** The woken worker notices its client. */
  lemma Notice(s: State, w: Worker)
    requires Lone(s, w) && w.pc.Relock? && w.status == Busy && w.lock.None?
    ensures var v := w.(pc := ResetTest, lock := Some(WorkerThread(0)));
            Lone(s.(workers := [v]), v)
  {
    hide Reachable;
    var me := Some(WorkerThread(0));
    var s1 := s.(workers := [w.(pc := Check, lock := me)]);
    WorkerGo(s, Go, s1);
    var s2 := s.(workers := [w.(pc := ResetTest, lock := me)]);
    WorkerGo(s1, Go, s2);
  }

  /** The destination server accepts a client and starts to scan. */
  lemma Accept(s: State, w: Worker)
    requires Lone(s, w) && s.dst.Accepting?
    ensures Lone(s.(dst := Scanning(s.clients, s.clock, 0, s.mask), clients := s.clients + 1), w)
  {
    hide Reachable;
    var s1 := s.(dst := Accepted(s.clients), clients := s.clients + 1);
    DstGo(s, s1);
    DstGo(s1, s1.(dst := Scanning(s.clients, s.clock, 0, s.mask)));
  }

  /** The first client gets the worker created. */
  lemma FirstClient(s: State, w: Worker)
    requires Lone(s, w) && w == InitWorker() && 0 !in s.mask && s.dst.Scanning? && s.dst.i == 0
    ensures var v := w.(pc := Get, status := Busy, client := s.dst.client, ts := s.dst.ts,
                        sess := Session(s.dst.client, s.dst.ts, 0, 0, [], [], None));
            Lone(s.(workers := [v], mask := s.mask + {0}, dst := Accepting,
                    log := s.log + [Assignment(s.dst.client, s.dst.ts, 0)]), v)
  {
    var s1 := s.(dst := Assigning(Switch, s.dst.client, s.dst.ts, 0, s.dst.snap));
    Progress.ScanFindsFirstIdle(CFG, s, 0);
    ByDst(s, s1);
    Progress.CreatesWorker(CFG, s1);
    var v := w.(pc := Get, status := Busy, client := s.dst.client, ts := s.dst.ts,
                sess := Session(s.dst.client, s.dst.ts, 0, 0, [], [], None));
    assert s.workers[0 := v] == [v];
    ByDst(s1, Progress.HandedOver(s1, s.dst.client, s.dst.ts, 0));
  }

  lemma ParseFrame(rest: seq<Wire.Item>)
    ensures Ctmp.Parse(false, Wire.Octets(FRAME) + rest) == Ctmp.Parsed(Some(FRAME), rest)
  {
    assert Framing.BodyLength(FRAME) == 1;
    Framing.ParseUnit(false, FRAME, rest);
  }

  /** The source sends one more message. */
  lemma Message(s: State, w: Worker, rest: seq<Wire.Item>)
    requires Lone(s, w) && s.src == Connected(Wire.Octets(FRAME) + rest)
    ensures Lone(s.(src := Connected(rest), queue := s.queue + [Entry(s.clock, FRAME)],
                    cells := s.cells + [Cell(true, Some({}))]), w)
  {
    ParseFrame(rest);
    hide Ctmp.Parse;
    Progress.SourceAppends(CFG, s, FRAME, rest);
    Progress.WithFramesCons(s, FRAME, [], s.src);
    LeadsReachable(CFG, s, SourceActor, Progress.WithFrames(s, [FRAME]).(src := Connected(rest)));
  }

  /** The cleanup thread frees the only entry and rests. */
  lemma FreeFirst(s: State, w: Worker)
    requires Lone(s, w) && s.cleaner == Cleaner(CGet, None, None, EPOCH)
    requires |s.queue| == 1 && |s.cells| == 1 && Cleanup.Live(s.cells[0]) && Cleanup.ExpiredAt(CFG, s.queue[0], s.clock)
    ensures Lone(s.(cleaner := Cleaner(CGet, None, Some(0), s.clock), cells := [Cell(false, None)]), w)
  {
    Progress.PassFreesExpired(CFG, s);
    Cleanup.ExpiredIff(CFG, s.queue[0], s.clock);
    assert Progress.Swept(CFG, s, 0) == [Cell(false, None)];
    LeadsReachable(CFG, s, CleanerActor,
                   s.(cleaner := Cleaner(CGet, None, Some(0), s.clock), cells := [Cell(false, None)]));
  }

  // Two starting points: a client connected at T1, one message at T2.

  const TWO := Wire.Octets(FRAME) + (Wire.Octets(FRAME) + [])

  const W1 := InitWorker().(pc := Get, status := Busy, client := 0, ts := T1,
                            sess := Session(0, T1, 0, 0, [], [], None))

  /** The worker serves client 0, the source is connected, nothing has been sent. */
  function Served(): State {
    Init(CFG).(clock := T1, src := Connected(TWO), streams := [TWO], workers := [W1], mask := {0},
               clients := 1, log := [Assignment(0, T1, 0)])
  }

  lemma ServedReachable()
    ensures Lone(Served(), W1)
  {
    var w := InitWorker();
    var s0 := Init(CFG);
    InitReachable(CFG);
    assert s0.workers == [w];
    TickTo(s0, T1);
    var s1 := s0.(clock := T1);
    StepReachable(CFG, s1, SrcAccept(TWO));
    var s2 := s1.(src := Connected(TWO), streams := [TWO]);
    assert Step(CFG, s1, SrcAccept(TWO)) == s2;
    hide Reachable;
    Accept(s2, w);
    var s3 := s2.(dst := Scanning(0, T1, 0, {}), clients := 1);
    FirstClient(s3, w);
    assert Served() == s3.(workers := [W1], mask := {} + {0}, dst := Accepting, log := [] + [Assignment(0, T1, 0)]);
  }

  const E0 := Entry(T2, FRAME)
  const E1 := Entry(T3, FRAME)
  const FRESH := Cell(true, Some({}))

  /** The first message has arrived at T2; the destination server is in state `d`. */
  function FirstMessage(d: Dst, clients: nat): State {
    Served().(clock := T2, src := Connected(Wire.Octets(FRAME) + []), queue := [E0], cells := [FRESH],
              dst := d, clients := clients)
  }

  lemma FirstMessageReachable(d: Dst, clients: nat)
    requires Lone(Served().(dst := d, clients := clients), W1)
    ensures Lone(FirstMessage(d, clients), W1)
  {
    var s := Served().(dst := d, clients := clients);
    TickTo(s, T2);
    hide Reachable;
    Message(s.(clock := T2), W1, Wire.Octets(FRAME) + []);
    assert [] + [E0] == [E0] && [] + [FRESH] == [FRESH];
  }

  /** The worker takes the entry it waited for and finds its client gone. */
  lemma FoundGone(s: State)
    requires Lone(s, W1) && s.queue == [E0] && |s.cells| == 1
    ensures var v := W1.(pc := Close, current := Some(0));
            Lone(s.(workers := [v]), v)
  {
    hide Reachable;
    var s1 := s.(workers := [W1.(pc := Alive, current := Some(0))]);
    WorkerGo(s, Go, s1);
    WorkerGo(s1, Fail, s.(workers := [W1.(pc := Close, current := Some(0))]));
  }

  /** The worker takes the entry it waited for and finds its client alive. */
  lemma FoundAlive(s: State, w: Worker)
    requires Lone(s, w) && w.pc.Get? && w.sess.hi < |s.queue|
    ensures var v := w.(pc := Test, current := Some(w.sess.hi));
            Lone(s.(workers := [v]), v)
  {
    Service.LooksAt(CFG, s, 0);
    var v := w.(pc := Test, current := Some(w.sess.hi));
    assert s.workers[0 := v] == [v];
    ByWorker(s, s.(workers := [v]));
  }

  /** The worker, its client noticed, resets its bit on entry 0 and starts the new session. */
  lemma StartOver(s: State, w: Worker)
    requires Lone(s, w) && w.pc.ResetTest? && w.current == Some(0) && w.next.None?
    requires |s.queue| == |s.cells| > 0 && s.cells[0].sent.Some?
    ensures var v := w.(pc := Get, lock := None, prev := Some(0), current := None, past := w.past + [w.sess],
                        sess := Session(w.client, w.ts, 1, 1, [], [], None));
            var cells := s.cells[0 := s.cells[0].(sent := Some(s.cells[0].sent.value - {0}))];
            Lone(s.(workers := [v], cells := cells), v)
  {
    Service.ResetsBit(CFG, s, 0);
    var v := w.(pc := Get, lock := None, prev := Some(0), current := None, past := w.past + [w.sess],
                sess := Session(w.client, w.ts, 1, 1, [], [], None));
    var cells := s.cells[0 := s.cells[0].(sent := Some(s.cells[0].sent.value - {0}))];
    assert s.workers[0 := v] == [v];
    ByWorker(s, s.(workers := [v], cells := cells));
  }

  // The witnesses.

  /** A client that connected before a message can miss it: the worker it got had just passed the entry. */
  lemma OwedMessageMissed()
    ensures exists s, x :: Reachable(CFG, s) && Broadcast.IsSession(s, 0, x) && !Broadcast.MissedNothing(s.queue, x)
  {
    hide Reachable;
    ServedReachable();
    Accept(Served(), W1);
    FirstMessageReachable(Scanning(1, T1, 0, {0}), 2);
    var s0 := FirstMessage(Scanning(1, T1, 0, {0}), 2);
    FoundGone(s0);
    var w1 := W1.(pc := Close, current := Some(0));
    Park(s0.(workers := [w1]), w1);
    var w2 := w1.(pc := Wait, status := Ready);
    var s2 := s0.(workers := [w2], mask := {0} - {0});
    Wake(s2, w2);
    var w3 := w2.(pc := Relock, status := Busy, client := 1, ts := T1);
    var s3 := s2.(workers := [w3], mask := s2.mask + {0}, dst := Accepting, log := s2.log + [Assignment(1, T1, 0)]);
    Notice(s3, w3);
    var w4 := w3.(pc := ResetTest, lock := Some(WorkerThread(0)));
    var s4 := s3.(workers := [w4]);
    StartOver(s4, w4);
    var x := Session(1, T1, 1, 1, [], [], None);
    var w5 := w4.(pc := Get, lock := None, prev := Some(0), current := None, past := w4.past + [w4.sess], sess := x);
    var s5 := s4.(workers := [w5], cells := [FRESH][0 := FRESH.(sent := Some({} - {0}))]);
    assert SessionsOf(w5)[|w5.past|] == x;
    assert Broadcast.IsSession(s5, 0, x);
    assert s5.queue[0] == E0 && Before(x.ts, E0.ts) && 0 !in x.attempts;
  }

  /** A receiver that is slow for longer than the time to live makes its worker read freed data. */
  lemma SlowReceiverFaults()
    ensures exists s :: Reachable(CFG, s) && WorkerEnabled(s, 0, Go) && Cleanup.Faults(s, 0, Go)
                        && s.workers[0].pc.Test?
  {
    hide Reachable;
    ServedReachable();
    FirstMessageReachable(Accepting, 1);
    var s0 := FirstMessage(Accepting, 1);
    FoundAlive(s0, W1);
    var w1 := W1.(pc := Test, current := Some(0));
    var s1 := s0.(workers := [w1]);
    TickTo(s1, T9);
    var s2 := s1.(clock := T9);
    FreeFirst(s2, w1);
    var s3 := s2.(cleaner := Cleaner(CGet, None, Some(0), T9), cells := [Cell(false, None)]);
    assert WorkerEnabled(s3, 0, Go) && Cleanup.Faults(s3, 0, Go);
  }

  /** Expired data is kept: the cleanup thread rests, although a message is past its time to live. */
  lemma ExpiredDataKept()
    ensures exists s :: Reachable(CFG, s) && Cleanup.Resting(s) && |s.queue| == 1 && |s.cells| == 1
                        && Cleanup.ExpiredAt(CFG, s.queue[0], s.clock) && Cleanup.Live(s.cells[0])
  {
    hide Reachable;
    ServedReachable();
    FirstMessageReachable(Accepting, 1);
    var s0 := FirstMessage(Accepting, 1);
    Progress.PassFreesExpired(CFG, s0);
    assert Progress.Swept(CFG, s0, 0) == s0.cells;
    var s4 := s0.(cleaner := Cleaner(CGet, None, Some(0), T2));
    LeadsReachable(CFG, s0, CleanerActor, s4);
    TickTo(s4, T9);
    var s5 := s4.(clock := T9);
    assert Cleanup.Resting(s5) && Cleanup.ExpiredAt(CFG, s5.queue[0], s5.clock) && Cleanup.Live(s5.cells[0]);
  }

  /** Even a client that connected after an entry can fault on it, between the check and the reset of its sent bit. */
  lemma ResetRaceFaults()
    ensures exists s :: Reachable(CFG, s) && WorkerEnabled(s, 0, Go) && Cleanup.Faults(s, 0, Go)
                        && AtEntry(s.queue, s.cells, s.workers[0])
                        && !Before(s.workers[0].ts, s.queue[s.workers[0].current.value].ts)
  {
    hide Reachable;
    ServedReachable();
    FirstMessageReachable(Accepting, 1);
    var s0 := FirstMessage(Accepting, 1);
    FoundGone(s0);
    var w1 := W1.(pc := Close, current := Some(0));
    var s1 := s0.(workers := [w1]);
    Park(s1, w1);
    var w2 := w1.(pc := Wait, status := Ready);
    var s2 := s1.(workers := [w2], mask := {0} - {0});
    Accept(s2, w2);
    var s3 := s2.(dst := Scanning(1, T2, 0, s2.mask), clients := 2);
    Wake(s3, w2);
    var w4 := w2.(pc := Relock, status := Busy, client := 1, ts := T2);
    var s4 := s3.(workers := [w4], mask := s3.mask + {0}, dst := Accepting, log := s3.log + [Assignment(1, T2, 0)]);
    Notice(s4, w4);
    var w5 := w4.(pc := ResetTest, lock := Some(WorkerThread(0)));
    var s5 := s4.(workers := [w5]);
    var w6 := w5.(pc := ResetDo);
    var s6 := s4.(workers := [w6]);
    WorkerGo(s5, Go, s6);
    TickTo(s6, T9);
    var s7 := s6.(clock := T9);
    FreeFirst(s7, w6);
    var s8 := s7.(cleaner := Cleaner(CGet, None, Some(0), T9), cells := [Cell(false, None)]);
    assert WorkerEnabled(s8, 0, Go) && Cleanup.Faults(s8, 0, Go);
  }

  /** The worker tries to send entry 0 to its first client and fails; then it closes the client. */
  lemma SendFails(s: State)
    requires Lone(s, W1) && s.queue == [E0] && s.cells == [FRESH]
    ensures var v := W1.(pc := Close, current := Some(0), failed := true,
                         sess := Session(0, T1, 0, 1, [0], [], Some(0)));
            Lone(s.(workers := [v], cells := [Cell(true, Some({0}))]), v)
  {
    var x := Session(0, T1, 0, 1, [0], [], Some(0));
    var w := W1.(pc := Send(0), current := Some(0), sess := x);
    Service.Attempts(CFG, s, 0);
    assert [] + [0] == [0] && s.workers[0 := w] == [w];
    ByWorker(s, s.(workers := [w]));
    Service.ClosesAfterFailure(CFG, s.(workers := [w]), 0);
    assert {} + {0} == {0} && [w][0 := w.(pc := Close, failed := true)] == [w.(pc := Close, failed := true)];
    assert [FRESH][0 := Cell(true, Some({0}))] == [Cell(true, Some({0}))];
    ByWorker(s.(workers := [w]),
             s.(workers := [w.(pc := Close, failed := true)], cells := [Cell(true, Some({0}))]));
  }

  /** `is_alive` finds the client alive, and the worker's next two steps lead to closing it with nothing sent. */
  predicate AliveYetClosed(s: State, client: nat) {
    && WorkerEnabled(s, 0, Go) && s.workers[0].pc.Alive? && s.workers[0].client == client
    && var s1 := WorkerNext(s, 0, Go);
       && WorkerEnabled(s1, 0, Go) && s1.workers[0].pc.Test?
       && var s2 := WorkerNext(s1, 0, Go);
          && WorkerEnabled(s2, 0, Go) && s2.workers[0].pc.Next?
          && var s3 := WorkerNext(s2, 0, Go);
             && s3.workers != [] && s3.workers[0].pc.Close?
             && s3.workers[0].sess.client == client
             && s3.workers[0].sess.attempts == [] && s3.workers[0].sess.out == []
  }

  /** A worker that remembers a failure, with a live client that is not owed the entry. */
  lemma AliveThenClosed(s: State, w: Worker)
    requires s.fault.None? && s.workers == [w] && |s.cells| == |s.queue|
    requires w.pc.Alive? && w.failed && w.current.Some? && w.current.value < |s.queue|
    requires !Before(w.ts, s.queue[w.current.value].ts) && w.client == w.sess.client
    requires w.sess.attempts == [] && w.sess.out == []
    ensures AliveYetClosed(s, w.client)
  {
    var e := w.current.value;
    var w1 := w.(pc := Test);
    assert WorkerNext(s, 0, Go) == s.(workers := [w1]);
    var w2 := w1.(pc := Next, sess := w.sess.(hi := e + 1));
    assert WorkerNext(s.(workers := [w1]), 0, Go) == s.(workers := [w2]);
    assert WorkerNext(s.(workers := [w2]), 0, Go).workers[0].pc.Close?;
  }

  /** The rest of the run: client 1 connects at T4 and gets the worker that remembers a failure. */
  lemma SecondClient(s: State, w: Worker)
    requires Lone(s, w) && w == W1.(pc := Wait, status := Ready, current := Some(0), failed := true,
                                    sess := Session(0, T1, 0, 1, [0], [], Some(0)))
    requires s.clock == T3 && s.dst.Accepting? && s.clients == 1 && 0 !in s.mask
    requires s.queue == [E0, E1] && s.cells == [Cell(true, Some({0})), FRESH]
    ensures exists s :: Reachable(CFG, s) && AliveYetClosed(s, 1)
  {
    hide Reachable;
    TickTo(s, T4);
    var s1 := s.(clock := T4);
    Accept(s1, w);
    var s2 := s1.(dst := Scanning(1, T4, 0, s.mask), clients := 2);
    Wake(s2, w);
    var w3 := w.(pc := Relock, status := Busy, client := 1, ts := T4);
    var s3 := s2.(workers := [w3], mask := s.mask + {0}, dst := Accepting, log := s2.log + [Assignment(1, T4, 0)]);
    Notice(s3, w3);
    var w4 := w3.(pc := ResetTest, lock := Some(WorkerThread(0)));
    var s4 := s3.(workers := [w4]);
    StartOver(s4, w4);
    var cells := s.cells[0 := s.cells[0].(sent := Some({0} - {0}))];
    var w5 := w4.(pc := Get, lock := None, prev := Some(0), current := None, past := w4.past + [w4.sess],
                  sess := Session(1, T4, 1, 1, [], [], None));
    var s5 := s4.(workers := [w5], cells := cells);
    var w6 := w5.(pc := Alive, current := Some(1));
    var s6 := s5.(workers := [w6]);
    WorkerGo(s5, Go, s6);
    AliveThenClosed(s6, w6);
  }

  /**
   * A healthy client is closed without a word: its worker still remembers the failed send of the
   * client before, and the first entry it looks at is older than the new client.
   */
  lemma HealthyClientClosed()
    ensures exists s :: Reachable(CFG, s) && AliveYetClosed(s, 1)
  {
    hide Reachable;
    ServedReachable();
    FirstMessageReachable(Accepting, 1);
    var s0 := FirstMessage(Accepting, 1);
    SendFails(s0);
    var x0 := Session(0, T1, 0, 1, [0], [], Some(0));
    var w2 := W1.(pc := Close, current := Some(0), failed := true, sess := x0);
    var s2 := s0.(workers := [w2], cells := [Cell(true, Some({0}))]);
    TickTo(s2, T3);
    var s3 := s2.(clock := T3);
    Message(s3, w2, []);
    var s4 := s3.(src := Connected([]), queue := [E0] + [E1], cells := [Cell(true, Some({0}))] + [FRESH]);
    Park(s4, w2);
    var w5 := w2.(pc := Wait, status := Ready);
    var s5 := s4.(workers := [w5], mask := {0} - {0});
    SecondClient(s5, w5);
  }
}
