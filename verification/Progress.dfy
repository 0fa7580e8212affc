/**
 * What each thread gets done by steps of its own: nothing it is there for is out of reach
 * (ws_server.c:67-95, 105-171, 189-274; lib/thread.c:56-141).
 */
module Progress {
  import opened Common
  import opened Timestamp
  import opened Server
  import opened Runs
  import Wire
  import Ctmp
  import Framing
  import EndToEnd
  import Pool
  import Cleanup

  // The source thread: whatever a connection carries ends up in the queue.

  function EntriesOf(ts: Time, fs: seq<Frame>): (es: seq<Entry>)
    ensures |es| == |fs|
  {
    seq(|fs|, k requires 0 <= k < |fs| => Entry(ts, fs[k]))
  }

  function FreshCells(n: nat): (cells: seq<Cell>)
    ensures |cells| == n
  {
    seq(n, _ => Cell(true, Some({})))
  }

  /** The queue has got `fs`, stamped with the clock as it is. */
  function WithFrames(s: State, fs: seq<Frame>): State {
    s.(queue := s.queue + EntriesOf(s.clock, fs), cells := s.cells + FreshCells(|fs|))
  }

  lemma WithFramesNone(s: State)
    ensures WithFrames(s, []) == s
  {
    assert s.queue + EntriesOf(s.clock, []) == s.queue;
    assert s.cells + FreshCells(0) == s.cells;
  }

  lemma WithFramesCons(s: State, f: Frame, fs: seq<Frame>, src: Src)
    ensures WithFrames(WithFrames(s, [f]), fs) == WithFrames(s, [f] + fs)
    ensures WithFrames(s.(src := src), fs) == WithFrames(s, fs).(src := src)
    ensures WithFrames(s, [f]) == s.(queue := s.queue + [Entry(s.clock, f)], cells := s.cells + [Cell(true, Some({}))])
  {
    var es, cells := [Entry(s.clock, f)], [Cell(true, Some({}))];
    assert EntriesOf(s.clock, [f]) == es && FreshCells(1) == cells;
    assert EntriesOf(s.clock, [f] + fs) == es + EntriesOf(s.clock, fs);
    assert FreshCells(1 + |fs|) == cells + FreshCells(|fs|);
    assert s.queue + es + EntriesOf(s.clock, fs) == s.queue + (es + EntriesOf(s.clock, fs));
    assert s.cells + cells + FreshCells(|fs|) == s.cells + (cells + FreshCells(|fs|));
  }

  lemma SourceGo(cfg: Config, s: State, t: State, u: State)
    requires Leads(cfg, s, SourceActor, t) && t.fault.None? && !t.src.NoSource? && SrcNext(cfg, t, SrcStep) == u
    ensures Leads(cfg, s, SourceActor, u)
  {
    hide Leads;
    hide SrcNext;
    LeadsOn(cfg, s, SourceActor, t, SrcStep, u);
  }

  /** One accepted message is stamped and appended. */
  lemma SourceAppends(cfg: Config, s: State, f: Frame, rest: seq<Wire.Item>)
    requires s.fault.None? && s.src.Connected? && Ctmp.Parse(cfg.extended, s.src.rest) == Ctmp.Parsed(Some(f), rest)
    ensures Leads(cfg, s, SourceActor, WithFrames(s, [f]).(src := Connected(rest)))
  {
    hide Leads;
    hide Ctmp.Parse;
    hide WithFrames;
    LeadsNowhere(cfg, s, SourceActor);
    WithFramesCons(s, f, [], s.src);
    var s1 := s.(src := Stamping(f, rest));
    SourceGo(cfg, s, s, s1);
    var s2 := s.(src := Appending(Entry(s.clock, f), rest));
    SourceGo(cfg, s, s1, s2);
    SourceGo(cfg, s, s2, WithFrames(s, [f]).(src := Connected(rest)));
  }

  /** The source thread reads a connection to its end. */
  lemma {:induction false} SourceReads(cfg: Config, s: State)
    requires s.fault.None? && s.src.Connected?
    ensures Leads(cfg, s, SourceActor,
                  WithFrames(s, Ctmp.Frames(cfg.extended, s.src.rest)).(src := Connected([])))
    decreases |s.src.rest|
  {
    hide Leads;
    hide WithFrames;
    var rest := s.src.rest;
    LeadsNowhere(cfg, s, SourceActor);
    if rest == [] {
      WithFramesNone(s);
    } else {
      var p := Ctmp.Parse(cfg.extended, rest);
      Framing.FramesUnfold(cfg.extended, rest);
      var more := Ctmp.Frames(cfg.extended, p.rest);
      if p.frame.Some? {
        hide Ctmp.Parse;
        var f := p.frame.value;
        var s1 := WithFrames(s, [f]).(src := Connected(p.rest));
        SourceAppends(cfg, s, f, p.rest);
        WithFramesCons(s, f, more, Connected(p.rest));
        WithFramesCons(WithFrames(s, [f]), f, more, Connected(p.rest));
        SourceReads(cfg, s1);
        LeadsThrough(cfg, s, SourceActor, s1, WithFrames(s1, more).(src := Connected([])));
      } else {
        hide Ctmp.Parse;
        var s1 := s.(src := Connected(p.rest));
        SourceGo(cfg, s, s, s1);
        WithFramesCons(s, [], more, Connected(p.rest));
        SourceReads(cfg, s1);
        assert [] + more == more;
        LeadsThrough(cfg, s, SourceActor, s1, WithFrames(s1, more).(src := Connected([])));
      }
    }
  }

  /**
   * The source thread serves one connection after another: from any state without a source, for
   * every stream, it can accept a connection, queue everything the stream contains and be back.
   */
  lemma SourceDelivers(cfg: Config, s: State, stream: seq<Wire.Item>)
    requires s.fault.None? && s.src.NoSource?
    ensures Leads(cfg, s, SourceActor,
                  WithFrames(s, Ctmp.Frames(cfg.extended, stream)).(streams := s.streams + [stream]))
  {
    hide Leads;
    hide Ctmp.Frames;
    hide Ctmp.Parse;
    var s1 := s.(src := Connected(stream), streams := s.streams + [stream]);
    LeadsBy(cfg, s, SourceActor, SrcAccept(stream), s1);
    SourceReads(cfg, s1);
    var s2 := WithFrames(s1, Ctmp.Frames(cfg.extended, stream)).(src := Connected([]));
    LeadsThrough(cfg, s, SourceActor, s1, s2);
    LeadsOn(cfg, s, SourceActor, s2, SrcClose, s2.(src := NoSource));
  }

  /** Every list of source connections can be served: some run queues exactly what they contain. */
  lemma {:induction false} EverySourceIsServed(cfg: Config, streams: seq<seq<Wire.Item>>)
    ensures exists s :: Reachable(cfg, s) && s.fault.None? && s.src.NoSource? && s.streams == streams
                        && EndToEnd.FramesOf(s.queue) == EndToEnd.AllFrames(cfg, streams)
  {
    hide Reachable;
    hide Leads;
    hide Ctmp.Frames;
    if streams == [] {
      InitReachable(cfg);
      var s := Init(cfg);
      assert EndToEnd.FramesOf(s.queue) == [];
      assert EndToEnd.AllFrames(cfg, streams) == [];
      assert s.streams == streams;
    } else {
      var before, last := streams[..|streams| - 1], streams[|streams| - 1];
      EverySourceIsServed(cfg, before);
      var s :| Reachable(cfg, s) && s.fault.None? && s.src.NoSource? && s.streams == before
               && EndToEnd.FramesOf(s.queue) == EndToEnd.AllFrames(cfg, before);
      var fs := Ctmp.Frames(cfg.extended, last);
      var t := WithFrames(s, fs).(streams := s.streams + [last]);
      SourceDelivers(cfg, s, last);
      LeadsReachable(cfg, s, SourceActor, t);
      assert t.streams == streams;
      assert EndToEnd.FramesOf(t.queue) == EndToEnd.FramesOf(s.queue) + fs;
    }
  }

  // The destination server: every client gets the first idle worker.

  lemma DstGo(cfg: Config, s: State, t: State, u: State)
    requires Leads(cfg, s, DstActor, t) && t.fault.None? && DstEnabled(t) && DstNext(t) == u
    ensures Leads(cfg, s, DstActor, u)
  {
    hide Leads;
    hide DstNext;
    hide DstEnabled;
    LeadsOn(cfg, s, DstActor, t, DstStep, u);
  }

  /** One look of the scan, at worker `s.dst.i`. */
  lemma ScanLooks(cfg: Config, s: State)
    requires s.fault.None? && s.dst.Scanning? && s.maskLock.None? && s.dst.i < |s.workers|
    ensures var d := s.dst;
            Leads(cfg, s, DstActor,
                  s.(dst := if d.i in s.mask then Scanning(d.client, d.ts, d.i + 1, d.snap)
                            else Assigning(Switch, d.client, d.ts, d.i, d.snap)))
  {
    hide Leads;
    var d := s.dst;
    LeadsNowhere(cfg, s, DstActor);
    var s1 := s.(dst := ScanHolding(d.client, d.ts, d.i, d.snap), maskLock := Some(DstThread));
    DstGo(cfg, s, s, s1);
    DstGo(cfg, s, s1,
          s.(dst := if d.i in s.mask then Scanning(d.client, d.ts, d.i + 1, d.snap)
                            else Assigning(Switch, d.client, d.ts, d.i, d.snap)));
  }

  /** The scan stops at the first idle worker. */
  lemma {:induction false} ScanFindsFirstIdle(cfg: Config, s: State, j: nat)
    requires s.fault.None? && s.dst.Scanning? && s.maskLock.None?
    requires s.dst.i <= j < |s.workers| && j !in s.mask && forall k :: s.dst.i <= k < j ==> k in s.mask
    ensures Leads(cfg, s, DstActor, s.(dst := Assigning(Switch, s.dst.client, s.dst.ts, j, s.dst.snap)))
    decreases j - s.dst.i
  {
    hide Leads;
    ScanLooks(cfg, s);
    if s.dst.i == j {
    } else {
      var s1 := s.(dst := Scanning(s.dst.client, s.dst.ts, s.dst.i + 1, s.dst.snap));
      ScanFindsFirstIdle(cfg, s1, j);
      LeadsThrough(cfg, s, DstActor, s1, s.(dst := Assigning(Switch, s.dst.client, s.dst.ts, j, s.dst.snap)));
    }
  }

  /** With no idle worker the scan begins again, for the same client with the same timestamp. */
  lemma {:induction false} ScanRetries(cfg: Config, s: State)
    requires s.fault.None? && s.dst.Scanning? && s.maskLock.None? && s.dst.i <= |s.workers|
    requires forall k :: s.dst.i <= k < |s.workers| ==> k in s.mask
    ensures Leads(cfg, s, DstActor, s.(dst := Scanning(s.dst.client, s.dst.ts, 0, s.mask)))
    decreases |s.workers| - s.dst.i
  {
    hide Leads;
    var again := s.(dst := Scanning(s.dst.client, s.dst.ts, 0, s.mask));
    if s.dst.i == |s.workers| {
      LeadsNowhere(cfg, s, DstActor);
      DstGo(cfg, s, s, again);
    } else {
      ScanLooks(cfg, s);
      var s1 := s.(dst := Scanning(s.dst.client, s.dst.ts, s.dst.i + 1, s.dst.snap));
      ScanRetries(cfg, s1);
      LeadsThrough(cfg, s, DstActor, s1, again);
    }
  }

  /** Worker `w` once it has been given `client`: created with its first session, or woken up. */
  function WithClient(w: Worker, client: nat, ts: Time): Worker {
    var v := w.(client := client, ts := ts, status := Busy, lock := None);
    if w.pc.Unborn? then v.(pc := Get, sess := Session(client, ts, 0, 0, [], [], None))
    else v.(pc := if w.pc.Wait? then Relock else w.pc)
  }

  /** The pool once worker `j` has been given `client` and the destination server is back at `accept`. */
  function HandedOver(s: State, client: nat, ts: Time, j: nat): State
    requires j < |s.workers|
  {
    s.(dst := Accepting, workers := s.workers[j := WithClient(s.workers[j], client, ts)],
       mask := s.mask + {j}, log := s.log + [Assignment(client, ts, j)])
  }

  lemma CreatesWorker(cfg: Config, s: State)
    requires s.fault.None? && s.dst.Assigning? && s.dst.stage.Switch? && s.dst.i < |s.workers|
    requires s.maskLock.None? && s.workers[s.dst.i].status == Available && s.workers[s.dst.i].pc.Unborn?
    ensures Leads(cfg, s, DstActor, HandedOver(s, s.dst.client, s.dst.ts, s.dst.i))
  {
    hide Leads;
    var a, i := s.dst, s.dst.i;
    var w := s.workers[i].(lock := None, client := a.client, status := Busy);
    LeadsNowhere(cfg, s, DstActor);
    var s1 := s.(dst := a.(stage := InitArgs));
    DstGo(cfg, s, s, s1);
    var s2 := s.(dst := a.(stage := InitWant), workers := s.workers[i := w],
                 log := s.log + [Assignment(a.client, a.ts, i)]);
    DstGo(cfg, s, s1, s2);
    var s3 := s2.(dst := a.(stage := InitSet), maskLock := Some(DstThread));
    DstGo(cfg, s, s2, s3);
    var s4 := s2.(dst := a.(stage := InitTs), mask := s.mask + {i});
    DstGo(cfg, s, s3, s4);
    var s5 := s4.(dst := a.(stage := Create), workers := s.workers[i := w.(ts := a.ts)]);
    DstGo(cfg, s, s4, s5);
    DstGo(cfg, s, s5, HandedOver(s, a.client, a.ts, i));
  }

  /** The part of the wake-up that runs under the worker's lock. */
  lemma WakesLocked(cfg: Config, s: State)
    requires s.fault.None? && s.dst.Assigning? && s.dst.stage.WakeArgs? && s.dst.i < |s.workers|
    requires s.maskLock.None? && !s.workers[s.dst.i].pc.Unborn?
    ensures Leads(cfg, s, DstActor, HandedOver(s, s.dst.client, s.dst.ts, s.dst.i))
  {
    hide Leads;
    var a, i := s.dst, s.dst.i;
    var w := s.workers[i].(client := a.client, status := Busy);
    LeadsNowhere(cfg, s, DstActor);
    var s1 := s.(dst := a.(stage := WakeWant), workers := s.workers[i := w],
                 log := s.log + [Assignment(a.client, a.ts, i)]);
    DstGo(cfg, s, s, s1);
    var s2 := s1.(dst := a.(stage := WakeSet), maskLock := Some(DstThread));
    DstGo(cfg, s, s1, s2);
    var s3 := s1.(dst := a.(stage := WakeTs), mask := s.mask + {i});
    DstGo(cfg, s, s2, s3);
    var v := w.(ts := a.ts);
    var s4 := s3.(dst := a.(stage := WakeSignal), workers := s.workers[i := v]);
    DstGo(cfg, s, s3, s4);
    var u := v.(pc := if v.pc.Wait? then Relock else v.pc);
    var s5 := s3.(dst := a.(stage := WakeUnlock), workers := s.workers[i := u]);
    DstGo(cfg, s, s4, s5);
    DstGo(cfg, s, s5, HandedOver(s, a.client, a.ts, i));
  }

  lemma WakesWorker(cfg: Config, s: State)
    requires s.fault.None? && s.dst.Assigning? && s.dst.stage.Switch? && s.dst.i < |s.workers|
    requires s.maskLock.None? && s.workers[s.dst.i].status == Ready && s.workers[s.dst.i].lock.None?
    requires !s.workers[s.dst.i].pc.Unborn?
    ensures Leads(cfg, s, DstActor, HandedOver(s, s.dst.client, s.dst.ts, s.dst.i))
  {
    hide Leads;
    var a, i := s.dst, s.dst.i;
    var w := s.workers[i].(lock := Some(DstThread));
    LeadsNowhere(cfg, s, DstActor);
    var s1 := s.(dst := a.(stage := WakeAssert));
    DstGo(cfg, s, s, s1);
    var s2 := s.(dst := a.(stage := WakeLock));
    DstGo(cfg, s, s1, s2);
    var s3 := s.(dst := a.(stage := WakeArgs), workers := s.workers[i := w]);
    DstGo(cfg, s, s2, s3);
    WakesLocked(cfg, s3);
    assert s3.workers[i := WithClient(w, a.client, a.ts)]
           == s.workers[i := WithClient(s.workers[i], a.client, a.ts)];
    LeadsThrough(cfg, s, DstActor, s3, HandedOver(s, a.client, a.ts, i));
  }

  /**
   * Every client is served as long as there is an idle worker: from `accept`, the destination
   * server stamps the next client and hands it to the first idle worker, which becomes busy.
   */
  lemma ClientIsHandedOver(cfg: Config, s: State, j: nat)
    requires Reachable(cfg, s) && s.fault.None? && s.dst.Accepting? && s.maskLock.None?
    requires j < |s.workers| && j !in s.mask && s.workers[j].lock.None? && forall k :: 0 <= k < j ==> k in s.mask
    ensures Leads(cfg, s, DstActor, HandedOver(s, s.clients, s.clock, j).(clients := s.clients + 1))
  {
    hide Leads;
    Pool.ClearBitMeansIdle(cfg, s, j);
    hide Reachable;
    LeadsNowhere(cfg, s, DstActor);
    var s1 := s.(dst := Accepted(s.clients), clients := s.clients + 1);
    DstGo(cfg, s, s, s1);
    var s2 := s1.(dst := Scanning(s.clients, s.clock, 0, s.mask));
    DstGo(cfg, s, s1, s2);
    ScanFindsFirstIdle(cfg, s2, j);
    var s3 := s2.(dst := Assigning(Switch, s.clients, s.clock, j, s.mask));
    LeadsThrough(cfg, s, DstActor, s2, s3);
    var t := HandedOver(s, s.clients, s.clock, j).(clients := s.clients + 1);
    if s.workers[j].pc.Unborn? {
      CreatesWorker(cfg, s3);
    } else {
      WakesWorker(cfg, s3);
    }
    LeadsThrough(cfg, s, DstActor, s3, t);
  }

  // The cleanup thread: a pass frees exactly what has expired, and the thread comes to rest.

  lemma CleanerGo(cfg: Config, s: State, t: State, u: State)
    requires Leads(cfg, s, CleanerActor, t) && t.fault.None? && CleanerEnabled(t) && CleanerNext(cfg, t) == u
    ensures Leads(cfg, s, CleanerActor, u)
  {
    hide Leads;
    hide CleanerNext;
    hide CleanerEnabled;
    LeadsOn(cfg, s, CleanerActor, t, CleanerStep, u);
  }

  /** What a visit at instant `now` leaves of the data of an entry. */
  function Visited(cfg: Config, e: Entry, cell: Cell, now: Time): Cell {
    if cell.msg && Cleanup.PastTtl(e.ts, cfg.ttl, now) then Cell(false, None) else cell
  }

  /** The cleanup thread, at entry `e` in the middle of a pass, deals with it and goes on. */
  function PastEntry(cfg: Config, s: State, e: nat): State
    requires e < |s.queue| == |s.cells|
  {
    s.(cells := s.cells[e := Visited(cfg, s.queue[e], s.cells[e], s.clock)],
       cleaner := s.cleaner.(pc := CGet, prev := Some(e), current := if e + 1 < |s.queue| then Some(e + 1) else None))
  }

  lemma FreesEntry(cfg: Config, s: State, e: nat)
    requires s.fault.None? && e < |s.queue| == |s.cells|
    requires s.cleaner.pc.CClock? && s.cleaner.current == Some(e) && s.cells[e].msg
    requires Cleanup.PastTtl(s.queue[e].ts, cfg.ttl, s.clock)
    ensures Leads(cfg, s, CleanerActor,
                  s.(cells := s.cells[e := Cell(false, None)], cleaner := s.cleaner.(pc := CNext)))
  {
    hide Leads;
    LeadsNowhere(cfg, s, CleanerActor);
    Cleanup.ExpiredIff(cfg, s.queue[e], s.clock);
    var s1 := s.(cleaner := s.cleaner.(pc := CFreeSent));
    CleanerGo(cfg, s, s, s1);
    var s2 := s.(cleaner := s.cleaner.(pc := CFreeMsg), cells := s.cells[e := s.cells[e].(sent := None)]);
    CleanerGo(cfg, s, s1, s2);
    assert s2.cells[e := Cell(false, None)] == s.cells[e := Cell(false, None)];
    CleanerGo(cfg, s, s2, s.(cells := s.cells[e := Cell(false, None)], cleaner := s.cleaner.(pc := CNext)));
  }

  lemma VisitsEntry(cfg: Config, s: State, e: nat)
    requires s.fault.None? && e < |s.queue| == |s.cells|
    requires s.cleaner.pc.CCheck? && s.cleaner.current == Some(e)
    ensures Leads(cfg, s, CleanerActor, PastEntry(cfg, s, e))
  {
    hide Leads;
    LeadsNowhere(cfg, s, CleanerActor);
    Cleanup.ExpiredIff(cfg, s.queue[e], s.clock);
    var c, cell := s.cleaner, s.cells[e];
    var t := PastEntry(cfg, s, e);
    var last := t.(cleaner := c.(pc := CNext));
    assert s.cells[e := cell] == s.cells;
    if !cell.msg {
      CleanerGo(cfg, s, s, last);
    } else {
      var s1 := s.(cleaner := c.(pc := CClock));
      CleanerGo(cfg, s, s, s1);
      if Cleanup.PastTtl(s.queue[e].ts, cfg.ttl, s.clock) {
        FreesEntry(cfg, s1, e);
        LeadsThrough(cfg, s, CleanerActor, s1, last);
      } else {
        CleanerGo(cfg, s, s1, last);
      }
    }
    CleanerGo(cfg, s, last, t);
  }

  /** The cells after the entries from `e` on have been visited. */
  function Swept(cfg: Config, s: State, e: nat): (cells: seq<Cell>)
    requires |s.queue| == |s.cells|
    ensures |cells| == |s.cells|
  {
    seq(|s.cells|, k requires 0 <= k < |s.cells| =>
      if e <= k then Visited(cfg, s.queue[k], s.cells[k], s.clock) else s.cells[k])
  }

  /** At rest: nothing left of the pass. */
  function Rested(c: Cleaner, size: nat): Cleaner {
    Cleaner(CGet, None, if size > 0 then Some(size - 1) else None, c.began)
  }

  /** The rest of a pass. */
  lemma {:induction false} FinishesPass(cfg: Config, s: State, e: nat)
    requires s.fault.None? && e < |s.queue| == |s.cells|
    requires s.cleaner.pc.CGet? && s.cleaner.current == Some(e) && e > 0
    ensures Leads(cfg, s, CleanerActor, s.(cells := Swept(cfg, s, e), cleaner := Rested(s.cleaner, |s.queue|)))
    decreases |s.queue| - e
  {
    hide Leads;
    hide Visited;
    LeadsNowhere(cfg, s, CleanerActor);
    var s1 := s.(cleaner := s.cleaner.(pc := CCheck));
    CleanerGo(cfg, s, s, s1);
    VisitsEntry(cfg, s1, e);
    var s2 := PastEntry(cfg, s1, e);
    LeadsThrough(cfg, s, CleanerActor, s1, s2);
    var t := s.(cells := Swept(cfg, s, e), cleaner := Rested(s.cleaner, |s.queue|));
    if e + 1 == |s.queue| {
      assert s2.cells == t.cells;
    } else {
      FinishesPass(cfg, s2, e + 1);
      assert Swept(cfg, s2, e + 1) == t.cells;
      LeadsThrough(cfg, s, CleanerActor, s2, t);
    }
  }

  /** A whole pass. */
  lemma PassFromFront(cfg: Config, s: State)
    requires s.fault.None? && |s.queue| == |s.cells| && s.queue != []
    requires s.cleaner.pc.CGet? && GetEntry(|s.queue|, s.cleaner.current, s.cleaner.prev, true) == Some(0)
    ensures Leads(cfg, s, CleanerActor,
                  s.(cells := Swept(cfg, s, 0), cleaner := Cleaner(CGet, None, Some(|s.queue| - 1), s.clock)))
  {
    hide Leads;
    hide Visited;
    LeadsNowhere(cfg, s, CleanerActor);
    var s1 := s.(cleaner := s.cleaner.(pc := CCheck, current := Some(0), began := s.clock));
    CleanerGo(cfg, s, s, s1);
    VisitsEntry(cfg, s1, 0);
    var s2 := PastEntry(cfg, s1, 0);
    LeadsThrough(cfg, s, CleanerActor, s1, s2);
    var t := s.(cells := Swept(cfg, s, 0), cleaner := Cleaner(CGet, None, Some(|s.queue| - 1), s.clock));
    if |s.queue| == 1 {
      assert s2.cells == t.cells;
    } else {
      FinishesPass(cfg, s2, 1);
      assert Swept(cfg, s2, 1) == t.cells;
      LeadsThrough(cfg, s, CleanerActor, s2, t);
    }
  }

  /**
   * A pass, exactly: when there is something to wake it up, the cleanup thread goes through the
   * whole queue, frees the data of precisely the entries past their time to live, and rests.
   */
  lemma PassFreesExpired(cfg: Config, s: State)
    requires Reachable(cfg, s) && s.fault.None? && s.queue != []
    requires Cleanup.BetweenPasses(s) && !Cleanup.Resting(s)
    ensures |s.queue| == |s.cells|
    ensures Leads(cfg, s, CleanerActor,
                  s.(cells := Swept(cfg, s, 0), cleaner := Cleaner(CGet, None, Some(|s.queue| - 1), s.clock)))
  {
    Cleanup.CleanReachable(cfg, s);
    hide Cleanup.CellOK;
    hide Reachable;
    hide Leads;
    hide Swept;
    PassFromFront(cfg, s);
  }

  /** Steps left before the cleanup thread is done with its entry. */
  function StepsLeft(pc: CleanerPc): nat {
    match pc {
      case CCheck => 5
      case CClock => 4
      case CFreeSent => 3
      case CFreeMsg => 2
      case CNext => 1
      case CGet => 0
    }
  }

  /** From the middle of an entry the cleanup thread gets to the end of it. */
  lemma FinishesEntry(cfg: Config, s: State) returns (t: State)
    requires Reachable(cfg, s) && s.fault.None?
    ensures Leads(cfg, s, CleanerActor, t) && t.fault.None? && t.cleaner.pc.CGet? && t.queue == s.queue
  {
    Cleanup.CleanReachable(cfg, s);
    hide Cleanup.CellOK;
    hide Reachable;
    hide Leads;
    t := s;
    LeadsNowhere(cfg, s, CleanerActor);
    while !t.cleaner.pc.CGet?
      invariant Leads(cfg, s, CleanerActor, t) && t.fault.None? && t.queue == s.queue && |t.cells| == |t.queue|
      invariant !t.cleaner.pc.CGet? ==> t.cleaner.current.Some? && t.cleaner.current.value < |t.queue|
      decreases StepsLeft(t.cleaner.pc)
    {
      var u := CleanerNext(cfg, t);
      CleanerGo(cfg, s, t, u);
      t := u;
    }
  }

  /** The cleanup thread always comes to rest: from every reachable state with a message, by its own steps. */
  lemma CleanerComesToRest(cfg: Config, s: State) returns (t: State)
    requires Reachable(cfg, s) && s.fault.None? && s.queue != []
    ensures Leads(cfg, s, CleanerActor, t) && Cleanup.Resting(t) && t.queue == s.queue
  {
    var s1 := FinishesEntry(cfg, s);
    LeadsReachable(cfg, s, CleanerActor, s1);
    Cleanup.CleanReachable(cfg, s1);
    hide Leads;
    hide Reachable;
    hide Cleanup.CellOK;
    hide Swept;
    t := s1;
    if s1.cleaner.current.Some? && s1.cleaner.current.value > 0 {
      FinishesPass(cfg, s1, s1.cleaner.current.value);
      t := s1.(cells := Swept(cfg, s1, s1.cleaner.current.value), cleaner := Rested(s1.cleaner, |s1.queue|));
      LeadsThrough(cfg, s, CleanerActor, s1, t);
    } else if !Cleanup.Resting(s1) {
      PassFromFront(cfg, s1);
      t := s1.(cells := Swept(cfg, s1, 0), cleaner := Cleaner(CGet, None, Some(|s1.queue| - 1), s1.clock));
      LeadsThrough(cfg, s, CleanerActor, s1, t);
    }
  }
}
