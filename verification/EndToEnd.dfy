/**
 * From the source's bytes to each receiver's bytes (ws_server.c:67-95, 105-171; lib/ctmp.c).
 */
module EndToEnd {
  import opened Common
  import opened Server
  import opened Sessions
  import Wire
  import Ctmp
  import Framing
  import Delivery
  import Broadcast
  import Ownership

  /** Everything the source connections make the server accept, in order. */
  function AllFrames(cfg: Config, streams: seq<seq<Wire.Item>>): seq<Frame> {
    if streams == [] then []
    else AllFrames(cfg, streams[..|streams| - 1]) + Ctmp.Frames(cfg.extended, streams[|streams| - 1])
  }

  function FramesOf(q: seq<Entry>): (fs: seq<Frame>)
    ensures |fs| == |q| && forall e :: 0 <= e < |q| ==> fs[e] == q[e].frame
  {
    seq(|q|, e requires 0 <= e < |q| => q[e].frame)
  }

  /** Accepted by the parser, not yet in the queue. */
  function InHand(src: Src): seq<Frame> {
    match src {
      case Stamping(f, _) => [f]
      case Appending(e, _) => [e.frame]
      case _ => []
    }
  }

  /** What the current connection will still make the server accept. */
  function ToCome(cfg: Config, src: Src): seq<Frame> {
    if src.NoSource? then [] else Ctmp.Frames(cfg.extended, src.rest)
  }

  /** Nothing is lost, duplicated, altered or reordered between the parser and the queue. */
  predicate Conserved(cfg: Config, s: State) {
    FramesOf(s.queue) + InHand(s.src) + ToCome(cfg, s.src) == AllFrames(cfg, s.streams)
  }

  lemma ConservedSrc(cfg: Config, s: State, a: Action)
    requires Conserved(cfg, s) && SrcEnabled(s, a)
    ensures Conserved(cfg, SrcNext(cfg, s, a))
  {
    hide Ctmp.Parse;
    hide Ctmp.Frames;
    var s' := SrcNext(cfg, s, a);
    if a.SrcAccept? {
      assert s'.streams[..|s.streams|] == s.streams;
    } else if a.SrcClose? {
      Framing.NoFramesInNothing(cfg.extended);
    } else if s.src.Connected? {
      Framing.FramesUnfold(cfg.extended, s.src.rest);
    } else if s.src.Appending? {
      assert FramesOf(s'.queue) == FramesOf(s.queue) + [s.src.entry.frame];
    }
  }

  lemma ConservedStep(cfg: Config, s: State, a: Action)
    requires Conserved(cfg, s) && Enabled(s, a)
    ensures Conserved(cfg, Step(cfg, s, a))
  {
    hide SrcNext;
    hide WorkerAfter;
    hide Ctmp.Frames;
    match a {
      case WorkerStep(_, _) =>
      case DstStep =>
        DstLeavesQueue(s);
        hide DstNext;
      case CleanerStep =>
      case Tick(_) =>
      case _ => ConservedSrc(cfg, s, a);
    }
  }

  lemma {:induction false} ConservedRun(cfg: Config, actions: seq<Action>)
    requires Exec(cfg, actions).Some?
    ensures Conserved(cfg, Exec(cfg, actions).value)
  {
    hide Step;
    hide Enabled;
    if actions == [] {
    } else {
      hide Conserved;
      var before := actions[..|actions| - 1];
      ConservedRun(cfg, before);
      ConservedStep(cfg, Exec(cfg, before).value, actions[|actions| - 1]);
    }
  }

  /**
   * In every reachable state: the frames in the queue, the one in hand and those still to be
   * parsed are together exactly what the source connections amount to.
   */
  lemma SourceConserved(cfg: Config, s: State)
    requires Reachable(cfg, s)
    ensures FramesOf(s.queue) + InHand(s.src) + ToCome(cfg, s.src) == AllFrames(cfg, s.streams)
  {
    hide Ctmp.Frames;
    var actions :| Exec(cfg, actions) == Some(s);
    ConservedRun(cfg, actions);
  }

  lemma FlatSnoc(q: seq<Entry>, es: seq<nat>, e: nat)
    ensures Flat(q, es + [e]) == Flat(q, es) + FrameAt(q, e)
  {
    assert (es + [e])[..|es|] == es;
  }

  lemma RangeSnoc(lo: nat, hi: nat)
    requires lo < hi
    ensures Range(lo, hi) == Range(lo, hi - 1) + [hi - 1]
  {
  }

  lemma SliceSnoc<T>(xs: seq<T>, lo: nat, hi: nat)
    requires lo < hi <= |xs|
    ensures xs[lo..hi] == xs[lo..hi - 1] + [xs[hi - 1]]
  {
  }

  lemma EmptyRange(q: seq<Entry>, fs: seq<Frame>, lo: nat)
    requires lo <= |fs|
    ensures Flat(q, Range(lo, lo)) == Flatten(fs[lo..lo])
  {
    assert Range(lo, lo) == [] && fs[lo..lo] == [];
  }

  /** The frames of consecutive entries are a slice of the queue's frames. */
  lemma {:induction false} FlatRange(q: seq<Entry>, fs: seq<Frame>, lo: nat, hi: nat)
    requires lo <= hi <= |q| && fs == FramesOf(q)
    ensures Flat(q, Range(lo, hi)) == Flatten(fs[lo..hi])
    decreases hi
  {
    hide Flat;
    hide Flatten;
    hide Range;
    if lo == hi {
      EmptyRange(q, fs, lo);
    } else {
      FlatRange(q, fs, lo, hi - 1);
      FlatSnoc(q, Range(lo, hi - 1), hi - 1);
      FlattenSnoc(fs[lo..hi - 1], fs[hi - 1]);
      RangeSnoc(lo, hi);
      SliceSnoc(fs, lo, hi);
    }
  }

  /** A block of frames, the last one cut at `part` when there is a cut. */
  predicate IsBlock(out: seq<byte>, fs: seq<Frame>, first: nat, end: nat, part: Option<nat>)
    requires first <= end <= |fs|
  {
    if part.None? then out == Flatten(fs[first..end])
    else
      && first < end && part.value <= |fs[end - 1]|
      && out == Flatten(fs[first..end - 1]) + fs[end - 1][..part.value]
  }

  lemma WholeBytes(q: seq<Entry>, x: Session, first: nat)
    requires x.part.None? && OutOK(q, x) && first <= x.hi <= |q| && x.attempts == Range(first, x.hi)
    ensures IsBlock(x.out, FramesOf(q), first, x.hi, x.part)
  {
    hide Flat;
    hide Flatten;
    hide Range;
    FlatRange(q, FramesOf(q), first, x.hi);
  }

  lemma CutBytes(q: seq<Entry>, x: Session, first: nat)
    requires x.part.Some? && OutOK(q, x) && first <= x.hi <= |q| && x.attempts == Range(first, x.hi)
    ensures IsBlock(x.out, FramesOf(q), first, x.hi, x.part)
  {
    hide Flat;
    hide Flatten;
    RangeSnoc(first, x.hi);
    assert x.attempts[..|x.attempts| - 1] == Range(first, x.hi - 1);
    FlatRange(q, FramesOf(q), first, x.hi - 1);
  }

  lemma SessionBytes(q: seq<Entry>, x: Session)
    requires SessionOK(q, x) && InTimeOrder(q)
    ensures IsBlock(x.out, FramesOf(q), FirstNewer(q, x.ts, x.start, x.hi), x.hi, x.part)
  {
    hide OutOK;
    hide IsBlock;
    hide Newer;
    hide Range;
    hide InTimeOrder;
    var first := FirstNewer(q, x.ts, x.start, x.hi);
    NewerIsBlock(q, x.ts, x.start, x.hi);
    if x.part.None? {
      WholeBytes(q, x, first);
    } else {
      CutBytes(q, x, first);
    }
  }

  lemma BlockOfPrefix(out: seq<byte>, fs: seq<Frame>, all: seq<Frame>, first: nat, end: nat, part: Option<nat>)
    requires first <= end <= |fs| && fs <= all && IsBlock(out, fs, first, end, part)
    ensures IsBlock(out, all, first, end, part)
  {
    hide Flatten;
    assert all[first..end] == fs[first..end];
    if part.Some? {
      assert all[first..end - 1] == fs[first..end - 1];
    }
  }

  /** What one session has sent is one contiguous block of the accepted source frames, the last possibly cut short. */
  lemma ReceivedBytes(cfg: Config, s: State, i: nat, x: Session)
    requires Reachable(cfg, s) && Broadcast.IsSession(s, i, x)
    ensures x.start <= x.hi <= |s.queue| <= |AllFrames(cfg, s.streams)|
    ensures IsBlock(x.out, AllFrames(cfg, s.streams), FirstNewer(s.queue, x.ts, x.start, x.hi), x.hi, x.part)
  {
    SourceConserved(cfg, s);
    Broadcast.SessionsAreOK(cfg, s, i, x);
    hide Ctmp.Frames;
    hide IsBlock;
    SessionBytes(s.queue, x);
    BlockOfPrefix(x.out, FramesOf(s.queue), AllFrames(cfg, s.streams),
                  FirstNewer(s.queue, x.ts, x.start, x.hi), x.hi, x.part);
  }

  /** After a cut frame a session sends nothing more: its worker is sending that frame or on its way to parking. */
  lemma CutFrameEndsSession(cfg: Config, s: State, i: nat)
    requires Reachable(cfg, s) && i < |s.workers| && s.workers[i].sess.part.Some?
    ensures var pc := s.workers[i].pc;
            !pc.Unborn? && !pc.Get? && !pc.Alive? && !pc.Test?
    ensures s.workers[i].pc.Mark? || s.workers[i].pc.Next? ==> s.workers[i].failed
  {
    Delivery.DeliveryReachable(cfg, s);
    assert Delivery.WorkerInv(s.queue, s.cells, i, s.workers[i]);
    hide Delivery.HistoryOK;
    hide Delivery.FailedOK;
  }

  lemma {:induction false} FramesAreLong(cfg: Config, items: seq<Wire.Item>)
    ensures forall f :: f in Ctmp.Frames(cfg.extended, items) ==> |f| > 8
    decreases |items|
  {
    if items == [] {
    } else {
      FramesAreLong(cfg, Ctmp.Parse(cfg.extended, items).rest);
    }
    hide Ctmp.Parse;
  }

  lemma {:induction false} AllFramesAreLong(cfg: Config, streams: seq<seq<Wire.Item>>)
    ensures forall f :: f in AllFrames(cfg, streams) ==> |f| > 8
  {
    hide Ctmp.Frames;
    if streams == [] {
    } else {
      AllFramesAreLong(cfg, streams[..|streams| - 1]);
      FramesAreLong(cfg, streams[|streams| - 1]);
    }
  }

  /** Every queued frame has a header and some data. */
  lemma QueuedFramesHaveData(cfg: Config, s: State, e: nat)
    requires Reachable(cfg, s) && e < |s.queue|
    ensures |s.queue[e].frame| > 8
  {
    SourceConserved(cfg, s);
    AllFramesAreLong(cfg, s.streams);
    hide Reachable;
    hide AllFrames;
    hide Ctmp.Frames;
    assert FramesOf(s.queue)[e] == AllFrames(cfg, s.streams)[e];
  }

  // Per connection: the source in terms of units, the receivers in terms of sockets.

  /** The units of all source connections, in order. */
  function AllUnits(streams: seq<seq<Wire.Item>>): seq<seq<byte>> {
    if streams == [] then []
    else AllUnits(streams[..|streams| - 1]) + Framing.UnitsIn(streams[|streams| - 1])
  }

  /** What the server accepts is the acceptable units of its source connections, whatever they carry. */
  lemma {:induction false} AllFramesOfUnits(cfg: Config, streams: seq<seq<Wire.Item>>)
    ensures AllFrames(cfg, streams) == Framing.AcceptedOf(cfg.extended, AllUnits(streams))
  {
    hide Ctmp.Frames;
    hide Framing.UnitsIn;
    if streams == [] {
    } else {
      var before, last := streams[..|streams| - 1], streams[|streams| - 1];
      AllFramesOfUnits(cfg, before);
      Framing.FramesOfStream(cfg.extended, last);
      Framing.AcceptedOfAppend(cfg.extended, AllUnits(before), Framing.UnitsIn(last));
    }
  }

  /** The bytes of one client in a list of sessions. */
  function OutOf(xs: seq<Session>, client: nat): seq<byte> {
    if xs == [] then []
    else OutOf(xs[..|xs| - 1], client) + (if xs[|xs| - 1].client == client then xs[|xs| - 1].out else [])
  }

  /** Everything a client's socket has taken, from all workers and all their sessions. */
  function SocketOf(ws: seq<Worker>, client: nat): seq<byte> {
    if ws == [] then []
    else SocketOf(ws[..|ws| - 1], client) + OutOf(Delivery.SessionsOf(ws[|ws| - 1]), client)
  }

  lemma {:induction false} OutOfNone(xs: seq<Session>, client: nat)
    requires forall k :: 0 <= k < |xs| ==> xs[k].client != client
    ensures OutOf(xs, client) == []
  {
    if xs == [] {
    } else {
      OutOfNone(xs[..|xs| - 1], client);
    }
  }

  lemma {:induction false} OutOfOne(xs: seq<Session>, client: nat, k: nat)
    requires k < |xs| && forall l :: 0 <= l < |xs| ==> (xs[l].client == client <==> l == k)
    ensures OutOf(xs, client) == xs[k].out
  {
    if k == |xs| - 1 {
      OutOfNone(xs[..|xs| - 1], client);
    } else {
      OutOfOne(xs[..|xs| - 1], client, k);
    }
  }

  /** No session of `client` on this worker. */
  predicate Stranger(w: Worker, client: nat) {
    forall k :: 0 <= k < |Delivery.SessionsOf(w)| ==> Delivery.SessionsOf(w)[k].client != client
  }

  lemma {:induction false} SocketOfNone(ws: seq<Worker>, client: nat)
    requires forall j :: 0 <= j < |ws| ==> Stranger(ws[j], client)
    ensures SocketOf(ws, client) == []
  {
    if ws == [] {
    } else {
      var last := ws[|ws| - 1];
      SocketOfNone(ws[..|ws| - 1], client);
      OutOfNone(Delivery.SessionsOf(last), client);
    }
  }

  lemma NothingFromStranger(w: Worker, client: nat)
    requires Stranger(w, client)
    ensures OutOf(Delivery.SessionsOf(w), client) == []
  {
    OutOfNone(Delivery.SessionsOf(w), client);
  }

  lemma {:induction false} SocketOfOne(ws: seq<Worker>, client: nat, i: nat)
    requires i < |ws| && forall j :: 0 <= j < |ws| && j != i ==> Stranger(ws[j], client)
    ensures SocketOf(ws, client) == OutOf(Delivery.SessionsOf(ws[i]), client)
  {
    hide Stranger;
    hide OutOf;
    var last := ws[|ws| - 1];
    if i == |ws| - 1 {
      SocketOfNone(ws[..|ws| - 1], client);
    } else {
      SocketOfOne(ws[..|ws| - 1], client, i);
      NothingFromStranger(last, client);
    }
  }

  /** A client's socket has taken exactly what its only session sent. */
  lemma SocketIsSession(cfg: Config, s: State, i: nat, k: nat)
    requires Reachable(cfg, s) && i < |s.workers| && k < |Delivery.SessionsOf(s.workers[i])|
    ensures var x := Delivery.SessionsOf(s.workers[i])[k];
            SocketOf(s.workers, x.client) == x.out
  {
    hide Reachable;
    var xs := Delivery.SessionsOf(s.workers[i]);
    var client := xs[k].client;
    forall j, l | 0 <= j < |s.workers| && 0 <= l < |Delivery.SessionsOf(s.workers[j])|
                  && Delivery.SessionsOf(s.workers[j])[l].client == client
      ensures j == i && l == k
    {
      Ownership.OneSessionPerClient(cfg, s, i, k, j, l);
    }
    SocketOfOne(s.workers, client, i);
    OutOfOne(xs, client, k);
  }

  /**
   * End to end, for every client: whatever bytes and failures the source connections carry and
   * however reads and writes are cut, everything the client's socket has ever taken is one
   * contiguous block of the acceptable source units, byte for byte and in source order, the last
   * one possibly cut short.
   */
  lemma ClientBytes(cfg: Config, s: State, client: nat)
    requires Reachable(cfg, s)
    ensures exists first: nat, end: nat, part: Option<nat> ::
              && first <= end <= |Framing.AcceptedOf(cfg.extended, AllUnits(s.streams))|
              && IsBlock(SocketOf(s.workers, client), Framing.AcceptedOf(cfg.extended, AllUnits(s.streams)),
                         first, end, part)
  {
    hide Reachable;
    hide SocketOf;
    AllFramesOfUnits(cfg, s.streams);
    if forall j :: 0 <= j < |s.workers| ==> Stranger(s.workers[j], client) {
      SocketOfNone(s.workers, client);
      assert AllFrames(cfg, s.streams)[0..0] == [];
      assert IsBlock([], AllFrames(cfg, s.streams), 0, 0, None);
    } else {
      var i :| 0 <= i < |s.workers| && !Stranger(s.workers[i], client);
      var xs := Delivery.SessionsOf(s.workers[i]);
      var k :| 0 <= k < |xs| && xs[k].client == client;
      SocketIsSession(cfg, s, i, k);
      assert Broadcast.IsSession(s, i, xs[k]);
      ReceivedBytes(cfg, s, i, xs[k]);
    }
  }
}
