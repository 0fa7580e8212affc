/**
 * The running server: the source thread, the destination server, the workers and the cleanup
 * thread of ws_server.c over the shared queue (lib/msg_queue.c), the worker table and its busy
 * mask (lib/thread.c), as one transition system.
 *
 * Each action is one critical section, one access to shared memory or one system call.  The
 * per-worker locks and the mask lock are explicit; the queue lock and the per-entry locks guard
 * single accesses only, so they need no state.  Taking part in a run as history, and never read
 * by the program: sessions, the assignment log, the source streams and the two snapshots.
 */
module Server {
  import opened Common
  import opened Timestamp
  import Wire
  import Ctmp

  type Frame = Ctmp.Frame

  /** The command-line settings that matter here; the mask is exact for up to 32 workers. */
  datatype Config = Config(workers: nat, ttl: nat, extended: bool)

  // The queue.

  /** The fields of a queue entry that never change once it is linked in. */
  datatype Entry = Entry(ts: Time, frame: Frame)

  /** The fields the cleanup thread resets: is `msg` non-NULL, and the sent mask while allocated. */
  datatype Cell = Cell(msg: bool, sent: Option<set<nat>>)

  // The source thread.

  datatype Src =
    | NoSource
    | Connected(rest: seq<Wire.Item>)
    | Stamping(frame: Frame, rest: seq<Wire.Item>)
    | Appending(entry: Entry, rest: seq<Wire.Item>)

  // The workers.

  datatype Status = Available | Busy | Ready

  datatype WorkerPc =
    | Unborn
    | Get
    | Alive
    | Test
    | Send(off: nat)
    | Mark
    | Next
    | Close
    | LockSelf
    | SetReady
    | WantMask
    | ClearBit
    | Check
    | Wait
    | Relock
    | ResetTest
    | ResetDo
    | Resume

  /**
   * History of one client's tenure on a worker: the entries examined are start..hi, `attempts`
   * are those it tried to send, `out` is what the client's socket took; `part` is the number of
   * bytes of the last attempt when that attempt is not, or not yet, complete.
   */
  datatype Session = Session(client: nat, ts: Time, start: nat, hi: nat,
                             attempts: seq<nat>, out: seq<byte>, part: Option<nat>)

  datatype Thread = DstThread | WorkerThread(index: nat)

  /** `struct worker` with the locals of `run_dst_worker`; `failed` is `bytes_sent < 0`. */
  datatype Worker = Worker(pc: WorkerPc, status: Status, lock: Option<Thread>,
                           client: nat, ts: Time,
                           current: Option<nat>, prev: Option<nat>, next: Option<nat>, failed: bool,
                           sess: Session, past: seq<Session>)

  /** What a worker's next step does when the environment has a say. */
  datatype Choice = Go | Fail | Take(count: nat)

  // The destination server.

  datatype Stage =
    | Switch
    | InitArgs | InitWant | InitSet | InitTs | Create
    | WakeAssert | WakeLock | WakeArgs | WakeWant | WakeSet | WakeTs | WakeSignal | WakeUnlock

  /** `snap` is the mask at the moment the scan began. */
  datatype Dst =
    | Accepting
    | Accepted(client: nat)
    | Scanning(client: nat, ts: Time, i: nat, snap: set<nat>)
    | ScanHolding(client: nat, ts: Time, i: nat, snap: set<nat>)
    | Assigning(stage: Stage, client: nat, ts: Time, i: nat, snap: set<nat>)

  /** A client handed to a worker. */
  datatype Assignment = Assignment(client: nat, ts: Time, worker: nat)

  // The cleanup thread.

  datatype CleanerPc = CGet | CCheck | CClock | CFreeSent | CFreeMsg | CNext

  /** `began` is the clock when the current pass took the first entry. */
  datatype Cleaner = Cleaner(pc: CleanerPc, current: Option<nat>, prev: Option<nat>, began: Time)

  // The whole system.

  /** The ways a run can end: a dereference of freed data, or the assertion of `wake_up_thread`. */
  datatype Fault = UseAfterFree(worker: nat, entry: nat) | AssertionFailed(worker: nat)

  datatype State = State(
    clock: Time,
    queue: seq<Entry>,
    cells: seq<Cell>,
    src: Src,
    streams: seq<seq<Wire.Item>>,
    workers: seq<Worker>,
    mask: set<nat>,
    maskLock: Option<Thread>,
    dst: Dst,
    clients: nat,
    log: seq<Assignment>,
    cleaner: Cleaner,
    fault: Option<Fault>)

  datatype Action =
    | Tick(now: Time)
    | SrcAccept(stream: seq<Wire.Item>)
    | SrcStep
    | SrcClose
    | WorkerStep(w: nat, choice: Choice)
    | DstStep
    | CleanerStep

  const EPOCH := Time(0, 0)

  const NO_SESSION := Session(0, EPOCH, 0, 0, [], [], None)

  /** `init_workers` (lib/thread.c:22-47). */
  function InitWorker(): Worker {
    Worker(Unborn, Available, None, 0, EPOCH, None, None, None, false, NO_SESSION, [])
  }

  function Init(cfg: Config): State {
    State(EPOCH, [], [], NoSource, [], seq(cfg.workers, _ => InitWorker()), {}, None, Accepting, 0, [],
          Cleaner(CGet, None, None, EPOCH), None)
  }

  // get_msg_entry (lib/msg_queue.c:82-118): None while the caller has to wait.

  function GetEntry(size: nat, current: Option<nat>, prev: Option<nat>, toStart: bool): Option<nat> {
    if size > 0 && current.Some? then current
    else if size == 0 || prev.None? then (if size == 0 then None else Some(0))
    else if prev.value + 1 >= size then None
    else if toStart then Some(0)
    else Some(prev.value + 1)
  }

  /** `TAILQ_NEXT`. */
  function NextEntry(size: nat, e: nat): Option<nat> {
    if e + 1 < size then Some(e + 1) else None
  }

  // The source thread (ws_server.c:67-95).

  predicate SrcEnabled(s: State, a: Action) {
    match a {
      case SrcAccept(_) => s.src.NoSource?
      case SrcStep => !s.src.NoSource?
      // is_alive: recv reports the end of the stream only once everything has been read
      case SrcClose => s.src.Connected? && s.src.rest == []
      case _ => false
    }
  }

  function SrcNext(cfg: Config, s: State, a: Action): State {
    match a {
      case SrcAccept(stream) => s.(src := Connected(stream), streams := s.streams + [stream])
      case SrcClose => s.(src := NoSource)
      case _ =>
        match s.src {
          case NoSource => s
          case Connected(rest) =>
            var p := Ctmp.Parse(cfg.extended, rest);
            s.(src := if p.frame.Some? then Stamping(p.frame.value, p.rest) else Connected(p.rest))
          case Stamping(f, rest) => s.(src := Appending(Entry(s.clock, f), rest))
          case Appending(e, rest) =>
            s.(src := Connected(rest), queue := s.queue + [e], cells := s.cells + [Cell(true, Some({}))])
        }
    }
  }

  // The workers (ws_server.c:105-171).

  /** How far one `send` may reach: header and data are sent by separate calls. */
  function SendLimit(frame: Frame, off: nat): nat {
    if off < 8 <= |frame| then 8 else |frame|
  }

  /** The entry a worker is working on is in the queue. */
  predicate AtEntry(q: seq<Entry>, cells: seq<Cell>, w: Worker) {
    w.current.Some? && w.current.value < |q| == |cells|
  }

  /** Program points between getting an entry and closing the client's descriptor. */
  predicate Serving(pc: WorkerPc) {
    pc.Get? || pc.Alive? || pc.Test? || pc.Send? || pc.Mark? || pc.Next? || pc.Close?
  }

  /** Can the worker go on, apart from the mask lock? */
  predicate CanStep(q: seq<Entry>, cells: seq<Cell>, w: Worker, c: Choice) {
    match w.pc {
      case Unborn => false
      case Get => c == Go && GetEntry(|q|, w.current, w.prev, false).Some?
      case Alive => AtEntry(q, cells, w) && (c == Go || c == Fail)
      case Send(off) =>
        && AtEntry(q, cells, w)
        && var f := q[w.current.value].frame;
           match c {
             case Go => off == |f|
             case Fail => off < |f|
             case Take(k) => k > 0 && off + k <= SendLimit(f, off)
           }
      case Close => c == Go
      case LockSelf => c == Go && w.lock.None?
      case SetReady => c == Go
      case WantMask => c == Go
      case ClearBit => c == Go
      case Check => c == Go
      case Wait => c == Go
      case Relock => c == Go && w.lock.None?
      case _ => c == Go && AtEntry(q, cells, w)
    }
  }

  /** `can_forward` (lib/msg_queue.c:162-169) with its short circuit; None when it reads a freed mask. */
  function CanForward(e: Entry, cell: Cell, i: nat, ts: Time): Option<bool> {
    if !Before(ts, e.ts) then Some(false)
    else if cell.sent.None? then None
    else Some(i !in cell.sent.value)
  }

  /** The entry that `get_msg_entry` will give for this `current` and `prev`. */
  function Position(current: Option<nat>, prev: Option<nat>): nat {
    if current.Some? then current.value
    else if prev.Some? then prev.value + 1
    else 0
  }

  /** The delivery part of the worker loop (ws_server.c:112-138); None when it reads freed data. */
  function ServeAfter(q: seq<Entry>, cells: seq<Cell>, i: nat, w: Worker, c: Choice): Option<Worker>
    requires CanStep(q, cells, w, c) && Serving(w.pc)
  {
    match w.pc {
      case Get => Some(w.(pc := Alive, current := GetEntry(|q|, w.current, w.prev, false)))
      case Alive => Some(w.(pc := if c == Go then Test else Close))
      case Test =>
        var e := w.current.value;
        var fwd := CanForward(q[e], cells[e], i, w.ts);
        if fwd.None? then None
        else if fwd.value then
          Some(w.(pc := Send(0),
                  sess := w.sess.(hi := e + 1, attempts := w.sess.attempts + [e], part := Some(0))))
        else Some(w.(pc := Next, sess := w.sess.(hi := e + 1)))
      case Send(off) =>
        var e := w.current.value;
        if c == Go then Some(w.(pc := Mark, failed := false, sess := w.sess.(part := None)))
        else if !cells[e].msg then None
        else if c == Fail then Some(w.(pc := Mark, failed := true))
        else Some(w.(pc := Send(off + c.count),
                     sess := w.sess.(out := w.sess.out + q[e].frame[off..off + c.count],
                                     part := Some(off + c.count))))
      case Mark => if cells[w.current.value].sent.None? then None else Some(w.(pc := Next))
      case Next =>
        var next := NextEntry(|q|, w.current.value);
        if w.failed then Some(w.(pc := Close, next := next))
        else Some(w.(pc := Get, next := next, prev := w.current, current := next))
      case Close => Some(w.(pc := LockSelf))
    }
  }

  /** Waiting for the next client (ws_server.c:143-168); None when it reads freed data. */
  function ParkAfter(q: seq<Entry>, cells: seq<Cell>, i: nat, w: Worker, c: Choice): Option<Worker>
    requires CanStep(q, cells, w, c) && !Serving(w.pc)
  {
    match w.pc {
      case LockSelf => Some(w.(pc := SetReady, lock := Some(WorkerThread(i))))
      case SetReady => Some(w.(pc := WantMask, status := Ready))
      case WantMask => Some(w.(pc := ClearBit))
      case ClearBit => Some(w.(pc := Check))
      case Check =>
        if w.status == Busy then Some(w.(pc := ResetTest)) else Some(w.(pc := Wait, lock := None))
      case Wait => Some(w.(pc := Relock))
      case Relock => Some(w.(pc := Check, lock := Some(WorkerThread(i))))
      case ResetTest => Some(w.(pc := if cells[w.current.value].sent.Some? then ResetDo else Resume))
      case ResetDo => if cells[w.current.value].sent.None? then None else Some(w.(pc := Resume))
      case Resume =>
        var start := Position(w.next, w.current);
        Some(w.(pc := Get, lock := None, prev := w.current, current := w.next,
                past := w.past + [w.sess],
                sess := Session(w.client, w.ts, start, start, [], [], None)))
    }
  }

  function WorkerAfter(q: seq<Entry>, cells: seq<Cell>, i: nat, w: Worker, c: Choice): Option<Worker>
    requires CanStep(q, cells, w, c)
  {
    if Serving(w.pc) then ServeAfter(q, cells, i, w, c) else ParkAfter(q, cells, i, w, c)
  }

  /** The sent masks after the step: `set_sent` at Mark and at ResetDo. */
  function CellsAfter(cells: seq<Cell>, i: nat, w: Worker): (r: seq<Cell>)
    ensures |r| == |cells|
  {
    if (w.pc.Mark? || w.pc.ResetDo?) && w.current.Some? && w.current.value < |cells|
       && cells[w.current.value].sent.Some? then
      var e := w.current.value;
      var sent := cells[e].sent.value;
      cells[e := cells[e].(sent := Some(if w.pc.Mark? then sent + {i} else sent - {i}))]
    else cells
  }

  predicate WorkerEnabled(s: State, i: nat, c: Choice) {
    && i < |s.workers|
    && CanStep(s.queue, s.cells, s.workers[i], c)
    && (s.workers[i].pc.WantMask? ==> s.maskLock.None?)
  }

  function Crash(s: State, f: Fault): State {
    s.(fault := Some(f))
  }

  function Put(s: State, i: nat, w: Worker): State
    requires i < |s.workers|
  {
    s.(workers := s.workers[i := w])
  }

  /** The state once worker `i` has become `after`, or has read freed data. */
  function Commit(s: State, i: nat, after: Option<Worker>): State
    requires i < |s.workers| && (after.None? ==> s.workers[i].current.Some?)
  {
    var w := s.workers[i];
    if after.None? then Crash(s, UseAfterFree(i, w.current.value))
    else
      s.(workers := s.workers[i := after.value],
         cells := CellsAfter(s.cells, i, w),
         mask := if w.pc.ClearBit? then s.mask - {i} else s.mask,
         maskLock := if w.pc.WantMask? then Some(WorkerThread(i)) else if w.pc.ClearBit? then None else s.maskLock)
  }

  function WorkerNext(s: State, i: nat, c: Choice): State
    requires WorkerEnabled(s, i, c)
  {
    Commit(s, i, WorkerAfter(s.queue, s.cells, i, s.workers[i], c))
  }

  // The destination server (ws_server.c:189-230; lib/thread.c:56-141).

  predicate DstEnabled(s: State) {
    match s.dst {
      case Scanning(_, _, i, _) => i < |s.workers| ==> s.maskLock.None?
      case Assigning(stage, _, _, i, _) =>
        && i < |s.workers|
        && match stage {
             case InitWant => s.maskLock.None?
             case WakeWant => s.maskLock.None?
             case WakeLock => s.workers[i].lock.None?
             case _ => true
           }
      case _ => true
    }
  }

  function DstNext(s: State): State
    requires DstEnabled(s)
  {
    match s.dst {
      case Accepting => s.(dst := Accepted(s.clients), clients := s.clients + 1)
      case Accepted(client) => s.(dst := Scanning(client, s.clock, 0, s.mask))
      case Scanning(client, ts, i, snap) =>
        if i < |s.workers| then s.(dst := ScanHolding(client, ts, i, snap), maskLock := Some(DstThread))
        else s.(dst := Scanning(client, ts, 0, s.mask))
      case ScanHolding(client, ts, i, snap) =>
        s.(dst := if i in s.mask then Scanning(client, ts, i + 1, snap)
                  else Assigning(Switch, client, ts, i, snap),
           maskLock := None)
      case Assigning(stage, client, ts, i, snap) =>
        var w := s.workers[i];
        var to := (next: Stage) => s.dst.(stage := next);
        match stage {
          case Switch =>
            match w.status {
              case Available => s.(dst := to(InitArgs))
              case Ready => s.(dst := to(WakeAssert))
              case Busy => s.(dst := Accepting)
            }
          case InitArgs =>
            Put(s.(dst := to(InitWant), log := s.log + [Assignment(client, ts, i)]), i,
                w.(lock := None, client := client, status := Busy))
          case InitWant => s.(dst := to(InitSet), maskLock := Some(DstThread))
          case InitSet => s.(dst := to(InitTs), mask := s.mask + {i}, maskLock := None)
          case InitTs => Put(s.(dst := to(Create)), i, w.(ts := ts))
          case Create =>
            Put(s.(dst := Accepting), i,
                w.(pc := Get, sess := Session(w.client, w.ts, 0, 0, [], [], None)))
          case WakeAssert =>
            if w.status != Ready then Crash(s, AssertionFailed(i)) else s.(dst := to(WakeLock))
          case WakeLock => Put(s.(dst := to(WakeArgs)), i, w.(lock := Some(DstThread)))
          case WakeArgs =>
            Put(s.(dst := to(WakeWant), log := s.log + [Assignment(client, ts, i)]), i,
                w.(client := client, status := Busy))
          case WakeWant => s.(dst := to(WakeSet), maskLock := Some(DstThread))
          case WakeSet => s.(dst := to(WakeTs), mask := s.mask + {i}, maskLock := None)
          case WakeTs => Put(s.(dst := to(WakeSignal)), i, w.(ts := ts))
          case WakeSignal => Put(s.(dst := to(WakeUnlock)), i, w.(pc := if w.pc == Wait then Relock else w.pc))
          case WakeUnlock => Put(s.(dst := Accepting), i, w.(lock := None))
        }
    }
  }

  /** The destination server only works on the pool. */
  lemma DstLeavesQueue(s: State)
    requires DstEnabled(s)
    ensures var s' := DstNext(s);
            && s'.queue == s.queue && s'.cells == s.cells && s'.src == s.src && s'.streams == s.streams
            && s'.clock == s.clock && s'.cleaner == s.cleaner
  {
  }

  // The cleanup thread (ws_server.c:240-274).

  predicate CleanerEnabled(s: State) {
    var c := s.cleaner;
    if c.pc == CGet then GetEntry(|s.queue|, c.current, c.prev, true).Some?
    else c.current.Some? && c.current.value < |s.queue| == |s.cells|
  }

  function CleanerNext(cfg: Config, s: State): State
    requires CleanerEnabled(s)
  {
    var c := s.cleaner;
    match c.pc {
      case CGet =>
        var e := GetEntry(|s.queue|, c.current, c.prev, true);
        s.(cleaner := c.(pc := CCheck, current := e, began := if e == Some(0) then s.clock else c.began))
      case CCheck => s.(cleaner := c.(pc := if s.cells[c.current.value].msg then CClock else CNext))
      case CClock =>
        var expired := Before(Plus(s.queue[c.current.value].ts, cfg.ttl), s.clock);
        s.(cleaner := c.(pc := if expired then CFreeSent else CNext))
      case CFreeSent =>
        var e := c.current.value;
        s.(cleaner := c.(pc := CFreeMsg), cells := s.cells[e := s.cells[e].(sent := None)])
      case CFreeMsg =>
        var e := c.current.value;
        s.(cleaner := c.(pc := CNext), cells := s.cells[e := s.cells[e].(msg := false)])
      case CNext =>
        var next := NextEntry(|s.queue|, c.current.value);
        s.(cleaner := c.(pc := CGet, prev := c.current, current := next))
    }
  }

  // Runs.

  predicate Enabled(s: State, a: Action) {
    && s.fault.None?
    && match a {
         case Tick(now) => NotAfter(s.clock, now)
         case WorkerStep(i, c) => WorkerEnabled(s, i, c)
         case DstStep => DstEnabled(s)
         case CleanerStep => CleanerEnabled(s)
         case _ => SrcEnabled(s, a)
       }
  }

  function Step(cfg: Config, s: State, a: Action): State
    requires Enabled(s, a)
  {
    match a {
      case Tick(now) => s.(clock := now)
      case WorkerStep(i, c) => WorkerNext(s, i, c)
      case DstStep => DstNext(s)
      case CleanerStep => CleanerNext(cfg, s)
      case _ => SrcNext(cfg, s, a)
    }
  }

  /** The state after a sequence of actions, if each was possible in its turn. */
  function Exec(cfg: Config, actions: seq<Action>): Option<State> {
    if actions == [] then Some(Init(cfg))
    else
      var before, a := Exec(cfg, actions[..|actions| - 1]), actions[|actions| - 1];
      if before.Some? && Enabled(before.value, a) then Some(Step(cfg, before.value, a)) else None
  }

  ghost predicate Reachable(cfg: Config, s: State) {
    exists actions :: Exec(cfg, actions) == Some(s)
  }

  lemma InitReachable(cfg: Config)
    ensures Reachable(cfg, Init(cfg))
  {
    assert Exec(cfg, []) == Some(Init(cfg));
  }

  lemma StepReachable(cfg: Config, s: State, a: Action)
    requires Reachable(cfg, s) && Enabled(s, a)
    ensures Reachable(cfg, Step(cfg, s, a))
  {
    var actions :| Exec(cfg, actions) == Some(s);
    var longer := actions + [a];
    assert longer[..|longer| - 1] == actions;
    assert Exec(cfg, longer) == Some(Step(cfg, s, a));
  }

  /** The state after a sequence of actions from `s`. */
  function ExecFrom(cfg: Config, s: State, actions: seq<Action>): Option<State> {
    if actions == [] then Some(s)
    else
      var before, a := ExecFrom(cfg, s, actions[..|actions| - 1]), actions[|actions| - 1];
      if before.Some? && Enabled(before.value, a) then Some(Step(cfg, before.value, a)) else None
  }

  lemma {:induction false} ExecFromReachable(cfg: Config, s: State, actions: seq<Action>)
    requires Reachable(cfg, s) && ExecFrom(cfg, s, actions).Some?
    ensures Reachable(cfg, ExecFrom(cfg, s, actions).value)
  {
    hide Step;
    hide Enabled;
    hide Reachable;
    if actions == [] {
    } else {
      var before := actions[..|actions| - 1];
      ExecFromReachable(cfg, s, before);
      StepReachable(cfg, ExecFrom(cfg, s, before).value, actions[|actions| - 1]);
    }
  }
}
