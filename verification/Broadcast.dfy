/** What the delivery invariant means for the receivers, in every run. */
module Broadcast {
  import opened Common
  import opened Timestamp
  import opened Server
  import opened Sessions
  import opened Delivery
  import Pool
  import Ctmp

  /** `x` is a past or current session of worker `i`. */
  predicate IsSession(s: State, i: nat, x: Session) {
    i < |s.workers| && x in SessionsOf(s.workers[i])
  }

  lemma SessionsAreOK(cfg: Config, s: State, i: nat, x: Session)
    requires Reachable(cfg, s) && IsSession(s, i, x)
    ensures SessionOK(s.queue, x) && InTimeOrder(s.queue)
  {
    DeliveryReachable(cfg, s);
    assert WorkerInv(s.queue, s.cells, i, s.workers[i]);
    var xs := SessionsOf(s.workers[i]);
    hide SessionOK;
    var k :| 0 <= k < |xs| && xs[k] == x;
  }

  /**
   * Slice theorem: what a session has attempted is exactly what it examined and is newer than
   * its client, in queue order, and that is one contiguous block ending at its cursor.
   */
  lemma Slice(cfg: Config, s: State, i: nat, x: Session)
    requires Reachable(cfg, s) && IsSession(s, i, x)
    ensures x.start <= x.hi <= |s.queue|
    ensures x.attempts == Range(FirstNewer(s.queue, x.ts, x.start, x.hi), x.hi)
    ensures forall e :: e in x.attempts <==> x.start <= e < x.hi && Before(x.ts, s.queue[e].ts)
  {
    SessionsAreOK(cfg, s, i, x);
    NewerIsBlock(s.queue, x.ts, x.start, x.hi);
    NewerMembers(s.queue, x.ts, x.start, x.hi);
  }

  // At most once.

  function AllAttempts(xs: seq<Session>): seq<nat> {
    if xs == [] then [] else AllAttempts(xs[..|xs| - 1]) + xs[|xs| - 1].attempts
  }

  predicate StrictlyIncreasing(es: seq<nat>) {
    forall j, k :: 0 <= j < k < |es| ==> es[j] < es[k]
  }

  lemma IncreasingAppend(es: seq<nat>, fs: seq<nat>, m: nat)
    requires StrictlyIncreasing(es) && forall e :: e in es ==> e < m
    requires StrictlyIncreasing(fs) && forall e :: e in fs ==> m <= e
    ensures StrictlyIncreasing(es + fs)
  {
    assert forall j :: 0 <= j < |es| ==> es[j] in es;
    assert forall j :: 0 <= j < |fs| ==> fs[j] in fs;
  }

  lemma ChainedPrefix(xs: seq<Session>)
    requires Chained(xs) && xs != []
    ensures Chained(xs[..|xs| - 1])
    ensures |xs| > 1 ==> xs[|xs| - 2].hi <= xs[|xs| - 1].start
  {
    assert |xs| > 1 ==> xs[|xs| - 2].hi <= xs[(|xs| - 2) + 1].start;
  }

  /** Chained slices never overlap, so their attempts never repeat and never go back. */
  lemma {:induction false} ChainIncreases(q: seq<Entry>, xs: seq<Session>)
    requires Chained(xs) && forall k :: 0 <= k < |xs| ==> SessionOK(q, xs[k])
    ensures StrictlyIncreasing(AllAttempts(xs))
    ensures xs != [] ==> forall e :: e in AllAttempts(xs) ==> e < xs[|xs| - 1].hi
  {
    hide OutOK;
    if xs == [] {
    } else {
      var before, x := xs[..|xs| - 1], xs[|xs| - 1];
      ChainedPrefix(xs);
      hide Chained;
      ChainIncreases(q, before);
      assert SessionOK(q, x);
      NewerMembers(q, x.ts, x.start, x.hi);
      IncreasingAppend(AllAttempts(before), x.attempts, x.start);
    }
  }

  /** Over its whole life, across all its clients, a worker attempts each entry at most once, in queue order. */
  lemma AtMostOnce(cfg: Config, s: State, i: nat)
    requires Reachable(cfg, s) && i < |s.workers|
    ensures StrictlyIncreasing(AllAttempts(SessionsOf(s.workers[i])))
  {
    DeliveryReachable(cfg, s);
    assert WorkerInv(s.queue, s.cells, i, s.workers[i]);
    hide SessionOK;
    ChainIncreases(s.queue, SessionsOf(s.workers[i]));
  }

  lemma UnbornHi(cfg: Config, s: State, i: nat)
    requires Reachable(cfg, s) && i < |s.workers| && s.workers[i].pc.Unborn?
    ensures s.workers[i].sess.hi == 0
  {
    DeliveryReachable(cfg, s);
    assert WorkerInv(s.queue, s.cells, i, s.workers[i]);
  }

  lemma DstAdvances(cfg: Config, s: State, i: nat)
    requires Reachable(cfg, s) && DstEnabled(s) && i < |s.workers|
    ensures i < |DstNext(s).workers|
    ensures s.workers[i].sess.hi <= DstNext(s).workers[i].sess.hi
  {
    if s.dst.Assigning? {
      hide DstNext;
      hide Pool.PoolInv;
      Pool.PoolInvReachable(cfg, s);
      DstTouches(cfg, s);
      if s.workers[i].pc.Unborn? {
        UnbornHi(cfg, s, i);
      }
    }
  }

  lemma HiGrows(q: seq<Entry>, cells: seq<Cell>, i: nat, w: Worker, c: Choice)
    requires CanStep(q, cells, w, c) && WorkerInv(q, cells, i, w)
    ensures var after := WorkerAfter(q, cells, i, w, c);
            after.Some? ==> w.sess.hi <= after.value.sess.hi
  {
    hide CanForward;
    hide HistoryOK;
    hide FailedOK;
    hide SentOK;
  }

  /** The cursor of a worker never goes back. */
  lemma CursorAdvances(cfg: Config, s: State, a: Action, i: nat)
    requires Reachable(cfg, s) && Enabled(s, a) && i < |s.workers|
    ensures i < |Step(cfg, s, a).workers|
    ensures s.workers[i].sess.hi <= Step(cfg, s, a).workers[i].sess.hi
  {
    hide WorkerInv;
    hide WorkerAfter;
    hide CellsAfter;
    hide DstNext;
    hide Ctmp.Parse;
    DeliveryReachable(cfg, s);
    if a.WorkerStep? {
      if a.w == i {
        HiGrows(s.queue, s.cells, i, s.workers[i], a.choice);
      }
    } else if a.DstStep? {
      DstAdvances(cfg, s, i);
    }
  }

  /** Every test of an entry that does not fault moves the cursor on by exactly that entry. */
  lemma TestAdvances(cfg: Config, s: State, i: nat)
    requires Reachable(cfg, s) && WorkerEnabled(s, i, Go) && s.workers[i].pc.Test?
    requires WorkerAfter(s.queue, s.cells, i, s.workers[i], Go).Some?
    ensures var v := WorkerNext(s, i, Go).workers[i];
            v.sess.hi == s.workers[i].sess.hi + 1 && v.current == Some(s.workers[i].sess.hi)
  {
    DeliveryReachable(cfg, s);
    assert WorkerInv(s.queue, s.cells, i, s.workers[i]);
    hide HistoryOK;
    hide FailedOK;
    hide SentOK;
    hide CanForward;
  }

  // Completeness.

  /** The session has attempted every entry up to its cursor that is newer than its client. */
  predicate MissedNothing(q: seq<Entry>, x: Session) {
    forall e :: 0 <= e < x.hi && e < |q| && Before(x.ts, q[e].ts) ==> e in x.attempts
  }

  /**
   * Completeness, exactly: a session misses nothing iff it starts at the front or its client is
   * not older than the entry just before its start.
   */
  lemma CompleteIff(cfg: Config, s: State, i: nat, x: Session)
    requires Reachable(cfg, s) && IsSession(s, i, x) && x.start <= |s.queue|
    ensures MissedNothing(s.queue, x) <==> x.start == 0 || !Before(x.ts, s.queue[x.start - 1].ts)
  {
    Slice(cfg, s, i, x);
    SessionsAreOK(cfg, s, i, x);
    hide SessionOK;
    if x.start > 0 {
      var last := x.start - 1;
      assert last !in x.attempts;
      assert forall e :: 0 <= e <= last ==> NotAfter(s.queue[e].ts, s.queue[last].ts);
    }
  }

  /** A worker's first client misses nothing. */
  lemma FirstSessionComplete(cfg: Config, s: State, i: nat)
    requires Reachable(cfg, s) && i < |s.workers| && SessionsOf(s.workers[i]) != []
    ensures MissedNothing(s.queue, SessionsOf(s.workers[i])[0])
  {
    var x := SessionsOf(s.workers[i])[0];
    DeliveryReachable(cfg, s);
    assert WorkerInv(s.queue, s.cells, i, s.workers[i]);
    hide SessionOK;
    assert IsSession(s, i, x);
    SessionsAreOK(cfg, s, i, x);
    Slice(cfg, s, i, x);
    CompleteIff(cfg, s, i, x);
  }

  /** Handing a worker to its next client passes over at most one entry. */
  lemma AtMostOnePassedOver(cfg: Config, s: State, i: nat, k: nat)
    requires Reachable(cfg, s) && i < |s.workers| && k + 1 < |SessionsOf(s.workers[i])|
    ensures var xs := SessionsOf(s.workers[i]);
            xs[k].hi <= xs[k + 1].start <= xs[k].hi + 1
  {
    DeliveryReachable(cfg, s);
    assert WorkerInv(s.queue, s.cells, i, s.workers[i]);
    hide SessionOK;
  }

  /** Where the next session will start, from the cursor of the worker about to resume. */
  lemma StartAtResume(cfg: Config, s: State, i: nat)
    requires Reachable(cfg, s) && i < |s.workers| && s.workers[i].pc.Resume?
    ensures var w := s.workers[i];
            NewSession(w).start == w.sess.hi + 1 <==> w.next.None? && w.current == Some(w.sess.hi)
  {
    DeliveryReachable(cfg, s);
    assert WorkerInv(s.queue, s.cells, i, s.workers[i]);
    hide HistoryOK;
    hide FailedOK;
  }

  /** Worker `w` is still, or again, what it was when it began to close its client, or a later session has begun. */
  predicate ParkedSince(w: Worker, closing: Worker) {
    || |w.past| > |closing.past|
    || (!w.pc.Unborn? && (w.pc.Close? || !Serving(w.pc))
        && w.current == closing.current && w.next == closing.next
        && w.sess == closing.sess && w.past == closing.past)
  }

  lemma ParkedSinceOwn(q: seq<Entry>, cells: seq<Cell>, i: nat, w: Worker, c: Choice, closing: Worker)
    requires CanStep(q, cells, w, c) && ParkedSince(w, closing)
    ensures var after := WorkerAfter(q, cells, i, w, c);
            after.Some? ==> ParkedSince(after.value, closing)
  {
    if Serving(w.pc) {
      ServeKeeps(q, cells, i, w, c);
    } else if !w.pc.Resume? {
      ParkKeeps(q, cells, i, w, c);
      hide ParkAfter;
    }
  }

  lemma DstKeepsParked(cfg: Config, s: State, i: nat, closing: Worker)
    requires Reachable(cfg, s) && DstEnabled(s) && i < |s.workers| && ParkedSince(s.workers[i], closing)
    ensures i < |DstNext(s).workers| && ParkedSince(DstNext(s).workers[i], closing)
  {
    if s.dst.Assigning? {
      hide DstNext;
      hide Pool.PoolInv;
      Pool.PoolInvReachable(cfg, s);
      DstTouches(cfg, s);
    }
  }

  lemma ParkedSinceStep(cfg: Config, s: State, a: Action, i: nat, closing: Worker)
    requires Reachable(cfg, s) && Enabled(s, a) && i < |s.workers| && ParkedSince(s.workers[i], closing)
    ensures i < |Step(cfg, s, a).workers| && ParkedSince(Step(cfg, s, a).workers[i], closing)
  {
    hide Pool.PoolInv;
    hide WorkerAfter;
    hide CellsAfter;
    hide DstNext;
    hide Ctmp.Parse;
    if a.WorkerStep? {
      if a.w == i {
        ParkedSinceOwn(s.queue, s.cells, i, s.workers[i], a.choice, closing);
      }
    } else if a.DstStep? {
      DstKeepsParked(cfg, s, i, closing);
    }
  }

  lemma {:induction false} ParkedSinceRun(cfg: Config, s: State, actions: seq<Action>, i: nat)
    requires Reachable(cfg, s) && i < |s.workers| && s.workers[i].pc.Close? && ExecFrom(cfg, s, actions).Some?
    ensures i < |ExecFrom(cfg, s, actions).value.workers|
    ensures ParkedSince(ExecFrom(cfg, s, actions).value.workers[i], s.workers[i])
  {
    hide Step;
    hide Enabled;
    hide Reachable;
    if actions == [] {
    } else {
      hide ParkedSince;
      var before := actions[..|actions| - 1];
      ParkedSinceRun(cfg, s, before, i);
      ExecFromReachable(cfg, s, before);
      ParkedSinceStep(cfg, ExecFrom(cfg, s, before).value, actions[|actions| - 1], i, s.workers[i]);
    }
  }

  /** The step of worker `i` that begins to close its client. */
  predicate Closes(s: State, i: nat, c: Choice) {
    && i < |s.workers| && WorkerEnabled(s, i, c)
    && !s.workers[i].pc.Close?
    && WorkerAfter(s.queue, s.cells, i, s.workers[i], c).Some?
    && WorkerAfter(s.queue, s.cells, i, s.workers[i], c).value.pc.Close?
  }

  /** A client is closed when it is found gone or after a failed send, and at no other point. */
  lemma ClosesFrom(q: seq<Entry>, cells: seq<Cell>, i: nat, w: Worker, c: Choice)
    requires CanStep(q, cells, w, c) && !w.pc.Close?
    requires WorkerAfter(q, cells, i, w, c).Some? && WorkerAfter(q, cells, i, w, c).value.pc.Close?
    ensures (w.pc.Alive? && c == Fail) || (w.pc.Next? && w.failed)
  {
    hide CanForward;
  }

  lemma ClosingCursor(q: seq<Entry>, cells: seq<Cell>, i: nat, w: Worker, c: Choice)
    requires CanStep(q, cells, w, c) && !w.pc.Close? && CursorOK(q, w)
    requires WorkerAfter(q, cells, i, w, c).Some? && WorkerAfter(q, cells, i, w, c).value.pc.Close?
    ensures var v := WorkerAfter(q, cells, i, w, c).value;
            && v.past == w.past && v.sess == w.sess
            && (v.next.None? && v.current == Some(v.sess.hi) <==> w.pc.Alive? && w.next.None?)
  {
    ClosesFrom(q, cells, i, w, c);
    hide ParkAfter;
    hide CanForward;
  }

  /**
   * An entry is passed over exactly when the old client was found gone by `is_alive` on an entry
   * fetched with `current` NULL, so that `next` was still NULL: whatever happens between the step
   * that closes the old client and the start of the next session.
   */
  lemma PassedOverIff(cfg: Config, s: State, i: nat, c: Choice, actions: seq<Action>)
    requires Reachable(cfg, s) && s.fault.None? && Closes(s, i, c)
    requires ExecFrom(cfg, WorkerNext(s, i, c), actions).Some?
    requires i < |ExecFrom(cfg, WorkerNext(s, i, c), actions).value.workers|
    requires var v := ExecFrom(cfg, WorkerNext(s, i, c), actions).value.workers[i];
             v.pc.Resume? && |v.past| == |s.workers[i].past|
    ensures var v := ExecFrom(cfg, WorkerNext(s, i, c), actions).value.workers[i];
            NewSession(v).start == v.sess.hi + 1 <==> s.workers[i].pc.Alive? && s.workers[i].next.None?
  {
    hide Reachable;
    hide CellsAfter;
    var s1 := WorkerNext(s, i, c);
    var t := ExecFrom(cfg, s1, actions).value;
    StepReachable(cfg, s, WorkerStep(i, c));
    ParkedSinceRun(cfg, s1, actions, i);
    ExecFromReachable(cfg, s1, actions);
    StartAtResume(cfg, t, i);
    hide ExecFrom;
    DeliveryReachable(cfg, s);
    var w := s.workers[i];
    assert WorkerInv(s.queue, s.cells, i, w);
    hide HistoryOK;
    hide FailedOK;
    hide SentOK;
    ClosingCursor(s.queue, s.cells, i, w, c);
    hide WorkerAfter;
  }

  // Order.

  lemma IncreasingOrder(es: seq<nat>, j: nat, k: nat)
    requires StrictlyIncreasing(es) && j < |es| && k < |es| && es[j] < es[k]
    ensures j < k
  {
  }

  /** Total order: any two sessions, of any workers, attempt their common entries in the same order. */
  lemma SameOrder(cfg: Config, s: State, i: nat, x: Session, i': nat, x': Session, j: nat, k: nat, j': nat, k': nat)
    requires Reachable(cfg, s) && IsSession(s, i, x) && IsSession(s, i', x')
    requires j < k < |x.attempts| && j' < |x'.attempts| && k' < |x'.attempts|
    requires x.attempts[j] == x'.attempts[j'] && x.attempts[k] == x'.attempts[k']
    ensures j' < k'
  {
    SessionsAreOK(cfg, s, i, x);
    SessionsAreOK(cfg, s, i', x');
    NewerMembers(s.queue, x.ts, x.start, x.hi);
    NewerMembers(s.queue, x'.ts, x'.start, x'.hi);
    IncreasingOrder(x'.attempts, j', k');
  }

  // The end of a session.

  /** Past the wait for an entry a worker always has one at hand, so no step of it is blocked by a missing entry. */
  lemma EntryAtHand(cfg: Config, s: State, i: nat)
    requires Reachable(cfg, s) && i < |s.workers|
    requires !s.workers[i].pc.Unborn? && !s.workers[i].pc.Get?
    ensures AtEntry(s.queue, s.cells, s.workers[i])
  {
    DeliveryReachable(cfg, s);
    assert WorkerInv(s.queue, s.cells, i, s.workers[i]);
    hide HistoryOK;
    hide FailedOK;
    hide SentOK;
  }

  /**
   * When a worker closes its client after an entry: exactly when the send of this session failed,
   * or when this session has attempted nothing and the worker's last attempt, for an earlier
   * client, failed.
   */
  lemma ClosesIff(cfg: Config, s: State, i: nat)
    requires Reachable(cfg, s) && i < |s.workers| && s.workers[i].pc.Next?
    ensures CanStep(s.queue, s.cells, s.workers[i], Go)
    ensures var w := s.workers[i];
            ServeAfter(s.queue, s.cells, i, w, Go).value.pc.Close? <==>
              w.sess.part.Some? || (w.sess.attempts == [] && LastFailed(w.past))
  {
    EntryAtHand(cfg, s, i);
    DeliveryReachable(cfg, s);
    var w := s.workers[i];
    assert WorkerInv(s.queue, s.cells, i, w);
    hide HistoryOK;
    hide SentOK;
    var xs := SessionsOf(w);
    assert xs[..|xs| - 1] == w.past && xs[|xs| - 1] == w.sess;
  }

  /** A client closed without a failed send of its own is closed on the first entry looked at, which it was not owed. */
  lemma UnprovokedCloseIsEarly(cfg: Config, s: State, i: nat)
    requires Reachable(cfg, s) && i < |s.workers| && s.workers[i].pc.Next?
    requires s.workers[i].failed && s.workers[i].sess.part.None?
    ensures var x := s.workers[i].sess;
            && x.start < |s.queue| && x.hi == x.start + 1
            && !Before(x.ts, s.queue[x.start].ts)
  {
    DeliveryReachable(cfg, s);
    var w := s.workers[i];
    assert WorkerInv(s.queue, s.cells, i, w);
    var x := w.sess;
    assert IsSession(s, i, x) by {
      assert SessionsOf(w)[|w.past|] == x;
    }
    Slice(cfg, s, i, x);
    assert x.start !in x.attempts;
  }

  // The sent mask.

  /**
   * The guard never fires: at the test `can_forward` answers as its comparison of timestamps does,
   * or reads a freed mask, which it does exactly when the client is owed the entry and the mask is
   * gone.
   */
  lemma GuardNeverFires(cfg: Config, s: State, i: nat)
    requires Reachable(cfg, s) && i < |s.workers| && s.workers[i].pc.Test?
    ensures AtEntry(s.queue, s.cells, s.workers[i])
    ensures var w, e := s.workers[i], s.workers[i].current.value;
            CanForward(s.queue[e], s.cells[e], i, w.ts) ==
            if Before(w.ts, s.queue[e].ts) && s.cells[e].sent.None? then None
            else Some(Before(w.ts, s.queue[e].ts))
  {
    EntryAtHand(cfg, s, i);
    DeliveryReachable(cfg, s);
    assert WorkerInv(s.queue, s.cells, i, s.workers[i]);
    hide HistoryOK;
    hide FailedOK;
    hide Reachable;
    var w := s.workers[i];
    if CanForward(s.queue[w.current.value], s.cells[w.current.value], i, w.ts).Some? {
      GuardIsRedundant(s.queue, s.cells, i, w);
    }
  }

  /** A worker's step with `can_forward` reduced to its comparison of timestamps. */
  function UnguardedAfter(q: seq<Entry>, cells: seq<Cell>, i: nat, w: Worker, c: Choice): Option<Worker>
    requires CanStep(q, cells, w, c)
  {
    if w.pc.Test? then
      var e := w.current.value;
      Some(if Before(w.ts, q[e].ts) then
             w.(pc := Send(0), sess := w.sess.(hi := e + 1, attempts := w.sess.attempts + [e], part := Some(0)))
           else w.(pc := Next, sess := w.sess.(hi := e + 1)))
    else WorkerAfter(q, cells, i, w, c)
  }

  function UnguardedNext(s: State, i: nat, c: Choice): State
    requires WorkerEnabled(s, i, c)
  {
    Commit(s, i, UnguardedAfter(s.queue, s.cells, i, s.workers[i], c))
  }

  function UnguardedStep(cfg: Config, s: State, a: Action): State
    requires Enabled(s, a)
  {
    if a.WorkerStep? then UnguardedNext(s, a.w, a.choice) else Step(cfg, s, a)
  }

  function UnguardedExec(cfg: Config, actions: seq<Action>): Option<State> {
    if actions == [] then Some(Init(cfg))
    else
      var before, a := UnguardedExec(cfg, actions[..|actions| - 1]), actions[|actions| - 1];
      if before.Some? && Enabled(before.value, a) then Some(UnguardedStep(cfg, before.value, a)) else None
  }

  lemma UnguardedAfterSame(q: seq<Entry>, cells: seq<Cell>, i: nat, w: Worker, c: Choice)
    requires CanStep(q, cells, w, c) && WorkerInv(q, cells, i, w)
    requires WorkerAfter(q, cells, i, w, c).Some?
    ensures UnguardedAfter(q, cells, i, w, c) == WorkerAfter(q, cells, i, w, c)
  {
    hide HistoryOK;
    hide FailedOK;
    if w.pc.Test? {
      GuardIsRedundant(q, cells, i, w);
    }
  }

  lemma UnguardedSame(cfg: Config, s: State, a: Action)
    requires Reachable(cfg, s) && Enabled(s, a) && Step(cfg, s, a).fault.None?
    ensures UnguardedStep(cfg, s, a) == Step(cfg, s, a)
  {
    hide WorkerInv;
    hide WorkerAfter;
    hide UnguardedAfter;
    hide CellsAfter;
    hide SrcNext;
    hide DstNext;
    if a.WorkerStep? {
      DeliveryReachable(cfg, s);
      UnguardedAfterSame(s.queue, s.cells, a.w, s.workers[a.w], a.choice);
    }
  }

  /** Removing the look at the sent mask changes no run: every run that does not end in a fault stays as it is. */
  lemma {:induction false} SentMaskIsRedundant(cfg: Config, actions: seq<Action>)
    requires Exec(cfg, actions).Some? && Exec(cfg, actions).value.fault.None?
    ensures UnguardedExec(cfg, actions) == Exec(cfg, actions)
  {
    hide Step;
    if actions == [] {
    } else {
      var before, a := actions[..|actions| - 1], actions[|actions| - 1];
      var s := Exec(cfg, before).value;
      assert s.fault.None?;
      SentMaskIsRedundant(cfg, before);
      UnguardedSame(cfg, s, a);
    }
  }

  /** Some prefix of the run ends in a fault. */
  ghost predicate Crashes(cfg: Config, actions: seq<Action>) {
    exists n :: 0 <= n <= |actions| && Exec(cfg, actions[..n]).Some? && Exec(cfg, actions[..n]).value.fault.Some?
  }

  lemma CrashesLonger(cfg: Config, actions: seq<Action>)
    requires actions != [] && Crashes(cfg, actions[..|actions| - 1])
    ensures Crashes(cfg, actions)
  {
    hide Exec;
    var before := actions[..|actions| - 1];
    var n :| 0 <= n <= |before| && Exec(cfg, before[..n]).Some? && Exec(cfg, before[..n]).value.fault.Some?;
    assert actions[..n] == before[..n];
  }

  /** And it adds none: every run without that look is a run of the program, or the program faults on the way. */
  lemma {:induction false} UnguardedRunIsRun(cfg: Config, actions: seq<Action>)
    requires UnguardedExec(cfg, actions).Some?
    ensures UnguardedExec(cfg, actions) == Exec(cfg, actions) || Crashes(cfg, actions)
  {
    hide Step;
    hide UnguardedStep;
    if actions == [] {
    } else {
      var before, a := actions[..|actions| - 1], actions[|actions| - 1];
      UnguardedRunIsRun(cfg, before);
      if UnguardedExec(cfg, before) == Exec(cfg, before) {
        var s := Exec(cfg, before).value;
        if Step(cfg, s, a).fault.None? {
          UnguardedSame(cfg, s, a);
        } else {
          assert actions[..|actions|] == actions;
        }
      } else {
        CrashesLonger(cfg, actions);
      }
    }
  }

  // Locks.

  /** The next step of a thread that asks nothing of its environment. */
  function MoveOf(t: Thread): Action {
    match t {
      case DstThread => DstStep
      case WorkerThread(i) => WorkerStep(i, Go)
    }
  }

  /** The step that ends the short time for which the mask lock is held is always possible. */
  lemma MaskHolderReleases(cfg: Config, s: State, u: Thread)
    requires Reachable(cfg, s) && s.fault.None? && s.maskLock == Some(u)
    ensures Enabled(s, MoveOf(u)) && Step(cfg, s, MoveOf(u)).maskLock.None?
  {
    Pool.PoolInvReachable(cfg, s);
    hide Reachable;
    hide Pool.Compatible;
    hide Pool.ScanOK;
    hide CellsAfter;
    hide Ctmp.Parse;
  }

  lemma HolderMovesOrWaits(cfg: Config, s: State, t: Thread, u: Thread)
    requires Reachable(cfg, s) && s.fault.None? && Pool.WaitsFor(s, t, u)
    ensures Enabled(s, MoveOf(u)) || (s.maskLock.Some? && Pool.WaitsFor(s, u, s.maskLock.value))
  {
    Pool.PoolInvReachable(cfg, s);
    match Pool.Wants(s, t).value {
      case MaskLock => MaskHolderReleases(cfg, s, u);
      case OwnLock(i) =>
        assert Pool.Compatible(i, s.workers[i], i in s.mask, Pool.StageFor(s.dst, i));
        if u.WorkerThread? {
          EntryAtHand(cfg, s, i);
        }
    }
    hide Reachable;
    hide Step;
  }

  /**
   * No lock is kept for ever by a stuck thread: the holder of the mask lock can take a step, and
   * that step releases it; the holder of a worker's lock can take a step, or waits for the mask
   * lock behind a thread that can.
   */
  lemma HolderMoves(cfg: Config, s: State, t: Thread, u: Thread)
    requires Reachable(cfg, s) && s.fault.None? && Pool.WaitsFor(s, t, u)
    ensures Enabled(s, MoveOf(u))
            || (s.maskLock.Some? && Pool.WaitsFor(s, u, s.maskLock.value) && Enabled(s, MoveOf(s.maskLock.value)))
    ensures s.maskLock == Some(u) ==>
              Enabled(s, MoveOf(u)) && Step(cfg, s, MoveOf(u)).maskLock.None?
  {
    HolderMovesOrWaits(cfg, s, t, u);
    if s.maskLock.Some? {
      MaskHolderReleases(cfg, s, s.maskLock.value);
    }
    hide Reachable;
    hide Enabled;
    hide Step;
  }
}
