/**
 * The server machine keeps its masks as sets of worker indices.  Here the 64-bit words of the
 * program are carried along every run, and they never disagree (lib/bitmask.c; ws_server.c:148-149,
 * 127, 158; lib/thread.c:33, 62, 98, 132; lib/msg_queue.c:39, 57-58, 132, 148).
 */
module Words {
  import opened Common
  import opened Timestamp
  import opened Server
  import opened Bitmask
  import Pool
  import Ctmp

  /** `threads_status.data` and the `sent` words of the entries, NULL once freed. */
  datatype Masks = Masks(busy: Word64, sent: seq<Option<Word64>>)

  /** The words after an action: every `set_bit`, allocation and `free` of the program, and nothing else. */
  function WordsAfter(s: State, a: Action, m: Masks): Masks {
    match a {
      case WorkerStep(i, _) =>
        if i >= |s.workers| then m
        else
          var w := s.workers[i];
          var e := Position(w.current, None);
          if w.pc.ClearBit? then m.(busy := WithBit(m.busy, i, false))
          else if (w.pc.Mark? || w.pc.ResetDo?) && e < |m.sent| && m.sent[e].Some? then
            m.(sent := m.sent[e := Some(WithBit(m.sent[e].value, i, w.pc.Mark?))])
          else m
      case DstStep =>
        if s.dst.Assigning? && (s.dst.stage.InitSet? || s.dst.stage.WakeSet?) then
          m.(busy := WithBit(m.busy, s.dst.i, true))
        else m
      case CleanerStep =>
        var e := Position(s.cleaner.current, None);
        if s.cleaner.pc.CFreeSent? && e < |m.sent| then m.(sent := m.sent[e := None]) else m
      case SrcStep => if s.src.Appending? then m.(sent := m.sent + [Some({})]) else m
      case _ => m
    }
  }

  function RunWords(cfg: Config, actions: seq<Action>): Masks {
    if actions == [] then Masks({}, [])
    else
      var before, a := actions[..|actions| - 1], actions[|actions| - 1];
      if Exec(cfg, before).Some? then WordsAfter(Exec(cfg, before).value, a, RunWords(cfg, before))
      else RunWords(cfg, before)
  }

  /** The word answers `is_set` as the set does, for every worker that can exist. */
  predicate Represents(word: Word64, indices: set<nat>) {
    TopBitsAgree(word) && forall q: nat :: q < 32 ==> (IsSet(word, q) <==> q in indices)
  }

  predicate SentAgrees(word: Option<Word64>, sent: Option<set<nat>>) {
    && (word.Some? <==> sent.Some?)
    && (word.Some? ==> Represents(word.value, sent.value))
  }

  predicate Agree(s: State, m: Masks) {
    && Represents(m.busy, s.mask)
    && |m.sent| == |s.cells|
    && forall e :: 0 <= e < |s.cells| ==> SentAgrees(m.sent[e], s.cells[e].sent)
  }

  lemma RepresentsSetBit(word: Word64, indices: set<nat>, i: nat, val: bool)
    requires Represents(word, indices) && i < 32
    ensures Represents(WithBit(word, i, val), if val then indices + {i} else indices - {i})
  {
    hide IsSet;
    hide WithBit;
    forall q: nat | q < 32
      ensures IsSet(WithBit(word, i, val), q) <==> q in (if val then indices + {i} else indices - {i})
    {
      SetBitThenIsSet(word, i, val, q);
    }
    SetBitThenIsSet(word, i, val, 0);
  }

  lemma RepresentsZero()
    ensures Represents({}, {})
  {
  }

  lemma WordsWorker(s: State, i: nat, c: Choice, m: Masks)
    requires Agree(s, m) && WorkerEnabled(s, i, c) && i < 32
    requires WorkerNext(s, i, c).fault == s.fault
    requires s.fault.None?
    ensures Agree(WorkerNext(s, i, c), WordsAfter(s, WorkerStep(i, c), m))
  {
    hide WorkerAfter;
    hide Represents;
    hide WithBit;
    var w := s.workers[i];
    if w.pc.ClearBit? {
      RepresentsSetBit(m.busy, s.mask, i, false);
    } else if w.pc.Mark? || w.pc.ResetDo? {
      var e := w.current.value;
      assert SentAgrees(m.sent[e], s.cells[e].sent);
      if s.cells[e].sent.Some? {
        RepresentsSetBit(m.sent[e].value, s.cells[e].sent.value, i, w.pc.Mark?);
      }
    }
  }

  lemma WordsDst(s: State, m: Masks)
    requires Agree(s, m) && DstEnabled(s) && (s.dst.Assigning? ==> s.dst.i < 32)
    ensures Agree(DstNext(s), WordsAfter(s, DstStep, m))
  {
    hide Represents;
    hide WithBit;
    hide SentAgrees;
    if s.dst.Assigning? && (s.dst.stage.InitSet? || s.dst.stage.WakeSet?) {
      RepresentsSetBit(m.busy, s.mask, s.dst.i, true);
    }
  }

  lemma WordsOther(cfg: Config, s: State, a: Action, m: Masks)
    requires Agree(s, m) && Enabled(s, a) && !a.WorkerStep? && !a.DstStep?
    ensures Agree(Step(cfg, s, a), WordsAfter(s, a, m))
  {
    RepresentsZero();
    hide Represents;
    hide Ctmp.Parse;
  }

  lemma AgreeInit(cfg: Config)
    ensures Agree(Init(cfg), Masks({}, []))
  {
    RepresentsZero();
  }

  lemma WordsStep(cfg: Config, actions: seq<Action>, s: State, a: Action, m: Masks)
    requires cfg.workers <= 32 && Exec(cfg, actions) == Some(s)
    requires Agree(s, m) && Enabled(s, a) && Step(cfg, s, a).fault.None?
    ensures Agree(Step(cfg, s, a), WordsAfter(s, a, m))
  {
    hide Agree;
    hide WordsAfter;
    Pool.PoolInvRun(cfg, actions);
    if a.WorkerStep? {
      hide WorkerNext;
      WordsWorker(s, a.w, a.choice, m);
    } else if a.DstStep? {
      hide DstNext;
      WordsDst(s, m);
    } else {
      hide Step;
      WordsOther(cfg, s, a, m);
    }
  }

  /**
   * Refinement of the masks: in every run of at most 32 workers that has not faulted, `is_set` on
   * the program's words gives what the machine's sets give, for the busy mask and for every sent
   * mask, and a sent word is NULL exactly when the machine's is.
   */
  lemma {:induction false} WordsAgree(cfg: Config, actions: seq<Action>)
    requires cfg.workers <= 32
    requires Exec(cfg, actions).Some? && Exec(cfg, actions).value.fault.None?
    ensures Agree(Exec(cfg, actions).value, RunWords(cfg, actions))
  {
    hide Step;
    hide WordsAfter;
    hide Agree;
    if actions == [] {
      AgreeInit(cfg);
    } else {
      var before, a := actions[..|actions| - 1], actions[|actions| - 1];
      var s := Exec(cfg, before).value;
      WordsAgree(cfg, before);
      WordsStep(cfg, before, s, a, RunWords(cfg, before));
    }
  }

  /**
   * `can_forward` on the program's own word: in every state whose sets stand for the words, the
   * timestamp is compared first, a NULL word is read only after that, and then `is_set` decides.
   */
  lemma ForwardReadsWord(e: Entry, cell: Cell, word: Option<Word64>, i: nat, ts: Time)
    requires SentAgrees(word, cell.sent) && i < 32
    ensures CanForward(e, cell, i, ts) ==
            if !Before(ts, e.ts) then Some(false)
            else if word.None? then None
            else Some(!IsSet(word.value, i))
  {
    hide IsSet;
  }
}
