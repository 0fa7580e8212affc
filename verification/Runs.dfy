/** Runs in which one thread moves and all the others stand still. */
module Runs {
  import opened Common
  import opened Server

  datatype Actor = SourceActor | DstActor | CleanerActor | WorkerActor(index: nat)

  /** Whose action is it?  The clock is nobody's. */
  predicate By(a: Action, who: Actor) {
    match a {
      case Tick(_) => false
      case WorkerStep(i, _) => who == WorkerActor(i)
      case DstStep => who == DstActor
      case CleanerStep => who == CleanerActor
      case _ => who == SourceActor
    }
  }

  predicate AllBy(actions: seq<Action>, who: Actor) {
    forall k :: 0 <= k < |actions| ==> By(actions[k], who)
  }

  /** Thread `who` can take the server from `s` to `t` by steps of its own. */
  ghost predicate Leads(cfg: Config, s: State, who: Actor, t: State) {
    exists actions :: AllBy(actions, who) && ExecFrom(cfg, s, actions) == Some(t)
  }

  lemma LeadsNowhere(cfg: Config, s: State, who: Actor)
    ensures Leads(cfg, s, who, s)
  {
    assert AllBy([], who) && ExecFrom(cfg, s, []) == Some(s);
  }

  lemma {:induction false} ExecFromAppend(cfg: Config, s: State, xs: seq<Action>, ys: seq<Action>)
    requires ExecFrom(cfg, s, xs).Some?
    ensures ExecFrom(cfg, s, xs + ys) == ExecFrom(cfg, ExecFrom(cfg, s, xs).value, ys)
  {
    hide Step;
    hide Enabled;
    if ys == [] {
      assert xs + ys == xs;
    } else {
      var zs := xs + ys;
      assert zs[..|zs| - 1] == xs + ys[..|ys| - 1] && zs[|zs| - 1] == ys[|ys| - 1];
      ExecFromAppend(cfg, s, xs, ys[..|ys| - 1]);
    }
  }

  lemma ExecFromOne(cfg: Config, s: State, a: Action)
    requires Enabled(s, a)
    ensures ExecFrom(cfg, s, [a]) == Some(Step(cfg, s, a))
  {
    hide Step;
    hide Enabled;
    assert [a][..0] == [];
    assert ExecFrom(cfg, s, []) == Some(s);
  }

  lemma ExecFromCons(cfg: Config, s: State, a: Action, actions: seq<Action>)
    requires Enabled(s, a)
    ensures ExecFrom(cfg, s, [a] + actions) == ExecFrom(cfg, Step(cfg, s, a), actions)
  {
    hide Step;
    hide Enabled;
    ExecFromOne(cfg, s, a);
    hide ExecFrom;
    ExecFromAppend(cfg, s, [a], actions);
  }

  lemma LeadsThrough(cfg: Config, s: State, who: Actor, t: State, u: State)
    requires Leads(cfg, s, who, t) && Leads(cfg, t, who, u)
    ensures Leads(cfg, s, who, u)
  {
    var xs :| AllBy(xs, who) && ExecFrom(cfg, s, xs) == Some(t);
    var ys :| AllBy(ys, who) && ExecFrom(cfg, t, ys) == Some(u);
    hide ExecFrom;
    ExecFromAppend(cfg, s, xs, ys);
    assert AllBy(xs + ys, who);
  }

  /** One step. */
  lemma LeadsBy(cfg: Config, s: State, who: Actor, a: Action, t: State)
    requires Enabled(s, a) && By(a, who) && Step(cfg, s, a) == t
    ensures Leads(cfg, s, who, t)
  {
    hide Step;
    hide Enabled;
    ExecFromOne(cfg, s, a);
    hide ExecFrom;
    assert AllBy([a], who);
  }

  /** One more step. */
  lemma LeadsOn(cfg: Config, s: State, who: Actor, t: State, a: Action, u: State)
    requires Leads(cfg, s, who, t) && Enabled(t, a) && By(a, who) && Step(cfg, t, a) == u
    ensures Leads(cfg, s, who, u)
  {
    hide Leads;
    hide Step;
    hide Enabled;
    LeadsBy(cfg, t, who, a, u);
    LeadsThrough(cfg, s, who, t, u);
  }

  lemma LeadsReachable(cfg: Config, s: State, who: Actor, t: State)
    requires Reachable(cfg, s) && Leads(cfg, s, who, t)
    ensures Reachable(cfg, t)
  {
    hide Reachable;
    var actions :| AllBy(actions, who) && ExecFrom(cfg, s, actions) == Some(t);
    ExecFromReachable(cfg, s, actions);
  }
}
