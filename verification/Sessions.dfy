/** What a session has examined, attempted and delivered, as functions of the queue alone. */
module Sessions {
  import opened Common
  import opened Timestamp
  import opened Server

  /** The entries in lo..hi that are newer than `ts`, in queue order. */
  function Newer(q: seq<Entry>, ts: Time, lo: nat, hi: nat): seq<nat>
    requires lo <= hi <= |q|
    decreases hi
  {
    if lo == hi then []
    else Newer(q, ts, lo, hi - 1) + (if Before(ts, q[hi - 1].ts) then [hi - 1] else [])
  }

  function Range(lo: nat, hi: nat): (r: seq<nat>)
    ensures |r| == if lo <= hi then hi - lo else 0
    ensures forall k :: 0 <= k < |r| ==> r[k] == lo + k
  {
    if lo <= hi then seq(hi - lo, k requires 0 <= k < hi - lo => lo + k) else []
  }

  function FrameAt(q: seq<Entry>, e: nat): Frame {
    if e < |q| then q[e].frame else []
  }

  /** The frames of a list of entries, one after the other. */
  function Flat(q: seq<Entry>, es: seq<nat>): seq<byte> {
    if es == [] then [] else Flat(q, es[..|es| - 1]) + FrameAt(q, es[|es| - 1])
  }

  /** What the client's socket has taken: whole frames of the attempts, the last one cut at `part`. */
  predicate OutOK(q: seq<Entry>, x: Session) {
    if x.part.None? then x.out == Flat(q, x.attempts)
    else
      && x.attempts != []
      && var last := |x.attempts| - 1;
         && x.part.value <= |FrameAt(q, x.attempts[last])|
         && x.out == Flat(q, x.attempts[..last]) + FrameAt(q, x.attempts[last])[..x.part.value]
  }

  predicate SessionOK(q: seq<Entry>, x: Session) {
    && x.start <= x.hi <= |q|
    && x.attempts == Newer(q, x.ts, x.start, x.hi)
    && OutOK(q, x)
  }

  lemma FlatLast(q: seq<Entry>, es: seq<nat>)
    requires es != []
    ensures Flat(q, es) == Flat(q, es[..|es| - 1]) + FrameAt(q, es[|es| - 1])
  {
  }

  // The functions only depend on the entries they mention.

  lemma {:induction false} NewerExtends(q: seq<Entry>, q': seq<Entry>, ts: Time, lo: nat, hi: nat)
    requires q <= q' && lo <= hi <= |q|
    ensures Newer(q', ts, lo, hi) == Newer(q, ts, lo, hi)
    decreases hi
  {
    if lo == hi {
    } else {
      NewerExtends(q, q', ts, lo, hi - 1);
    }
  }

  lemma {:induction false} FlatExtends(q: seq<Entry>, q': seq<Entry>, es: seq<nat>)
    requires q <= q' && forall k :: 0 <= k < |es| ==> es[k] < |q|
    ensures Flat(q', es) == Flat(q, es)
  {
    if es == [] {
    } else {
      FlatExtends(q, q', es[..|es| - 1]);
    }
  }

  /** Membership, both ways, and order. */
  lemma {:induction false} NewerMembers(q: seq<Entry>, ts: Time, lo: nat, hi: nat)
    requires lo <= hi <= |q|
    ensures forall e :: e in Newer(q, ts, lo, hi) <==> lo <= e < hi && Before(ts, q[e].ts)
    ensures forall j, k :: 0 <= j < k < |Newer(q, ts, lo, hi)| ==> Newer(q, ts, lo, hi)[j] < Newer(q, ts, lo, hi)[k]
    decreases hi
  {
    if lo == hi {
    } else {
      NewerMembers(q, ts, lo, hi - 1);
      var shorter := Newer(q, ts, lo, hi - 1);
      assert forall k :: 0 <= k < |shorter| ==> shorter[k] in shorter;
    }
  }

  lemma SessionExtends(q: seq<Entry>, q': seq<Entry>, x: Session)
    requires q <= q' && SessionOK(q, x)
    ensures SessionOK(q', x)
  {
    NewerExtends(q, q', x.ts, x.start, x.hi);
    NewerMembers(q, x.ts, x.start, x.hi);
    assert forall k :: 0 <= k < |x.attempts| ==> x.attempts[k] in x.attempts;
    FlatExtends(q, q', x.attempts);
    if x.attempts != [] {
      FlatExtends(q, q', x.attempts[..|x.attempts| - 1]);
    }
  }

  /** In timestamp order, the newer entries of an interval are its tail. */
  predicate InTimeOrder(q: seq<Entry>) {
    forall j, k :: 0 <= j <= k < |q| ==> NotAfter(q[j].ts, q[k].ts)
  }

  /** The first entry of lo..hi newer than `ts`, or `hi`. */
  function FirstNewer(q: seq<Entry>, ts: Time, lo: nat, hi: nat): (f: nat)
    requires lo <= hi <= |q|
    ensures lo <= f <= hi
    ensures forall e :: lo <= e < f ==> !Before(ts, q[e].ts)
    ensures f < hi ==> Before(ts, q[f].ts)
    decreases hi - lo
  {
    if lo == hi || Before(ts, q[lo].ts) then lo else FirstNewer(q, ts, lo + 1, hi)
  }

  lemma {:induction false} NewerIsBlock(q: seq<Entry>, ts: Time, lo: nat, hi: nat)
    requires lo <= hi <= |q| && InTimeOrder(q)
    ensures Newer(q, ts, lo, hi) == Range(FirstNewer(q, ts, lo, hi), hi)
    decreases hi
  {
    if lo == hi {
    } else {
      var f := FirstNewer(q, ts, lo, hi);
      NewerIsBlock(q, ts, lo, hi - 1);
      var f' := FirstNewer(q, ts, lo, hi - 1);
      if f' < hi - 1 {
        assert NotAfter(q[f'].ts, q[hi - 1].ts);
        assert f == f';
      } else {
        assert f == if Before(ts, q[hi - 1].ts) then hi - 1 else hi;
      }
      assert Range(f, hi) == Range(f, hi - 1) + (if f < hi then [hi - 1] else []);
    }
  }
}
