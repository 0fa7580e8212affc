/**
 * The two ends of a connection as the codec of lib/ctmp.c sees them, and its partial-read and
 * partial-write loops (lib/ctmp.c:34-110).
 *
 * What the kernel will deliver on a socket is a finite script of events.  Every behaviour of
 * `read` and `send` is some script: data arrives in arbitrary pieces, a call may be interrupted
 * at any point, and it may fail.
 */
module Wire {
  import opened Common

  const EINTR: nat := 4

  /** An error number other than EINTR. */
  type Errno = e: nat | e > 0 && e != EINTR witness 5

  // Reading.

  /** The bytes of one delivery; an empty one would be an end of stream. */
  type Piece = p: seq<byte> | p != [] witness [0]

  datatype ReadEvent = Chunk(bytes: Piece) | Interrupted | Failure(errno: Errno)

  /** The chunk-free content of a script: the bytes in order, with the failures between them. */
  datatype Item = Octet(b: byte) | Fault(errno: Errno)

  function Octets(bs: seq<byte>): (items: seq<Item>)
    ensures |items| == |bs|
    ensures forall i :: 0 <= i < |bs| ==> items[i] == Octet(bs[i])
  {
    seq(|bs|, i requires 0 <= i < |bs| => Octet(bs[i]))
  }

  /** Chunk boundaries and interrupts leave no trace in the content. */
  function Content(script: seq<ReadEvent>): seq<Item> {
    if script == [] then []
    else match script[0] {
      case Chunk(bs) => Octets(bs) + Content(script[1..])
      case Interrupted => Content(script[1..])
      case Failure(e) => [Fault(e)] + Content(script[1..])
    }
  }

  predicate AllOctets(items: seq<Item>) {
    forall i :: 0 <= i < |items| ==> items[i].Octet?
  }

  function Values(items: seq<Item>): (bs: seq<byte>)
    requires AllOctets(items)
    ensures |bs| == |items|
    ensures forall i :: 0 <= i < |bs| ==> bs[i] == items[i].b
  {
    seq(|items|, i requires 0 <= i < |items| => items[i].b)
  }

  /** Length of the longest run of octets at the front, cut at `len`. */
  function Lead(items: seq<Item>, len: nat): (k: nat)
    ensures k <= len && k <= |items| && AllOctets(items[..k])
    ensures k == len || k == |items| || items[k].Fault?
  {
    if len == 0 || items == [] || items[0].Fault? then 0
    else
      assert items[..1 + Lead(items[1..], len - 1)] == [items[0]] + items[1..][..Lead(items[1..], len - 1)];
      1 + Lead(items[1..], len - 1)
  }

  /** What one `read_msg` call returns, stores and leaves unread. */
  datatype ReadOutcome = ReadOutcome(code: int, got: seq<byte>, rest: seq<Item>)

  /**
   * `read_msg` as a function of the content alone.  It succeeds iff `len` is at least 1 and the
   * next `len` items are all octets; otherwise it has used up every octet before the end or the
   * failure, and the failure itself.
   */
  function ReadSpec(items: seq<Item>, len: nat): (o: ReadOutcome)
    ensures o.code == 0 <==> 0 < len <= |o.got|
    ensures o.code <= 0 && |o.got| <= len
    ensures |o.rest| <= |items| && o.rest == items[|items| - |o.rest|..]
    ensures items != [] && len > 0 ==> |o.rest| < |items|
  {
    var k := Lead(items, len);
    var got := Values(items[..k]);
    if len == 0 then ReadOutcome(-1, [], items)
    else if k == len then ReadOutcome(0, got, items[k..])
    else if k == |items| then ReadOutcome(-1, got, [])
    else ReadOutcome(0 - items[k].errno, got, items[k + 1..])
  }

  /** Taking part of the first chunk takes exactly those octets off the content. */
  lemma TakeFromChunk(bs: Piece, later: seq<ReadEvent>, r: nat)
    requires r <= |bs|
    ensures var left := if r == |bs| then later else [Chunk(bs[r..])] + later;
            Content([Chunk(bs)] + later) == Octets(bs[..r]) + Content(left)
  {
    var whole := [Chunk(bs)] + later;
    assert whole[1..] == later;
    assert Content(whole) == Octets(bs) + Content(later);
    if r < |bs| {
      var left := [Chunk(bs[r..])] + later;
      assert left[1..] == later;
      assert Octets(bs) == Octets(bs[..r]) + Octets(bs[r..]);
    } else {
      assert bs[..r] == bs;
    }
  }

  /** The readable side of a socket. */
  class Source {
    var script: seq<ReadEvent>

    constructor (script: seq<ReadEvent>)
      ensures this.script == script
    {
      this.script := script;
    }

    /** `read(fd, &buf[off], count)`, with `errno` when the result is negative. */
    method Read(buf: array<byte>, off: nat, count: nat) returns (r: int, errno: nat)
      requires off + count <= buf.Length
      modifies this, buf
      ensures r <= count && r <= |old(Content(script))|
      ensures count == 0 ==> r == 0
      ensures r == 0 ==> Content(script) == old(Content(script)) && (count == 0 || Content(script) == [])
      ensures r > 0 ==> Content(script) == old(Content(script))[r..]
                        && Octets(buf[off..off + r]) == old(Content(script))[..r]
      ensures r < 0 && errno == EINTR ==>
                Content(script) == old(Content(script)) && |script| < |old(script)|
      ensures r < 0 && errno != EINTR ==>
                errno > 0 && old(Content(script)) == [Fault(errno)] + Content(script)
      ensures forall i :: 0 <= i < buf.Length && !(off <= i < off + r) ==> buf[i] == old(buf[i])
    {
      if count == 0 || script == [] {
        return 0, 0;
      }
      var e, later := script[0], script[1..];
      match e {
        case Interrupted =>
          script := later;
          return -1, EINTR;
        case Failure(code) =>
          script := later;
          return -1, code;
        case Chunk(bs) =>
          r, errno := if count < |bs| then count else |bs|, 0;
          forall i | 0 <= i < r {
            buf[off + i] := bs[i];
          }
          assert buf[off..off + r] == bs[..r];
          TakeFromChunk(bs, later, r);
          script := if r == |bs| then later else [Chunk(bs[r..])] + later;
      }
    }
  }

  lemma {:induction false} LeadOf(got: seq<byte>, rest: seq<Item>, len: nat)
    requires |got| <= len
    requires |got| == len || rest == [] || rest[0].Fault?
    ensures Lead(Octets(got) + rest, len) == |got|
  {
    if got == [] {
    } else {
      assert (Octets(got) + rest)[1..] == Octets(got[1..]) + rest;
      LeadOf(got[1..], rest, len - 1);
    }
  }

  /** Reading the same content gives the same outcome, whatever the octets already stored. */
  lemma ReadSpecSplit(got: seq<byte>, rest: seq<Item>, len: nat)
    requires 0 < len && |got| <= len
    requires |got| == len || rest == [] || rest[0].Fault?
    ensures ReadSpec(Octets(got) + rest, len) ==
            if |got| == len then ReadOutcome(0, got, rest)
            else if rest == [] then ReadOutcome(-1, got, [])
            else ReadOutcome(0 - rest[0].errno, got, rest[1..])
  {
    var items := Octets(got) + rest;
    var k := Lead(items, len);
    LeadOf(got, rest, len);
    assert items[..k] == Octets(got);
    assert Values(items[..k]) == got;
    assert items[k..] == rest;
    if |got| < len && rest != [] {
      assert items[k + 1..] == rest[1..];
    }
  }

  lemma AppendRead(stored: seq<byte>, before: seq<Item>, piece: seq<byte>)
    requires |piece| <= |before| && Octets(piece) == before[..|piece|]
    ensures Octets(stored + piece) + before[|piece|..] == Octets(stored) + before
  {
    assert Octets(stored + piece) == Octets(stored) + Octets(piece);
  }

  /** One `read` of the loop: what is stored and what is unread stay together the same content. */
  method ReadMore(fd: Source, buf: array<byte>, total: nat, len: nat) returns (r: int, errno: nat)
    requires total <= len <= buf.Length
    modifies fd, buf
    ensures r <= len - total && (total == len ==> r == 0)
    ensures r >= 0 ==> Octets(buf[..total + r]) + Content(fd.script) == old(Octets(buf[..total]) + Content(fd.script))
    ensures r > 0 ==> |Content(fd.script)| < |old(Content(fd.script))|
    ensures r == 0 ==> total == len || Content(fd.script) == []
    ensures r < 0 ==> buf[..total] == old(buf[..total])
    ensures r < 0 && errno == EINTR ==>
              Content(fd.script) == old(Content(fd.script)) && |fd.script| < |old(fd.script)|
    ensures r < 0 && errno != EINTR ==>
              errno > 0 && old(Content(fd.script)) == [Fault(errno)] + Content(fd.script)
    ensures forall i :: len <= i < buf.Length ==> buf[i] == old(buf[i])
  {
    ghost var before, stored := Content(fd.script), buf[..total];
    r, errno := fd.Read(buf, total, len - total);
    assert buf[..total] == stored;
    if r > 0 {
      AppendRead(stored, before, buf[total..total + r]);
      assert buf[..total + r] == stored + buf[total..total + r];
    }
  }

  lemma ReadSpecEnd(got: seq<byte>, rest: seq<Item>, len: nat)
    requires |got| <= len && (|got| == len || rest == [])
    ensures var o := ReadSpec(Octets(got) + rest, len);
            o.got == got && o.rest == rest && o.code == if |got| == len > 0 then 0 else -1
  {
    if len > 0 {
      ReadSpecSplit(got, rest, len);
    } else {
      assert Octets(got) + rest == rest;
    }
  }

  /** `read_msg`: the loop agrees with ReadSpec for every script, so chunking and interrupts do not matter. */
  method ReadMsg(fd: Source, buf: array<byte>, len: nat) returns (res: int)
    requires len <= buf.Length
    modifies fd, buf
    ensures var o := ReadSpec(old(Content(fd.script)), len);
            && res == o.code
            && Content(fd.script) == o.rest
            && buf[..|o.got|] == o.got
    ensures forall i :: len <= i < buf.Length ==> buf[i] == old(buf[i])
  {
    hide ReadSpec;
    hide Content;
    ghost var items := Content(fd.script);
    var total := 0;
    assert Octets(buf[..total]) + Content(fd.script) == items;
    while true
      invariant 0 <= total <= len && (total < len || len == 0)
      invariant Octets(buf[..total]) + Content(fd.script) == items
      invariant forall i :: len <= i < buf.Length ==> buf[i] == old(buf[i])
      decreases |Content(fd.script)|, |fd.script|
    {
      ghost var before := Content(fd.script);
      var r, errno := ReadMore(fd, buf, total, len);
      if r < 0 {
        if errno != EINTR {
          ReadSpecSplit(buf[..total], before, len);
          return -(errno as int);
        }
      } else if r == 0 {
        break;
      } else {
        total := total + r;
      }
      if !(total < len) {
        break;
      }
    }
    ReadSpecEnd(buf[..total], Content(fd.script), len);
    if total == 0 {
      return -1;
    }
    if total == len {
      return 0;
    } else {
      return -1;
    }
  }

  // Writing.

  const EPIPE: nat := 32

  /** What the next `send` call does: takes up to `count` bytes, possibly none, is interrupted or fails. */
  datatype SendEvent = Takes(count: nat) | SendInterrupted | SendFailure(errno: Errno)

  /** What one `send_msg` call returns, how many bytes the peer got, and what is left of the script. */
  datatype SendOutcome = SendOutcome(code: int, taken: nat, rest: seq<SendEvent>)

  /** The outcome when `n` bytes went out before. */
  function After(n: nat, o: SendOutcome): SendOutcome {
    o.(taken := n + o.taken)
  }

  /** `send_msg` as a function of the script. */
  function SendSpec(script: seq<SendEvent>, len: nat): (o: SendOutcome)
    ensures o.code <= 0 && o.taken <= len
    ensures o.code == 0 ==> o.taken == len
    ensures o.taken == len > 0 ==> o.code == 0
  {
    if script == [] then SendOutcome(0 - EPIPE, 0, [])
    else
      var later := script[1..];
      match script[0] {
        case SendInterrupted => if len == 0 then SendOutcome(0, 0, later) else SendSpec(later, len)
        case SendFailure(e) => SendOutcome(0 - e, 0, later)
        case Takes(n) =>
          if n >= len then SendOutcome(0, len, later)
          else if n == 0 then SendOutcome(-1, 0, later)
          else After(n, SendSpec(later, len - n))
      }
  }

  /** The event at which `send_msg` gave up, after `used` events, is the one its code reports. */
  predicate GaveUp(script: seq<SendEvent>, used: nat, code: int)
    requires used <= |script|
  {
    || (used == |script| && code == 0 - EPIPE)
    || (used > 0 && script[used - 1].SendFailure? && code == 0 - script[used - 1].errno)
    || (used > 0 && script[used - 1] == Takes(0) && code == -1)
  }

  /** The rest is what follows the events used, and a negative code reports the last of them. */
  lemma {:induction false} SendReportsLastEvent(script: seq<SendEvent>, len: nat)
    ensures var o := SendSpec(script, len);
            && |o.rest| <= |script| && o.rest == script[|script| - |o.rest|..]
            && (o.code < 0 ==> GaveUp(script, |script| - |o.rest|, o.code))
  {
    if script == [] {
    } else if script[0].SendInterrupted? && len > 0 {
      SendReportsLastEvent(script[1..], len);
    } else if script[0].Takes? && 0 < script[0].count < len {
      SendReportsLastEvent(script[1..], len - script[0].count);
    }
  }

  /** The bytes the peer would take of an endless message: all it takes before the first event that ends a call. */
  function Willing(script: seq<SendEvent>): nat {
    if script == [] || script[0].SendFailure? || script[0] == Takes(0) then 0
    else (if script[0].Takes? then script[0].count else 0) + Willing(script[1..])
  }

  /** The peer gets as much as it is willing to take, and the call succeeds iff that is everything. */
  lemma {:induction false} SentIffWilling(script: seq<SendEvent>, len: nat)
    requires len > 0
    ensures SendSpec(script, len).taken == if Willing(script) < len then Willing(script) else len
    ensures SendSpec(script, len).code == 0 <==> Willing(script) >= len
  {
    if script == [] {
    } else if script[0].SendInterrupted? {
      SentIffWilling(script[1..], len);
    } else if script[0].Takes? && 0 < script[0].count < len {
      SentIffWilling(script[1..], len - script[0].count);
    }
  }

  /** The writable side of a socket: the bytes the peer gets, and the script; past its end the peer is gone. */
  class Sink {
    var out: seq<byte>
    var script: seq<SendEvent>

    constructor (script: seq<SendEvent>)
      ensures out == [] && this.script == script
    {
      this.out, this.script := [], script;
    }

    /** `send(fd, &buf[off], count, MSG_NOSIGNAL)`, with `errno` when the result is negative. */
    method Send(buf: array<byte>, off: nat, count: nat) returns (r: int, errno: nat)
      requires off + count <= buf.Length
      modifies this
      ensures r <= count
      ensures out == if r < 0 then old(out) else old(out) + buf[off..off + r]
      ensures old(script) == [] ==> script == [] && r < 0 && errno == EPIPE
      ensures old(script) != [] ==>
                && script == old(script)[1..]
                && match old(script)[0] {
                     case Takes(n) => r == if count < n then count else n
                     case SendInterrupted => r < 0 && errno == EINTR
                     case SendFailure(e) => r < 0 && errno == e
                   }
    {
      r, errno := -1, EPIPE;
      if script != [] {
        var e := script[0];
        script := script[1..];
        match e {
          case Takes(n) =>
            r, errno := if count < n then count else n, 0;
            out := out + buf[off..off + r];
          case SendInterrupted => errno := EINTR;
          case SendFailure(code) => errno := code;
        }
      }
    }
  }

  lemma SliceGrows(sent: seq<byte>, bs: seq<byte>, lo: nat, hi: nat)
    requires lo <= hi <= |bs|
    ensures sent + bs[..lo] + bs[lo..hi] == sent + bs[..hi]
  {
  }

  /** One `send` of the loop, with `count` bytes to go: what it settles of the outcome, and what is left to settle. */
  method SendMore(fd: Sink, buf: array<byte>, off: nat, count: nat) returns (r: int, errno: nat)
    requires off + count <= buf.Length
    modifies fd
    ensures r <= count && (r >= 0 ==> fd.out == old(fd.out) + buf[off..off + r])
    ensures r < 0 ==> fd.out == old(fd.out)
    ensures var o := SendSpec(old(fd.script), count);
            if r < 0 && errno != EINTR then o == SendOutcome(0 - errno, 0, fd.script)
            else if r == 0 then o == SendOutcome(if count == 0 then 0 else -1, 0, fd.script)
            else
              && |fd.script| < |old(fd.script)|
              && var n := if r < 0 then 0 else r;
                 if n == count then o == SendOutcome(0, n, fd.script)
                 else o == After(n, SendSpec(fd.script, count - n))
  {
    r, errno := fd.Send(buf, off, count);
  }

  /**
   * `send_msg`: for every script the result, the bytes the peer gets and the rest of the script are
   * those of SendSpec; the peer always gets a prefix of the buffer.
   */
  method SendMsg(fd: Sink, buf: array<byte>, len: nat) returns (res: int)
    requires len <= buf.Length
    modifies fd
    ensures var o := SendSpec(old(fd.script), len);
            res == o.code && fd.out == old(fd.out) + buf[..o.taken] && fd.script == o.rest
  {
    hide SendSpec;
    ghost var o, sent := SendSpec(fd.script, len), fd.out;
    var total := 0;
    while true
      invariant 0 <= total <= len && (total < len || len == 0)
      invariant fd.out == sent + buf[..len][..total]
      invariant o == After(total, SendSpec(fd.script, len - total))
      decreases |fd.script|
    {
      var r, errno := SendMore(fd, buf, total, len - total);
      assert buf[total..total + if r < 0 then 0 else r] == buf[..len][total..total + if r < 0 then 0 else r];
      if r < 0 {
        if errno != EINTR {
          return -(errno as int);
        }
      } else if r == 0 {
        break;
      } else {
        SliceGrows(sent, buf[..len], total, total + r);
        total := total + r;
      }
      if !(total < len) {
        break;
      }
    }
    if total == len {
      return 0;
    } else {
      return -1;
    }
  }
}
