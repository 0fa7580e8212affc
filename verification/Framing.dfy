/** What the parsers do to whole byte streams: acceptance, alignment, sealing and detection. */
module Framing {
  import opened Common
  import opened Checksum
  import opened Wire
  import opened Ctmp

  // An independent description of acceptance, on plain bytes and in network order.

  function BodyLength(bs: seq<byte>): nat
    requires |bs| >= 8
  {
    Be16(bs[2], bs[3])
  }

  predicate ChecksumHolds(bs: seq<byte>)
    requires |bs| >= 8 && 8 + BodyLength(bs) <= |bs|
  {
    Be16(bs[4], bs[5]) == RfcChecksum(bs[..8], bs[8..8 + BodyLength(bs)])
  }

  /** The stream starts with a message that must be forwarded. */
  predicate Acceptable(extended: bool, bs: seq<byte>) {
    && |bs| >= 8
    && bs[0] == 0xcc
    && 1 <= BodyLength(bs) <= |bs| - 8
    && (extended ==> bs[1] == 0x00 || (bs[1] == 0x40 && ChecksumHolds(bs)))
  }

  /** How many bytes one parser call uses up. */
  function Consumed(bs: seq<byte>): (n: nat)
    ensures n <= |bs|
  {
    if |bs| < 8 then |bs|
    else if bs[0] != 0xcc then 8
    else if 8 + BodyLength(bs) <= |bs| then 8 + BodyLength(bs)
    else |bs|
  }

  lemma AcceptableConsumes(extended: bool, bs: seq<byte>)
    requires Acceptable(extended, bs)
    ensures |bs| >= 8 && Consumed(bs) == 8 + BodyLength(bs)
  {
  }

  lemma ReadOctets(bs: seq<byte>, len: nat, tail: seq<Item>)
    requires len <= |bs| || tail == []
    ensures ReadSpec(Octets(bs) + tail, len) ==
            if len == 0 then ReadOutcome(-1, [], Octets(bs) + tail)
            else if len <= |bs| then ReadOutcome(0, bs[..len], Octets(bs[len..]) + tail)
            else ReadOutcome(-1, bs, [])
  {
    if 0 < len <= |bs| {
      assert Octets(bs) + tail == Octets(bs[..len]) + (Octets(bs[len..]) + tail);
      ReadSpecSplit(bs[..len], Octets(bs[len..]) + tail, len);
    } else if len > |bs| {
      ReadSpecSplit(bs, tail, len);
    }
  }

  lemma ShortNotAcceptable(extended: bool, bs: seq<byte>)
    requires |bs| < 8 || bs[0] != 0xcc
    ensures !Acceptable(extended, bs)
  {
  }

  /** The part of a parser call after a good magic byte. */
  lemma ParseBody(extended: bool, bs: seq<byte>, tail: seq<Item>)
    requires |bs| >= 8 && bs[0] == 0xcc && (8 + BodyLength(bs) <= |bs| || tail == [])
    ensures var body := ReadSpec(Octets(bs[8..]) + tail, MsgLength(bs[..8]));
            && body.rest == Octets(bs[Consumed(bs)..]) + tail
            && (Acceptable(extended, bs) <==> body.code >= 0 && Admitted(extended, bs[..8], body.got))
            && (body.code >= 0 ==> bs[..8] + body.got == bs[..Consumed(bs)])
  {
    hide ReadSpec;
    hide HostChecksum;
    hide RfcChecksum;
    hide FieldMatches;
    var h, n := bs[..8], BodyLength(bs);
    LengthIsNetworkOrder(h);
    ReadOctets(bs[8..], n, tail);
    if 0 < n <= |bs| - 8 {
      FieldMatchesIffRfc(h, bs[8..8 + n]);
      assert bs[8..][..n] == bs[8..8 + n] && bs[8..][n..] == bs[8 + n..];
    } else if n > 0 {
      assert Octets(bs[|bs|..]) + tail == [];
    }
  }

  /** One parser call on bytes followed by anything, as long as the call stops within the bytes. */
  lemma ParseOctets(extended: bool, bs: seq<byte>, tail: seq<Item>)
    requires tail == [] || (|bs| >= 8 && (bs[0] == 0xcc ==> 8 + BodyLength(bs) <= |bs|))
    ensures Parse(extended, Octets(bs) + tail) ==
            Parsed(if Acceptable(extended, bs) then Some(bs[..Consumed(bs)]) else None,
                   Octets(bs[Consumed(bs)..]) + tail)
  {
    hide ReadSpec;
    hide Acceptable;
    ReadOctets(bs, 8, tail);
    if |bs| < 8 {
      assert Octets(bs[|bs|..]) + tail == [];
      assert !Acceptable(extended, bs) by {
        ShortNotAcceptable(extended, bs);
      }
    } else if bs[0] != 0xcc {
      ShortNotAcceptable(extended, bs);
    } else {
      ParseBody(extended, bs, tail);
    }
  }

  lemma OctetsAppend(xs: seq<byte>, ys: seq<byte>)
    ensures Octets(xs + ys) == Octets(xs) + Octets(ys)
  {
  }

  /**
   * Exact acceptance: on any byte stream a parser call returns the leading frame iff it is
   * acceptable, and what it used up plus what is left is the input.
   */
  lemma ExactAcceptance(extended: bool, bs: seq<byte>)
    ensures Parse(extended, Octets(bs)).frame.Some? <==> Acceptable(extended, bs)
    ensures Acceptable(extended, bs) ==> Parse(extended, Octets(bs)).frame.value == bs[..8 + BodyLength(bs)]
    ensures Parse(extended, Octets(bs)).rest == Octets(bs[Consumed(bs)..])
    ensures Octets(bs) == Octets(bs[..Consumed(bs)]) + Parse(extended, Octets(bs)).rest
  {
    hide Parse;
    hide Acceptable;
    hide Consumed;
    var n := Consumed(bs);
    ParseOctets(extended, bs, []);
    assert Octets(bs) + [] == Octets(bs);
    assert Octets(bs[n..]) + [] == Octets(bs[n..]);
    if Acceptable(extended, bs) {
      AcceptableConsumes(extended, bs);
    }
    assert bs == bs[..n] + bs[n..];
    OctetsAppend(bs[..n], bs[n..]);
  }

  /** Two scripts with the same bytes and failures are indistinguishable, however they are cut and interrupted. */
  method SameContentSameParse(first: Source, second: Source, extended: bool)
    returns (a: Option<Frame>, b: Option<Frame>)
    requires first != second && Content(first.script) == Content(second.script)
    modifies first, second
    ensures a == b && Content(first.script) == Content(second.script)
  {
    if extended {
      a := ParseCtmpMsgExtended(first);
      b := ParseCtmpMsgExtended(second);
    } else {
      a := ParseCtmpMsg(first);
      b := ParseCtmpMsg(second);
    }
  }

  /** Padding never decides: bytes 4..7, and byte 1 in base mode, can be anything unless the frame is sensitive. */
  lemma PaddingIrrelevant(extended: bool, bs: seq<byte>, bs': seq<byte>)
    requires |bs| == |bs'|
    requires forall i :: 0 <= i < |bs| && !(4 <= i < 8) && i != 1 ==> bs[i] == bs'[i]
    requires extended && |bs| >= 8 ==> bs[1] == bs'[1] && bs[1] != 0x40
    ensures Acceptable(extended, bs) <==> Acceptable(extended, bs')
    ensures Consumed(bs) == Consumed(bs')
  {
  }

  // Alignment over a whole stream.

  lemma NoFramesInNothing(extended: bool)
    ensures Frames(extended, []) == []
  {
  }

  lemma ParseNothing(extended: bool)
    ensures Parse(extended, []) == Parsed(None, [])
  {
  }

  lemma FramesUnfold(extended: bool, items: seq<Item>)
    ensures var p := Parse(extended, items);
            Frames(extended, items) ==
            (if p.frame.Some? then [p.frame.value] else []) + Frames(extended, p.rest)
  {
    ParseNothing(extended);
    hide Parse;
  }

  /** A piece of stream that one parser call uses up exactly. */
  predicate Unit(u: seq<byte>) {
    && |u| >= 8
    && if u[0] == 0xcc then |u| == 8 + BodyLength(u) else |u| == 8
  }

  function AcceptedOf(extended: bool, us: seq<seq<byte>>): seq<Frame> {
    if us == [] then []
    else (if Acceptable(extended, us[0]) then [us[0]] else []) + AcceptedOf(extended, us[1..])
  }

  lemma ParseUnit(extended: bool, u: seq<byte>, tail: seq<Item>)
    requires Unit(u)
    ensures Parse(extended, Octets(u) + tail) == Parsed(if Acceptable(extended, u) then Some(u) else None, tail)
  {
    hide Parse;
    hide Acceptable;
    ParseOctets(extended, u, tail);
    assert u[..|u|] == u;
    assert Octets(u[|u|..]) + tail == tail;
  }

  lemma FramesOfUnit(extended: bool, u: seq<byte>, tail: seq<Item>)
    requires Unit(u)
    ensures Frames(extended, Octets(u) + tail) ==
            (if Acceptable(extended, u) then [u] else []) + Frames(extended, tail)
  {
    hide Parse;
    hide Acceptable;
    ParseUnit(extended, u, tail);
  }

  /**
   * Framing: over any list of units followed by anything, the parser stays aligned.  Rejected
   * frames, empty frames and 8-byte runs without the magic byte vanish; the accepted frames come
   * out unchanged and in order.
   */
  lemma {:induction false} FramesOfUnits(extended: bool, us: seq<seq<byte>>, tail: seq<Item>)
    requires forall u :: u in us ==> Unit(u)
    ensures Frames(extended, Octets(Flatten(us)) + tail) == AcceptedOf(extended, us) + Frames(extended, tail)
  {
    hide Parse;
    hide Acceptable;
    hide Unit;
    if us == [] {
      assert Octets(Flatten(us)) + tail == tail;
    } else {
      var u, more := us[0], Flatten(us[1..]);
      OctetsAppend(u, more);
      assert Octets(u + more) + tail == Octets(u) + (Octets(more) + tail);
      FramesOfUnit(extended, u, Octets(more) + tail);
      FramesOfUnits(extended, us[1..], tail);
    }
  }

  // Every stream is made of units.

  /** A piece of stream in the middle of which a parser call comes to the end. */
  predicate Incomplete(bs: seq<byte>) {
    |bs| < 8 || (bs[0] == 0xcc && |bs| < 8 + BodyLength(bs))
  }

  /** The units at the front of `bs`, as many as there are. */
  function Units(bs: seq<byte>): seq<seq<byte>> {
    if Incomplete(bs) then [] else [bs[..Consumed(bs)]] + Units(bs[Consumed(bs)..])
  }

  /** What is left of `bs` after its units. */
  function Remainder(bs: seq<byte>): (tail: seq<byte>)
    ensures Incomplete(tail)
  {
    if Incomplete(bs) then bs else Remainder(bs[Consumed(bs)..])
  }

  lemma FirstUnit(bs: seq<byte>)
    requires !Incomplete(bs)
    ensures 8 <= Consumed(bs) <= |bs| && Unit(bs[..Consumed(bs)])
  {
  }

  /** Every byte stream is a list of units and an incomplete rest. */
  lemma {:induction false} StreamIsUnits(bs: seq<byte>)
    ensures bs == Flatten(Units(bs)) + Remainder(bs)
    ensures forall u :: u in Units(bs) ==> Unit(u)
  {
    if Incomplete(bs) {
    } else {
      var n := Consumed(bs);
      FirstUnit(bs);
      StreamIsUnits(bs[n..]);
      hide Incomplete;
      hide Consumed;
      hide Unit;
      var us := Units(bs);
      assert us[1..] == Units(bs[n..]);
      assert bs == bs[..n] + bs[n..];
    }
  }

  lemma UnitLeads(u: seq<byte>, more: seq<byte>)
    requires Unit(u)
    ensures !Incomplete(u + more) && Consumed(u + more) == |u|
    ensures (u + more)[..|u|] == u && (u + more)[|u|..] == more
  {
  }

  /** There is only one way to cut a stream into units and an incomplete rest. */
  lemma {:induction false} UnitsAreUnique(us: seq<seq<byte>>, tail: seq<byte>)
    requires (forall u :: u in us ==> Unit(u)) && Incomplete(tail)
    ensures Units(Flatten(us) + tail) == us && Remainder(Flatten(us) + tail) == tail
  {
    hide Unit;
    hide Incomplete;
    hide Consumed;
    if us == [] {
      assert Flatten(us) + tail == tail;
    } else {
      var u, more := us[0], Flatten(us[1..]) + tail;
      assert Flatten(us) + tail == u + more;
      UnitLeads(u, more);
      UnitsAreUnique(us[1..], tail);
      assert us == [u] + us[1..];
    }
  }

  /** What follows the failure, or nothing, at which a run of bytes stops. */
  function Past(stop: seq<Item>): seq<Item> {
    if stop == [] then [] else stop[1..]
  }

  /** An incomplete rest yields nothing: it is used up together with the end or the failure that cuts it. */
  lemma ParseIncomplete(extended: bool, tail: seq<byte>, stop: seq<Item>)
    requires Incomplete(tail) && (stop == [] || stop[0].Fault?)
    ensures Parse(extended, Octets(tail) + stop) == Parsed(None, Past(stop))
  {
    hide ReadSpec;
    if |tail| < 8 {
      ReadSpecSplit(tail, stop, 8);
    } else {
      ReadOctets(tail, 8, stop);
      LengthIsNetworkOrder(tail[..8]);
      ReadSpecSplit(tail[8..], stop, BodyLength(tail));
    }
  }

  lemma FramesOfIncomplete(extended: bool, tail: seq<byte>, stop: seq<Item>)
    requires Incomplete(tail) && (stop == [] || stop[0].Fault?)
    ensures Frames(extended, Octets(tail) + stop) == Frames(extended, Past(stop))
  {
    hide Parse;
    hide Frames;
    hide Incomplete;
    FramesUnfold(extended, Octets(tail) + stop);
    ParseIncomplete(extended, tail, stop);
  }

  /** All that one run of bytes makes the server accept, whatever ends it. */
  lemma FramesOfRun(extended: bool, bs: seq<byte>, stop: seq<Item>)
    requires stop == [] || stop[0].Fault?
    ensures Frames(extended, Octets(bs) + stop) == AcceptedOf(extended, Units(bs)) + Frames(extended, Past(stop))
  {
    hide Frames;
    hide Incomplete;
    hide Consumed;
    hide Unit;
    hide AcceptedOf;
    var tail := Remainder(bs);
    StreamIsUnits(bs);
    OctetsAppend(Flatten(Units(bs)), tail);
    assert Octets(bs) + stop == Octets(Flatten(Units(bs))) + (Octets(tail) + stop);
    FramesOfUnits(extended, Units(bs), Octets(tail) + stop);
    FramesOfIncomplete(extended, tail, stop);
  }

  /** The units of a whole stream: a read failure only cuts a run of bytes short. */
  function UnitsIn(items: seq<Item>): seq<seq<byte>> {
    var k := Lead(items, |items|);
    Units(Values(items[..k])) + (if k == |items| then [] else UnitsIn(items[k + 1..]))
  }

  lemma {:induction false} AcceptedOfAppend(extended: bool, us: seq<seq<byte>>, more: seq<seq<byte>>)
    ensures AcceptedOf(extended, us + more) == AcceptedOf(extended, us) + AcceptedOf(extended, more)
  {
    hide Acceptable;
    if us == [] {
      assert us + more == more;
    } else {
      assert (us + more)[1..] == us[1..] + more;
      AcceptedOfAppend(extended, us[1..], more);
    }
  }

  /**
   * Framing, for every stream: whatever bytes and failures it consists of, what the server accepts
   * is exactly the acceptable units, in order.
   */
  lemma {:induction false} FramesOfStream(extended: bool, items: seq<Item>)
    ensures Frames(extended, items) == AcceptedOf(extended, UnitsIn(items))
    decreases |items|
  {
    hide Parse;
    hide Acceptable;
    var k := Lead(items, |items|);
    var bs, stop := Values(items[..k]), items[k..];
    assert items == Octets(bs) + stop;
    FramesOfRun(extended, bs, stop);
    if k == |items| {
      assert Units(bs) + [] == Units(bs);
    } else {
      FramesOfStream(extended, items[k + 1..]);
      assert Past(stop) == items[k + 1..];
      AcceptedOfAppend(extended, Units(bs), UnitsIn(items[k + 1..]));
    }
  }

  lemma {:induction false} NoneAccepted(extended: bool, us: seq<seq<byte>>)
    ensures AcceptedOf(extended, us) == [] <==> forall u :: u in us ==> !Acceptable(extended, u)
  {
    hide Acceptable;
    if us == [] {
    } else {
      NoneAccepted(extended, us[1..]);
      assert us == [us[0]] + us[1..];
    }
  }

  /** Whatever the bytes, every accepted frame is acceptable on its own and parses back to itself. */
  lemma AcceptedFrameReparses(extended: bool, bs: seq<byte>)
    requires Acceptable(extended, bs)
    ensures var f := bs[..8 + BodyLength(bs)];
            Unit(f) && Acceptable(extended, f) && Frames(extended, Octets(f)) == [f]
  {
    hide Parse;
    var n := BodyLength(bs);
    var f := bs[..8 + n];
    assert f[..8] == bs[..8] && f[8..8 + n] == bs[8..8 + n];
    FramesOfUnit(extended, f, []);
    assert Octets(f) + [] == Octets(f);
  }

  /** A bad magic byte costs exactly the 8 header bytes: parsing resumes inside the rejected message. */
  lemma BadMagicResumesInBody(extended: bool, bs: seq<byte>)
    requires |bs| >= 8 && bs[0] != 0xcc
    ensures Frames(extended, Octets(bs)) == Frames(extended, Octets(bs[8..]))
  {
    ExactAcceptance(extended, bs);
  }

  /** What is forwarded after a bad magic byte, exactly: the acceptable units of what follows the 8 bytes. */
  lemma AfterBadMagic(extended: bool, bs: seq<byte>)
    requires |bs| >= 8 && bs[0] != 0xcc
    ensures Frames(extended, Octets(bs)) == AcceptedOf(extended, Units(bs[8..]))
    ensures Frames(extended, Octets(bs)) == [] <==> forall u :: u in Units(bs[8..]) ==> !Acceptable(extended, u)
  {
    hide Frames;
    hide Acceptable;
    BadMagicResumesInBody(extended, bs);
    assert Octets(bs[8..]) + [] == Octets(bs[8..]);
    FramesOfRun(extended, bs[8..], []);
    NoFramesInNothing(extended);
    NoneAccepted(extended, Units(bs[8..]));
  }

  /**
   * So dropping a message for its magic byte does not drop its body: the body of a bad message
   * that is itself a frame is forwarded.
   */
  lemma BodyOfBadMessageForwarded(extended: bool, header: seq<byte>, inner: seq<byte>)
    requires |header| == 8 && header[0] != 0xcc && BodyLength(header) == |inner|
    requires Acceptable(extended, inner) && Unit(inner)
    ensures Frames(extended, Octets(header + inner)) == [inner]
  {
    hide Parse;
    BadMagicResumesInBody(extended, header + inner);
    assert (header + inner)[8..] == inner;
    FramesOfUnit(extended, inner, []);
    assert Octets(inner) + [] == Octets(inner);
  }

  // Sealing and detection.

  /** A complete sensitive message, whatever its checksum field holds. */
  predicate Sensitive(f: Frame) {
    |f| >= 9 && f[0] == 0xcc && f[1] == 0x40 && |f| == 8 + BodyLength(f)
  }

  function Seal(f: Frame): Frame
    requires Sensitive(f)
  {
    Sealed(f[..8], f[8..]) + f[8..]
  }

  lemma SensitiveAcceptedIffMatches(f: Frame)
    requires Sensitive(f)
    ensures Acceptable(true, f) <==> FieldMatches(f[..8], f[8..])
  {
    FieldMatchesIffRfc(f[..8], f[8..]);
    assert f[8..8 + BodyLength(f)] == f[8..];
  }

  /** Storing the result of `calc_checksum` into the field makes any sensitive frame accepted. */
  lemma SealedFrameAccepted(f: Frame)
    requires Sensitive(f)
    ensures Sensitive(Seal(f)) && Acceptable(true, Seal(f))
  {
    var s := Seal(f);
    SealedMatches(f[..8], f[8..]);
    assert s[..8] == Sealed(f[..8], f[8..]) && s[8..] == f[8..];
    SensitiveAcceptedIffMatches(s);
  }

  /**
   * Detection, exactly: after one changed byte outside the length field an accepted sensitive
   * frame is rejected, except when the change turns it into a normal message.
   */
  lemma OneChangedByteDetected(f: Frame, i: nat, b: byte)
    requires Sensitive(f) && Acceptable(true, f)
    requires i < |f| && b != f[i] && i != 2 && i != 3
    ensures Acceptable(true, f[i := b]) <==> i == 1 && b == 0x00
  {
    var g := f[i := b];
    assert BodyLength(g) == BodyLength(f);
    SensitiveAcceptedIffMatches(f);
    if i >= 2 {
      SensitiveAcceptedIffMatches(g);
      if i < 8 {
        HeaderByteDetected(f[..8], f[8..], i, b);
        assert g[..8] == f[..8][i := b] && g[8..] == f[8..];
      } else {
        DataByteDetected(f[..8], f[8..], i - 8, b);
        assert g[..8] == f[..8] && g[8..] == f[8..][i - 8 := b];
      }
    }
  }
}
