/** lib/ctmp.c: parsing and sending CTMP messages. */
module Ctmp {
  import opened Common
  import opened Checksum
  import opened Wire

  const OPTIONS_OFFSET: nat := 1
  const LENGTH_OFFSET: nat := 2
  const OPT_NORM: byte := 0x00
  const OPT_SEN: byte := 0x40
  const PADDING: bv8 := 0x00

  /** A whole message on the wire: eight header bytes, then the data. */
  type Frame = seq<byte>

  /** `set_msg_length`: the bytes are combined low byte first, then `ntohs` is applied. */
  function MsgLength(h: Header): (len: nat)
    ensures len < 65536
  {
    Swap16(Le16(h[LENGTH_OFFSET], h[LENGTH_OFFSET + 1]))
  }

  /** The length field is read in network order. */
  lemma LengthIsNetworkOrder(h: Header)
    ensures MsgLength(h) == Be16(h[LENGTH_OFFSET], h[LENGTH_OFFSET + 1])
  {
    SwapExchangesOrders(h[LENGTH_OFFSET], h[LENGTH_OFFSET + 1]);
  }

  /** The switch on the options byte (lib/ctmp.c:403-425); the base protocol has none. */
  predicate Admitted(extended: bool, h: Header, data: seq<byte>) {
    extended ==>
      if h[OPTIONS_OFFSET] == OPT_NORM then true
      else if h[OPTIONS_OFFSET] == OPT_SEN then FieldMatches(h, data)
      else false
  }

  /** The result of one parser call: the accepted frame, if any, and what is left unread. */
  datatype Parsed = Parsed(frame: Option<Frame>, rest: seq<Item>)

  /** Both parsers as one function of the content of the stream. */
  function Parse(extended: bool, items: seq<Item>): (p: Parsed)
    ensures |p.rest| <= |items| && p.rest == items[|items| - |p.rest|..]
    ensures items != [] ==> |p.rest| < |items|
    ensures p.frame.Some? ==> |p.frame.value| > HEADER_LENGTH
  {
    var head := ReadSpec(items, HEADER_LENGTH);
    if head.code < 0 || head.got[0] != MAGIC then Parsed(None, head.rest)
    else
      var body := ReadSpec(head.rest, MsgLength(head.got));
      if body.code < 0 || !Admitted(extended, head.got, body.got) then Parsed(None, body.rest)
      else Parsed(Some(head.got + body.got), body.rest)
  }

  /**
   * `valid_padding`: every byte is masked with the padding value, which is zero, so the check
   * succeeds on every header; its callers only log the answer.
   */
  method ValidPadding(header: array<byte>, extended: bool) returns (ok: bool)
    requires header.Length == HEADER_LENGTH
    ensures ok
  {
    var start, end := 4, 7;
    if extended {
      start, end := 2, 3;
    } else if (header[OPTIONS_OFFSET] as bv8) & PADDING != 0 {
      return false;
    }
    for i := start to end + 1 {
      if (header[i] as bv8) & PADDING != 0 {
        return false;
      }
    }
    return true;
  }

  /** `read_ctmp_header`. */
  method ReadHeader(fd: Source) returns (header: array<byte>, res: int)
    modifies fd
    ensures fresh(header) && header.Length == HEADER_LENGTH
    ensures var o := ReadSpec(old(Content(fd.script)), HEADER_LENGTH);
            res == o.code && Content(fd.script) == o.rest && (res == 0 ==> header[..] == o.got)
  {
    header := new byte[HEADER_LENGTH];
    res := ReadMsg(fd, header, HEADER_LENGTH);
    assert header[..HEADER_LENGTH] == header[..];
  }

  /** `read_ctmp_data`: the buffer has room for a final NUL. */
  method ReadData(fd: Source, len: nat) returns (data: array<byte>, res: int)
    modifies fd
    ensures fresh(data) && data.Length == len + 1 && data[len] == 0
    ensures var o := ReadSpec(old(Content(fd.script)), len);
            res == o.code && Content(fd.script) == o.rest && (res == 0 ==> data[..len] == o.got)
  {
    data := new byte[len + 1];
    data[len] := 0;
    res := ReadMsg(fd, data, len);
  }

  /** The part of both parsers after the magic byte: padding, length and data. */
  method ReadBody(fd: Source, header: array<byte>, extended: bool) returns (data: array<byte>, len: nat, res: int)
    requires header.Length == HEADER_LENGTH
    modifies fd
    ensures fresh(data) && data.Length == len + 1
    ensures header[..] == old(header[..]) && len == MsgLength(old(header[..]))
    ensures var body := ReadSpec(old(Content(fd.script)), len);
            res == body.code && Content(fd.script) == body.rest && (res == 0 ==> data[..len] == body.got)
  {
    hide ReadSpec;
    hide Content;
    hide MsgLength;
    var _ := ValidPadding(header, extended);
    ghost var h := header[..];
    len := MsgLength(header[..]);
    data, res := ReadData(fd, len);
    assert header[..] == h;
  }

  /** The common front of both parsers: header, magic byte, padding, length and data. */
  method ReadFrame(fd: Source, extended: bool) returns (header: array<byte>, data: array<byte>, len: nat, res: int)
    modifies fd
    ensures header.Length == HEADER_LENGTH && len < 65536 && data.Length == len + 1
    ensures var head := ReadSpec(old(Content(fd.script)), HEADER_LENGTH);
            if head.code < 0 || head.got[0] != MAGIC then
              res < 0 && Content(fd.script) == head.rest
            else
              var body := ReadSpec(head.rest, MsgLength(head.got));
              && res == body.code
              && Content(fd.script) == body.rest
              && (res == 0 ==> header[..] == head.got && len == MsgLength(head.got) && data[..len] == body.got)
  {
    hide *;
    data, len := new byte[1], 0;
    ghost var head := ReadSpec(Content(fd.script), HEADER_LENGTH);
    header, res := ReadHeader(fd);
    if res < 0 {
      return;
    }
    assert header[..] == head.got && header[0] == head.got[0];
    if header[0] != MAGIC {
      res := -1;
      return;
    }
    data, len, res := ReadBody(fd, header, extended);
    assert header[..] == head.got;
  }

  /** `parse_ctmp_msg`: for every script the result depends on the content only. */
  method ParseCtmpMsg(fd: Source) returns (frame: Option<Frame>)
    modifies fd
    ensures frame == Parse(false, old(Content(fd.script))).frame
    ensures Content(fd.script) == Parse(false, old(Content(fd.script))).rest
  {
    var header, data, len, res := ReadFrame(fd, false);
    if res < 0 {
      return None;
    }
    return Some(header[..] + data[..len]);
  }

  /** The options switch: normal messages pass, sensitive ones need a matching checksum. */
  method CheckOptions(header: array<byte>, data: array<byte>, len: nat) returns (ok: bool)
    requires header.Length == HEADER_LENGTH && len <= data.Length && len < 65536
    ensures ok == Admitted(true, header[..], data[..len])
    ensures ok <==> header[OPTIONS_OFFSET] == OPT_NORM
                    || (header[OPTIONS_OFFSET] == OPT_SEN
                        && Be16(header[CHECKSUM_OFFSET], header[CHECKSUM_OFFSET + 1])
                           == RfcChecksum(header[..], data[..len]))
  {
    FieldMatchesIffRfc(header[..], data[..len]);
    if header[OPTIONS_OFFSET] == OPT_NORM {
      return true;
    } else if header[OPTIONS_OFFSET] == OPT_SEN {
      var found := Le16(header[CHECKSUM_OFFSET], header[CHECKSUM_OFFSET + 1]);
      var expected := CalcChecksum(header, data, len);
      return found == expected;
    } else {
      return false;
    }
  }

  /** `parse_ctmp_msg_extended`. */
  method ParseCtmpMsgExtended(fd: Source) returns (frame: Option<Frame>)
    modifies fd
    ensures frame == Parse(true, old(Content(fd.script))).frame
    ensures Content(fd.script) == Parse(true, old(Content(fd.script))).rest
  {
    var header, data, len, res := ReadFrame(fd, true);
    if res < 0 {
      return None;
    }
    var ok := CheckOptions(header, data, len);
    if !ok {
      return None;
    }
    return Some(header[..] + data[..len]);
  }

  /** `send_ctmp_msg` as a function of the script: the header, then the data unless the header failed. */
  function FrameSpec(script: seq<SendEvent>, len: nat): SendOutcome {
    var h := SendSpec(script, HEADER_LENGTH);
    if h.code < 0 then h
    else
      var d := SendSpec(h.rest, len);
      d.(taken := HEADER_LENGTH + d.taken)
  }

  /**
   * A frame with data is sent successfully iff all of it is taken; otherwise the code reports the
   * event that ended the send.
   */
  lemma FrameSentIffWhole(script: seq<SendEvent>, len: nat)
    ensures var o := FrameSpec(script, len);
            && o.code <= 0 && o.taken <= HEADER_LENGTH + len
            && (len > 0 ==> (o.code == 0 <==> o.taken == HEADER_LENGTH + len))
            && (o.code < 0 ==> |o.rest| <= |script| && GaveUp(script, |script| - |o.rest|, o.code))
  {
    hide SendSpec;
    var h := SendSpec(script, HEADER_LENGTH);
    SendReportsLastEvent(script, HEADER_LENGTH);
    SendReportsLastEvent(h.rest, len);
  }

  /** Bytes gone after a script when `left` of the header were still to be sent. */
  function Gone(script: seq<SendEvent>, left: nat, len: nat): nat {
    var h := SendSpec(script, left);
    if h.code < 0 then h.taken else left + SendSpec(h.rest, len).taken
  }

  lemma {:induction false} MoreEventsTakeMore(script: seq<SendEvent>, k: nat, len: nat)
    requires k < |script|
    ensures SendSpec(script[..k], len).taken <= SendSpec(script[..k + 1], len).taken
  {
    if k == 0 || script[0].SendFailure? {
    } else {
      assert script[..k][1..] == script[1..][..k - 1] && script[..k + 1][1..] == script[1..][..k];
      if script[0].SendInterrupted? {
        MoreEventsTakeMore(script[1..], k - 1, len);
      } else if 0 < script[0].count < len {
        MoreEventsTakeMore(script[1..], k - 1, len - script[0].count);
      }
    }
  }

  lemma NothingGone(left: nat, len: nat)
    requires left > 0
    ensures Gone([], left, len) == 0 && SendSpec([], len).taken == 0
  {
  }

  lemma GoneUnfold(script: seq<SendEvent>, left: nat, len: nat)
    requires script != [] && left > 0
    ensures Gone(script, left, len) ==
            match script[0] {
              case SendInterrupted => Gone(script[1..], left, len)
              case SendFailure(_) => 0
              case Takes(n) =>
                if n == 0 then 0
                else if n < left then n + Gone(script[1..], left - n, len)
                else left + SendSpec(script[1..], len).taken
            }
  {
  }

  lemma {:induction false} EventsApart(script: seq<SendEvent>, k: nat, left: nat, len: nat)
    requires k < |script| && left > 0
    ensures Gone(script[..k], left, len) <= Gone(script[..k + 1], left, len)
    ensures Gone(script[..k + 1], left, len) <= left || Gone(script[..k], left, len) >= left
  {
    hide SendSpec;
    var longer, shorter := script[..k + 1], script[..k];
    GoneUnfold(longer, left, len);
    if k == 0 {
      assert shorter == [] && longer[1..] == [];
      NothingGone(left, len);
      if script[0].Takes? && 0 < script[0].count < left {
        NothingGone(left - script[0].count, len);
      }
    } else {
      GoneUnfold(shorter, left, len);
      hide Gone;
      assert shorter[1..] == script[1..][..k - 1] && longer[1..] == script[1..][..k];
      if script[0].SendInterrupted? {
        EventsApart(script[1..], k - 1, left, len);
      } else if script[0].Takes? && 0 < script[0].count < left {
        EventsApart(script[1..], k - 1, left - script[0].count, len);
      } else {
        MoreEventsTakeMore(script[1..], k - 1, len);
      }
    }
  }

  /**
   * Header and data are sent by separate calls: in every script no single event takes bytes of
   * both.
   */
  lemma NoEventTakesBoth(script: seq<SendEvent>, k: nat, len: nat)
    requires k < |script|
    ensures var before, after := FrameSpec(script[..k], len).taken, FrameSpec(script[..k + 1], len).taken;
            before <= after && (after <= HEADER_LENGTH || before >= HEADER_LENGTH)
  {
    EventsApart(script, k, HEADER_LENGTH, len);
    hide SendSpec;
  }

  lemma FrameSlices(h: seq<byte>, data: seq<byte>, n: nat)
    requires n <= |h| + |data|
    ensures (h + data)[..n] == if n <= |h| then h[..n] else h + data[..n - |h|]
    ensures h[..|h|] == h
  {
  }

  /**
   * `send_ctmp_msg`: for every script the peer gets a prefix of the frame, and all of it when the
   * call succeeds; a failure with some data to send leaves the frame cut short.
   */
  method SendCtmpMsg(fd: Sink, header: array<byte>, data: array<byte>, len: nat) returns (res: int)
    requires header.Length == HEADER_LENGTH && len <= data.Length
    modifies fd
    ensures var o := FrameSpec(old(fd.script), len);
            && res == o.code && fd.script == o.rest
            && fd.out == old(fd.out) + (header[..] + data[..len])[..o.taken]
  {
    hide SendSpec;
    ghost var script, sent := fd.script, fd.out;
    res := SendMsg(fd, header, HEADER_LENGTH);
    FrameSlices(header[..], data[..len], SendSpec(script, HEADER_LENGTH).taken);
    if res >= 0 {
      ghost var d := SendSpec(fd.script, len);
      FrameSlices(header[..], data[..len], HEADER_LENGTH + d.taken);
      res := SendMsg(fd, data, len);
      assert data[..len][..d.taken] == data[..d.taken];
      assert sent + header[..] + data[..d.taken] == sent + (header[..] + data[..d.taken]);
    }
  }

  /** Everything a source connection makes the server accept, in order. */
  function Frames(extended: bool, items: seq<Item>): seq<Frame>
    decreases |items|
  {
    if items == [] then []
    else
      var p := Parse(extended, items);
      (if p.frame.Some? then [p.frame.value] else []) + Frames(extended, p.rest)
  }
}
