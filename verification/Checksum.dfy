/**
 * The CTMP checksum of lib/ctmp.c:304-347, on a little-endian host with a 64-bit `long`, and the
 * Internet checksum it has to agree with: the one's complement sum of network-order words of
 * RFC 1071, sections 1 and 2.
 */
module Checksum {
  import opened Common

  const HEADER_LENGTH: nat := 8
  const MAGIC: byte := 0xcc
  const CHECKSUM_OFFSET: nat := 4

  type Header = h: seq<byte> | |h| == HEADER_LENGTH witness [0, 0, 0, 0, 0, 0, 0, 0]

  /** The header with its checksum field filled with magic bytes. */
  function Filled(h: Header): (f: Header) {
    h[CHECKSUM_OFFSET := MAGIC][CHECKSUM_OFFSET + 1 := MAGIC]
  }

  // The code's sum: little-endian words, a leftover byte added as it is, carries deferred.

  function WordSum(bs: seq<byte>): nat {
    if |bs| == 0 then 0
    else if |bs| == 1 then bs[0]
    else Le16(bs[0], bs[1]) + WordSum(bs[2..])
  }

  /** The folding loop. */
  function Fold(sum: nat): (r: nat)
    ensures r < 65536
  {
    if sum < 65536 then sum else Fold(sum % 65536 + sum / 65536)
  }

  /** The value `calc_checksum` returns for a header and its data. */
  function HostChecksum(h: Header, data: seq<byte>): nat {
    65535 - Fold(WordSum(Filled(h)) + WordSum(data))
  }

  // The reference: 16-bit addition with end-around carry over network-order words.

  function OnesAdd(x: nat, y: nat): (r: nat)
    requires x < 65536 && y < 65536
    ensures r < 65536
  {
    if x + y >= 65536 then x + y - 65535 else x + y
  }

  /** One's complement sum of the words of `bs`, which is padded with a zero byte when odd. */
  function OnesSum(bs: seq<byte>): (r: nat)
    ensures r < 65536
  {
    if |bs| == 0 then 0
    else if |bs| == 1 then Be16(bs[0], 0)
    else OnesAdd(Be16(bs[0], bs[1]), OnesSum(bs[2..]))
  }

  /** The checksum the protocol prescribes. */
  function RfcChecksum(h: Header, data: seq<byte>): nat {
    65535 - OnesSum(Filled(h) + data)
  }

  // The loops of calc_checksum, one method per loop.

  method AddHeaderWords(header: array<byte>) returns (sum: nat)
    requires header.Length == HEADER_LENGTH
    ensures sum == WordSum(header[..])
  {
    ghost var all := header[..];
    sum := 0;
    var i := 0;
    while i < HEADER_LENGTH
      invariant 0 <= i <= HEADER_LENGTH && i % 2 == 0
      invariant sum + WordSum(all[i..]) == WordSum(all)
    {
      assert all[i..][2..] == all[i + 2..];
      sum := sum + Le16(header[i], header[i + 1]);
      i := i + 2;
    }
  }

  method AddDataWords(data: array<byte>, len: nat, start: nat) returns (sum: nat)
    requires len <= data.Length
    ensures sum == start + WordSum(data[..len])
  {
    ghost var all := data[..len];
    sum := start;
    var count, j := len, 0;
    while count > 1
      invariant count + j == len
      invariant sum + WordSum(all[j..]) == start + WordSum(all)
    {
      assert all[j..][2..] == all[j + 2..];
      sum := sum + Le16(data[j], data[j + 1]);
      count, j := count - 2, j + 2;
    }
    if count > 0 {
      sum := sum + data[j];
    }
  }

  method FoldCarries(raw: nat) returns (sum: nat)
    ensures sum == Fold(raw) && sum < 65536
  {
    sum := raw;
    while sum >= 65536
      invariant Fold(sum) == Fold(raw)
    {
      sum := sum % 65536 + sum / 65536;
    }
  }

  // Arithmetic modulo 65535, with the multiple written out.

  /** How often 65535 has to be subtracted from 256 times the code's sum to reach the reference sum. */
  ghost function Carries(bs: seq<byte>): int {
    if |bs| <= 1 then 0
    else
      bs[1] + Carries(bs[2..])
      + (if Be16(bs[0], bs[1]) + OnesSum(bs[2..]) >= 65536 then 1 else 0)
  }

  /** Deferred carries and swapped bytes only change the sum by a multiple of 65535. */
  lemma {:induction false} SumsCongruent(bs: seq<byte>)
    ensures 256 * WordSum(bs) == OnesSum(bs) + 65535 * Carries(bs)
    ensures WordSum(bs) == 0 <==> OnesSum(bs) == 0
  {
    if |bs| <= 1 {
    } else {
      SumsCongruent(bs[2..]);
    }
  }

  ghost function FoldCount(sum: nat): nat {
    if sum < 65536 then 0 else sum / 65536 + FoldCount(sum % 65536 + sum / 65536)
  }

  /** Folding preserves the value modulo 65535 and whether it is zero. */
  lemma {:induction false} FoldCongruent(sum: nat)
    ensures sum == Fold(sum) + 65535 * FoldCount(sum)
    ensures sum == 0 <==> Fold(sum) == 0
  {
    if sum < 65536 {
    } else {
      FoldCongruent(sum % 65536 + sum / 65536);
    }
  }

  /** Among 1..65535, values congruent modulo 65535 are equal. */
  lemma CongruentResiduesEqual(x: nat, y: nat, k: int)
    requires 0 < x < 65536 && 0 < y < 65536 && x == y + 65535 * k
    ensures x == y
  {
  }

  lemma {:induction false} WordSumAppend(xs: seq<byte>, ys: seq<byte>)
    requires |xs| % 2 == 0
    ensures WordSum(xs + ys) == WordSum(xs) + WordSum(ys)
  {
    if xs == [] {
      assert xs + ys == ys;
    } else {
      assert (xs + ys)[2..] == xs[2..] + ys;
      WordSumAppend(xs[2..], ys);
    }
  }

  lemma FilledSumPositive(h: Header, data: seq<byte>)
    ensures WordSum(Filled(h)) + WordSum(data) > 0
  {
    var f := Filled(h);
    assert f[4] == MAGIC;
    assert f == f[..4] + f[4..];
    WordSumAppend(f[..4], f[4..]);
    assert WordSum(f[4..]) >= Le16(f[4..][0], f[4..][1]);
  }

  /** Swapping bytes multiplies by 256 modulo 65535. */
  lemma SwapResidue(w: nat)
    requires w < 65536
    ensures Swap16(w) == 256 * w - 65535 * (w / 256)
    ensures w > 0 ==> Swap16(w) > 0
  {
  }

  lemma SwappedSumsEqual(raw: nat, folded: nat, folds: nat, ones: nat, carries: int)
    requires 0 < folded < 65536 && ones < 65536 && (ones == 0 <==> raw == 0)
    requires 256 * raw == ones + 65535 * carries && raw == folded + 65535 * folds
    ensures Swap16(folded) == ones
  {
    SwapResidue(folded);
    CongruentResiduesEqual(Swap16(folded), ones, carries - 256 * folds - folded / 256);
  }

  /**
   * Byte-order theorem: the folded little-endian sum with its bytes swapped is the network-order
   * one's complement sum, for every header and every data length including odd ones.
   */
  lemma HostChecksumIsSwappedRfc(h: Header, data: seq<byte>)
    ensures Swap16(HostChecksum(h, data)) == RfcChecksum(h, data)
    ensures HostChecksum(h, data) < 65535
  {
    hide Filled;
    hide WordSum;
    hide OnesSum;
    hide Fold;
    hide FoldCount;
    hide Carries;
    var all, raw := Filled(h) + data, WordSum(Filled(h)) + WordSum(data);
    WordSumAppend(Filled(h), data);
    FilledSumPositive(h, data);
    SumsCongruent(all);
    FoldCongruent(raw);
    SwapResidue(Fold(raw));
    SwappedSumsEqual(raw, Fold(raw), FoldCount(raw), OnesSum(all), Carries(all));
    SwapIsInvolution(Fold(raw));
  }

  /** The returned checksum, stored low byte first, is the network-order checksum of the protocol. */
  method CalcChecksum(header: array<byte>, data: array<byte>, len: nat) returns (checksum: nat)
    requires header.Length == HEADER_LENGTH
    requires len <= data.Length && len < 65536
    ensures checksum == HostChecksum(header[..], data[..len])
    ensures checksum < 65535 && Swap16(checksum) == RfcChecksum(header[..], data[..len])
  {
    var copy := new byte[HEADER_LENGTH](i requires 0 <= i < header.Length reads header => header[i]);
    assert copy[..] == header[..];
    copy[CHECKSUM_OFFSET] := MAGIC;
    copy[CHECKSUM_OFFSET + 1] := MAGIC;
    assert copy[..] == Filled(header[..]);

    var sum := AddHeaderWords(copy);
    sum := AddDataWords(data, len, sum);
    sum := FoldCarries(sum);
    checksum := 65535 - sum;
    HostChecksumIsSwappedRfc(header[..], data[..len]);
  }

  /** The comparison of lib/ctmp.c:409-413: the little-endian-read field against `calc_checksum`. */
  predicate FieldMatches(h: Header, data: seq<byte>) {
    Le16(h[CHECKSUM_OFFSET], h[CHECKSUM_OFFSET + 1]) == HostChecksum(h, data)
  }

  /** The code accepts the field exactly when it holds, in network order, the checksum of RFC 1071. */
  lemma FieldMatchesIffRfc(h: Header, data: seq<byte>)
    ensures FieldMatches(h, data) <==> Be16(h[CHECKSUM_OFFSET], h[CHECKSUM_OFFSET + 1]) == RfcChecksum(h, data)
  {
    var field := Le16(h[CHECKSUM_OFFSET], h[CHECKSUM_OFFSET + 1]);
    SwapExchangesOrders(h[CHECKSUM_OFFSET], h[CHECKSUM_OFFSET + 1]);
    HostChecksumIsSwappedRfc(h, data);
    SwapIsInvolution(field);
    SwapIsInvolution(HostChecksum(h, data));
  }

  // Bounds.

  lemma {:induction false} WordSumBound(bs: seq<byte>)
    ensures WordSum(bs) <= 65535 * (|bs| / 2) + 255 * (|bs| % 2)
  {
    if |bs| <= 1 {
    } else {
      WordSumBound(bs[2..]);
    }
  }

  lemma FilledSumBound(h: Header)
    ensures WordSum(Filled(h)) <= 3 * 65535 + 52428
  {
    var f := Filled(h);
    assert f == f[..4] + f[4..];
    WordSumAppend(f[..4], f[4..]);
    WordSumBound(f[..4]);
    var g := f[4..];
    assert g[0] == MAGIC && g[1] == MAGIC;
    WordSumBound(g[2..]);
  }

  lemma TwoFoldsSuffice(raw: nat)
    requires raw <= 2147647740
    ensures var once := raw % 65536 + raw / 65536;
            once % 65536 + once / 65536 < 65536
  {
    var once := raw % 65536 + raw / 65536;
    assert raw / 65536 <= 32770;
    assert once <= 98305;
  }

  /** The raw sum of any message fits the 64-bit accumulator, and the loop folds at most twice. */
  lemma RawSumBound(h: Header, data: seq<byte>)
    requires |data| < 65536
    ensures WordSum(Filled(h)) + WordSum(data) <= 2147634633
    ensures var raw := WordSum(Filled(h)) + WordSum(data);
            var once := raw % 65536 + raw / 65536;
            once % 65536 + once / 65536 < 65536
  {
    hide WordSum;
    hide Filled;
    FilledSumBound(h);
    WordSumBound(data);
    TwoFoldsSuffice(WordSum(Filled(h)) + WordSum(data));
  }

  lemma {:induction false} AllOnesSum(data: seq<byte>)
    requires forall i :: 0 <= i < |data| ==> data[i] == 255
    ensures WordSum(data) == 65535 * (|data| / 2) + 255 * (|data| % 2)
  {
    if |data| <= 1 {
    } else {
      AllOnesSum(data[2..]);
    }
  }

  /** The bound of RawSumBound is reached, and it exceeds what a 32-bit `long` could hold. */
  lemma RawSumBoundReached(data: seq<byte>)
    requires |data| == 65535 && forall i :: 0 <= i < |data| ==> data[i] == 255
    ensures WordSum(Filled([255, 255, 255, 255, 0, 0, 255, 255])) + WordSum(data) == 2147634633
  {
    AllOnesSum(data);
    var f: seq<byte> := [255, 255, 255, 255, 204, 204, 255, 255];
    assert Filled([255, 255, 255, 255, 0, 0, 255, 255]) == f;
    assert f[2..] == [255, 255, 204, 204, 255, 255] && f[2..][2..] == [204, 204, 255, 255]
           && f[2..][2..][2..] == [255, 255];
    assert f[2..][2..][2..][2..] == [];
    assert WordSum(f) == 65535 + 65535 + 52428 + 65535;
  }

  // Sealing and detection.

  /** The header with the host checksum stored into its field, low byte first. */
  function Sealed(h: Header, data: seq<byte>): Header {
    var c := HostChecksum(h, data);
    h[CHECKSUM_OFFSET := c % 256][CHECKSUM_OFFSET + 1 := c / 256]
  }

  lemma SealedMatches(h: Header, data: seq<byte>)
    ensures FieldMatches(Sealed(h, data), data)
  {
    assert Filled(Sealed(h, data)) == Filled(h);
  }

  lemma PositiveResidues(x: nat, y: nat)
    requires 0 < x < 65536 && 0 < y < 65536
    ensures x == y <==> x % 65535 == y % 65535
  {
  }

  lemma ResidueOfMultiple(x: nat, k: nat)
    ensures (x + 65535 * k) % 65535 == x % 65535
  {
  }

  lemma FoldsEqualIffCongruent(x: nat, y: nat)
    requires x > 0 && y > 0
    ensures Fold(x) == Fold(y) <==> x % 65535 == y % 65535
  {
    FoldCongruent(x);
    FoldCongruent(y);
    ResidueOfMultiple(Fold(x), FoldCount(x));
    ResidueOfMultiple(Fold(y), FoldCount(y));
    PositiveResidues(Fold(x), Fold(y));
  }

  /**
   * Exactly which alterations go unnoticed: with the field kept, altered contents still match
   * iff the raw sums are congruent modulo 65535.
   */
  lemma UndetectedIffCongruent(h: Header, data: seq<byte>, h': Header, data': seq<byte>)
    requires FieldMatches(h, data)
    requires h'[CHECKSUM_OFFSET] == h[CHECKSUM_OFFSET] && h'[CHECKSUM_OFFSET + 1] == h[CHECKSUM_OFFSET + 1]
    ensures FieldMatches(h', data') <==>
            (WordSum(Filled(h')) + WordSum(data')) % 65535 == (WordSum(Filled(h)) + WordSum(data)) % 65535
  {
    FilledSumPositive(h, data);
    FilledSumPositive(h', data');
    FoldsEqualIffCongruent(WordSum(Filled(h)) + WordSum(data), WordSum(Filled(h')) + WordSum(data'));
  }

  /** The weight of position `i` in the little-endian sum. */
  function Weight(i: nat): nat {
    if i % 2 == 0 then 1 else 256
  }

  lemma {:induction false} WordSumUpdate(bs: seq<byte>, i: nat, b: byte)
    requires i < |bs|
    ensures WordSum(bs[i := b]) == WordSum(bs) + Weight(i) * (b - bs[i])
  {
    if i < 2 {
      if |bs| > 1 {
        assert bs[i := b][2..] == bs[2..];
      }
    } else {
      assert bs[i := b][2..] == bs[2..][i - 2 := b];
      WordSumUpdate(bs[2..], i - 2, b);
    }
  }

  /** A change of one byte changes the sum by less than 65535, hence modulo 65535. */
  lemma OneByteShiftsResidue(x: nat, y: nat, i: nat, delta: int)
    requires y == x + Weight(i) * delta
    requires delta != 0 && -255 <= delta <= 255
    ensures x % 65535 != y % 65535
  {
    var d := Weight(i) * delta;
    assert -65535 < d < 65535 && d != 0;
  }

  /** Any single changed data byte of a matching frame is detected. */
  lemma DataByteDetected(h: Header, data: seq<byte>, i: nat, b: byte)
    requires FieldMatches(h, data) && i < |data| && b != data[i]
    ensures !FieldMatches(h, data[i := b])
  {
    UndetectedIffCongruent(h, data, h, data[i := b]);
    WordSumUpdate(data, i, b);
    OneByteShiftsResidue(WordSum(Filled(h)) + WordSum(data), WordSum(Filled(h)) + WordSum(data[i := b]),
                         i, b - data[i]);
  }

  /** Any single changed header byte of a matching frame, the checksum field included, is detected. */
  lemma HeaderByteDetected(h: Header, data: seq<byte>, i: nat, b: byte)
    requires FieldMatches(h, data) && i < HEADER_LENGTH && b != h[i]
    ensures !FieldMatches(h[i := b], data)
  {
    var h' := h[i := b];
    if i == CHECKSUM_OFFSET || i == CHECKSUM_OFFSET + 1 {
      assert Filled(h') == Filled(h);
    } else {
      UndetectedIffCongruent(h, data, h', data);
      assert Filled(h') == Filled(h)[i := b];
      WordSumUpdate(Filled(h), i, b);
      OneByteShiftsResidue(WordSum(Filled(h)) + WordSum(data), WordSum(Filled(h')) + WordSum(data),
                           i, b - h[i]);
    }
  }
}
