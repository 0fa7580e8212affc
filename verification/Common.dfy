/** Shared by every module: optional values, bytes, 16-bit words and pieces of byte streams. */
module Common {
  datatype Option<+T> = None | Some(value: T)

  /** An `unsigned char`. */
  type byte = b: int | 0 <= b < 256

  /** The 16-bit word that a little-endian host reads from two consecutive bytes. */
  function Le16(first: byte, second: byte): (w: nat)
    ensures w < 65536
  {
    first + 256 * second
  }

  /** The 16-bit word in network order. */
  function Be16(first: byte, second: byte): (w: nat)
    ensures w < 65536
  {
    256 * first + second
  }

  /** `ntohs` on a little-endian host. */
  function Swap16(w: nat): (r: nat)
    requires w < 65536
    ensures r < 65536
  {
    (w % 256) * 256 + w / 256
  }

  /** Swapping the bytes of a little-endian word gives the network-order word, and back. */
  lemma SwapExchangesOrders(x: byte, y: byte)
    ensures Swap16(Le16(x, y)) == Be16(x, y)
    ensures Swap16(Be16(x, y)) == Le16(x, y)
  {
    assert (x + 256 * y) / 256 == y && (x + 256 * y) % 256 == x;
    assert (256 * x + y) / 256 == x && (256 * x + y) % 256 == y;
  }

  /** Swapping is a bijection and commutes with the 16-bit complement. */
  lemma SwapIsInvolution(w: nat)
    requires w < 65536
    ensures Swap16(Swap16(w)) == w
    ensures Swap16(65535 - w) == 65535 - Swap16(w)
  {
    var hi, lo := w / 256, w % 256;
    assert (256 * lo + hi) / 256 == lo && (256 * lo + hi) % 256 == hi;
    assert 65535 - w == 256 * (255 - hi) + (255 - lo);
    assert (65535 - w) / 256 == 255 - hi && (65535 - w) % 256 == 255 - lo;
  }

  /** Several pieces of bytes, one after the other. */
  function Flatten(pieces: seq<seq<byte>>): seq<byte> {
    if pieces == [] then [] else pieces[0] + Flatten(pieces[1..])
  }

  lemma {:induction false} FlattenSnoc(pieces: seq<seq<byte>>, last: seq<byte>)
    ensures Flatten(pieces + [last]) == Flatten(pieces) + last
  {
    if pieces == [] {
      assert Flatten([last]) == last;
    } else {
      assert (pieces + [last])[1..] == pieces[1..] + [last];
      FlattenSnoc(pieces[1..], last);
    }
  }
}
