/** Unsigned numbers as little-endian byte strings. */
module LittleEndian {

  type Byte = b: int | 0 <= b < 256

  function Power(n: nat): (p: nat)
    ensures p > 0
  {
    if n == 0 then 1 else 256 * Power(n - 1)
  }

  function Value(bytes: seq<Byte>): nat {
    if bytes == [] then 0 else bytes[0] + 256 * Value(bytes[1..])
  }

  function Bytes(n: nat, v: nat): (bytes: seq<Byte>)
    ensures |bytes| == n
  {
    if n == 0 then [] else [v % 256] + Bytes(n - 1, v / 256)
  }

  lemma {:induction false} ValueOfBytes(n: nat, v: nat)
    requires v < Power(n)
    ensures Value(Bytes(n, v)) == v
  {
    if n > 0 {
      ValueOfBytes(n - 1, v / 256);
      assert Bytes(n, v)[1..] == Bytes(n - 1, v / 256);
    }
  }

  lemma {:induction false} BytesOfValue(bytes: seq<Byte>)
    ensures Value(bytes) < Power(|bytes|) && Bytes(|bytes|, Value(bytes)) == bytes
  {
    if bytes != [] {
      BytesOfValue(bytes[1..]);
      assert Value(bytes) / 256 == Value(bytes[1..]) && Value(bytes) % 256 == bytes[0];
    }
  }

  lemma Widths()
    ensures Power(2) == 0x1_0000 && Power(4) == 0x1_0000_0000 && Power(8) == 0x1_0000_0000_0000_0000
  {
    assert Power(4) == 256 * 256 * Power(2);
    assert Power(8) == 256 * 256 * 256 * 256 * Power(4);
  }
}
