/** Bytes, fixed-width big-endian integers, and the inverse parser for them. */
module Bytes {
  import opened Wrappers

  type Byte = b: int | 0 <= b < 256

  type Octets = seq<Byte>

  /** The bytes of an ASCII literal such as a domain separator. */
  function Ascii(text: string): (bytes: Octets)
    ensures |bytes| == |text|
    ensures forall i :: 0 <= i < |text| ==> bytes[i] == text[i] as int % 256
  {
    seq(|text|, i requires 0 <= i < |text| => text[i] as int % 256)
  }

  /** Literals that differ at a place are told apart. */
  lemma TellsApart(a: string, b: string, k: nat)
    requires k < |a| && k < |b| && a[k] != b[k] && a[k] < 128 as char && b[k] < 128 as char
    ensures Ascii(a) != Ascii(b)
  {
    assert Ascii(a)[k] != Ascii(b)[k];
  }

  function Pow256(n: nat): (p: nat)
    ensures 1 <= p
  {
    if n == 0 then 1 else 256 * Pow256(n - 1)
  }

  lemma {:induction false} PowersAdd(a: nat, b: nat)
    ensures Pow256(a + b) == Pow256(a) * Pow256(b)
  {
    if a != 0 {
      PowersAdd(a - 1, b);
    }
  }

  /** `to_be_bytes` at the given width; a larger value loses its high bytes, as a cast does. */
  function BigEndian(width: nat, value: nat): (bytes: Octets)
    ensures |bytes| == width
  {
    if width == 0 then [] else BigEndian(width - 1, value / 256) + [value % 256]
  }

  function FromBigEndian(bytes: Octets): nat {
    if bytes == [] then 0
    else 256 * FromBigEndian(bytes[..|bytes| - 1]) + bytes[|bytes| - 1]
  }

  /** Writing and reading a fixed-width integer is the identity on everything that fits. */
  lemma {:induction false} BigEndianRoundTrip(width: nat, value: nat)
    requires value < Pow256(width)
    ensures FromBigEndian(BigEndian(width, value)) == value
  {
    if width != 0 {
      BigEndianRoundTrip(width - 1, value / 256);
      var bytes := BigEndian(width, value);
      assert bytes[..width - 1] == BigEndian(width - 1, value / 256);
    }
  }

  /** Reads a fixed-width integer off the front of `input`. */
  function TakeInt(width: nat, input: Octets): Option<(nat, Octets)> {
    if |input| < width then None else Some((FromBigEndian(input[..width]), input[width..]))
  }

  /** Reads `count` raw bytes off the front of `input`. */
  function TakeBytes(count: nat, input: Octets): Option<(Octets, Octets)> {
    if |input| < count then None else Some((input[..count], input[count..]))
  }

  lemma TakeIntInverts(width: nat, value: nat, rest: Octets)
    requires value < Pow256(width)
    ensures TakeInt(width, BigEndian(width, value) + rest) == Some((value, rest))
  {
    BigEndianRoundTrip(width, value);
    var input := BigEndian(width, value) + rest;
    assert input[..width] == BigEndian(width, value);
    assert input[width..] == rest;
  }

  lemma TakeBytesInverts(value: Octets, rest: Octets)
    ensures TakeBytes(|value|, value + rest) == Some((value, rest))
  {
    assert (value + rest)[..|value|] == value;
    assert (value + rest)[|value|..] == rest;
  }
}
