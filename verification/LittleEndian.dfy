// Numbers as bytes, lowest byte first, which is how the file formats store them, and
// text as bytes.
module LittleEndian {
  import opened Sequences
  import opened Words

  function NatOf(b: byte): nat { b as nat }

  function ByteOf(v: nat): byte
    requires v < 256
  {
    v as byte
  }

  lemma NatOfByte(v: nat)
    requires v < 256
    ensures NatOf(ByteOf(v)) == v
  {
    Cast(v);
  }

  // The solver tells the bits of a number below a power of two more easily.
  lemma Cast(v: int)
    requires 0 <= v < 256
    ensures (v as byte) as int == v
  {
    if v < 16 {
    } else if v < 32 {
    } else if v < 64 {
    } else if v < 128 {
    }
  }

  lemma ByteOfNat(b: byte)
    ensures NatOf(b) < 256 && ByteOf(NatOf(b)) == b
  {
  }

  /** `v` in `n` bytes; what does not fit is cut off, as storing it in a field of that width does. */
  function Little(v: nat, n: nat): (r: seq<byte>)
    ensures |r| == n
  {
    if n == 0 then [] else [ByteOf(v % 256)] + Little(v / 256, n - 1)
  }

  function Number(bytes: seq<byte>): nat
  {
    if bytes == [] then 0 else NatOf(bytes[0]) + 256 * Number(bytes[1..])
  }

  lemma {:induction false} NumberOfLittle(v: nat, n: nat)
    requires v < Pow256(n)
    ensures Number(Little(v, n)) == v
  {
    hide ByteOf, NatOf;
    if n > 0 {
      NatOfByte(v % 256);
      NumberOfLittle(v / 256, n - 1);
      assert Little(v, n)[1..] == Little(v / 256, n - 1);
    }
  }

  /** How many values four bytes have, and eight. */
  lemma Widths()
    ensures Pow256(4) == 0x1_0000_0000 && Pow256(8) == 0x1_0000_0000_0000_0000
  {
    assert Pow256(4) == 0x1_0000_0000;
    assert Pow256(8) == 256 * (256 * (256 * (256 * Pow256(4))));
  }

  // ------------------------------------------------------------------- text

  /** A string of bytes, as every string of the program is. */
  predicate ByteChars(s: string) { forall i :: 0 <= i < |s| ==> s[i] as int < 256 }

  function Ascii(s: string): (r: seq<byte>)
    ensures |r| == |s|
  {
    seq(|s|, i requires 0 <= i < |s| => ByteOf((s[i] as int) % 256))
  }

  function Chars(bytes: seq<byte>): (r: string)
    ensures |r| == |bytes| && ByteChars(r)
  {
    hide NatOf;
    seq(|bytes|, i requires 0 <= i < |bytes| => CharOf(bytes[i]))
  }

  function CharOf(b: byte): (c: char)
    ensures c as int == NatOf(b) < 256
  {
    ByteOfNat(b);
    NatOf(b) as char
  }

  /** Text comes back from its bytes. */
  lemma CharsOfAscii(s: string)
    requires ByteChars(s)
    ensures Chars(Ascii(s)) == s
  {
    hide NatOf, ByteOf;
    forall i | 0 <= i < |s| ensures Chars(Ascii(s))[i] == s[i] {
      NatOfByte(s[i] as int);
      assert Chars(Ascii(s))[i] == CharOf(Ascii(s)[i]);
    }
  }

  // -------------------------------------------------------------------- hex

  /** The value of a hexadecimal digit. */
  function DigitValue(c: char): nat
  {
    if '0' <= c <= '9' then (c as int) - ('0' as int)
    else if 'a' <= c <= 'f' then (c as int) - ('a' as int) + 10
    else 0
  }

  function HexDigit(n: nat): (c: char)
    requires n < 16
    ensures '0' <= c <= '9' || 'a' <= c <= 'f'
    ensures DigitValue(c) == n
  {
    "0123456789abcdef"[n]
  }

  function Hex(bytes: seq<byte>): (r: string)
    ensures |r| == 2 * |bytes| && ByteChars(r) && forall i :: 0 <= i < |r| ==> r[i] != '\0'
  {
    if bytes == [] then ""
    else
      ByteOfNat(bytes[0]);
      [HexDigit(NatOf(bytes[0]) / 16), HexDigit(NatOf(bytes[0]) % 16)] + Hex(bytes[1..])
  }

  /** The bytes that pairs of digits spell. */
  function Unhex(s: string): seq<byte>
  {
    if |s| < 2 then []
    else [ByteOf((16 * DigitValue(s[0]) + DigitValue(s[1])) % 256)] + Unhex(s[2..])
  }

  /** Reading the digits gives the bytes back. */
  lemma {:induction false} UnhexOfHex(bytes: seq<byte>)
    ensures Unhex(Hex(bytes)) == bytes
  {
    hide ByteOf, NatOf, HexDigit, DigitValue;
    if bytes != [] {
      ByteOfNat(bytes[0]);
      UnhexOfHex(bytes[1..]);
      assert Hex(bytes)[2..] == Hex(bytes[1..]);
    }
  }
}
