// CRC-32 as section 8 of RFC 1952 defines it, and the seeded, resumable form
// that the gamecard reader applies to one block after another.
module Crc32 {
  import opened Sequences

  type Crc = bv32

  const ALL_ONES: bv32 := 0xFFFF_FFFF

  const BITS_PER_BYTE: nat := 8

  // Words as polynomials over two elements: the lowest bit is the coefficient of
  // x^31, adding is exclusive or, and multiplying by x is a shift to the right.

  function Plus(a: bv32, b: bv32): bv32 { a ^ b }

  function Shr(a: bv32): bv32 { a >> 1 }

  predicate Odd(a: bv32) { a & 1 == 1 }

  /** Multiplied by x, with x^32 replaced by what the generator polynomial makes of it. */
  function Divide(c: bv32): bv32
  {
    if Odd(c) then Plus(0xEDB8_8320, Shr(c)) else Shr(c)
  }

  /** `k` rounds of the bitwise division that fills one slot of the RFC 1952 table. */
  function TableRounds(c: bv32, k: nat): bv32
    decreases k
  {
    if k == 0 then c else TableRounds(Divide(c), k - 1)
  }

  function TableEntry(index: bv32): bv32
  {
    TableRounds(index, BITS_PER_BYTE)
  }

  function Mixed(register: bv32, b: byte): bv32 { register ^ (b as bv32) }

  function Low(c: bv32): bv32 { c & 0xFF }

  /** The register without its lowest byte. */
  function Down(c: bv32): bv32 { c >> 8 }

  /** The register after one more input byte. */
  function Shift(register: bv32, b: byte): bv32
  {
    Plus(TableEntry(Low(Mixed(register, b))), Down(register))
  }

  /** The register after all of `data`, first byte first. */
  function Register(register: bv32, data: seq<byte>): bv32
    decreases |data|
  {
    if data == [] then register else Register(Shift(register, data[0]), data[1..])
  }

  /** The CRC of `data` continued from the CRC `seed` of whatever came before. */
  function WithSeed(seed: Crc, data: seq<byte>): Crc
  {
    Flip(Register(Flip(seed), data))
  }

  /** The one's complement that RFC 1952 applies before and after the division. */
  function Flip(register: bv32): bv32
  {
    register ^ ALL_ONES
  }

  function OneShot(data: seq<byte>): Crc
  {
    WithSeed(0, data)
  }

  // ------------------------------------------------------------ resuming

  lemma {:induction false} RegisterAppend(register: bv32, first: seq<byte>, second: seq<byte>)
    ensures Register(register, first + second) == Register(Register(register, first), second)
    decreases |first|
  {
    if first == [] {
      assert first + second == second;
    } else {
      assert (first + second)[0] == first[0] && (first + second)[1..] == first[1..] + second;
      RegisterAppend(Shift(register, first[0]), first[1..], second);
    }
  }

  lemma FlipTwice(register: bv32)
    ensures Flip(Flip(register)) == register
  {
  }

  /** Resuming from a finished CRC continues it: block boundaries leave no trace. */
  lemma {:induction false} Resume(seed: Crc, first: seq<byte>, second: seq<byte>)
    ensures WithSeed(WithSeed(seed, first), second) == WithSeed(seed, first + second)
  {
    var start := Flip(seed);
    var middle := Register(start, first);
    RegisterAppend(start, first, second);
    ResumeFlipped(middle, second);
  }

  lemma ResumeFlipped(register: bv32, data: seq<byte>)
    ensures WithSeed(Flip(register), data) == Flip(Register(register, data))
  {
    FlipTwice(register);
  }

  lemma NoMore(seed: Crc)
    ensures WithSeed(seed, []) == seed
  {
    FlipTwice(seed);
  }

  // ------------------------------------------------------ which CRC it is

  /** The generator polynomial is x^32 and these powers of x. */
  const EXPONENTS: seq<nat> := [26, 23, 22, 16, 12, 11, 10, 8, 7, 5, 4, 2, 1, 0]

  /** Whether x^e is in the polynomial `c`. */
  predicate HasPower(c: bv32, e: nat)
    requires e < 32
  {
    (c << e) & 0x8000_0000 != 0
  }

  /** What x^32 is replaced by: multiplying x^31 by x leaves exactly the lower powers of the generator. */
  lemma DividesByGenerator(e: nat)
    requires e < 32
    ensures HasPower(1, 31) && (HasPower(Divide(1), e) <==> e in EXPONENTS)
  {
    assert Divide(1) == 0xEDB8_8320;
  }

  /** The division bit by bit, without a table: eight rounds for each byte. */
  function Divided(register: bv32, data: seq<byte>): bv32
    decreases |data|
  {
    if data == [] then register else Divided(TableRounds(Mixed(register, data[0]), 8), data[1..])
  }

  /** The register is the remainder of that division. */
  lemma {:induction false} RegisterIsRemainder(register: bv32, data: seq<byte>)
    ensures Register(register, data) == Divided(register, data)
    decreases |data|
  {
    hide Shift, TableRounds, Mixed;
    if data != [] {
      ShiftIsRounds(register, data[0]);
      RegisterIsRemainder(Shift(register, data[0]), data[1..]);
    }
  }

  function High(c: bv32): bv32 { c & 0xFFFF_FF00 }

  /** The table takes eight rounds at once, because the rounds are linear. */
  lemma ShiftIsRounds(register: bv32, b: byte)
    ensures Shift(register, b) == TableRounds(Mixed(register, b), 8)
  {
    hide TableRounds, Plus, Mixed, Low, High, Down;
    var x := Mixed(register, b);
    Split(register, b);
    HighBits(x);
    RoundsAreLinear(Low(x), High(x), 8);
  }

  lemma Split(register: bv32, b: byte)
    ensures var x := Mixed(register, b); x == Plus(Low(x), High(x)) && Down(High(x)) == Down(register)
  {
  }

  /** The lowest `k` bits are clear. */
  predicate Clear(h: bv32, k: nat)
    decreases k
  {
    k == 0 || (!Odd(h) && Clear(Shr(h), k - 1))
  }

  function Shifted(h: bv32, k: nat): bv32
    decreases k
  {
    if k == 0 then h else Shifted(Shr(h), k - 1)
  }

  lemma HighBits(c: bv32)
    ensures Clear(High(c), 8) && Shifted(High(c), 8) == Down(High(c))
  {
    assert High(c) & 0xFF == 0;
    ClearLow(High(c));
  }

  lemma ClearLow(h: bv32)
    requires h & 0xFF == 0
    ensures Clear(h, 8) && Shifted(h, 8) == Down(h)
  {
    assert Shifted(h, 8) == Shr(Shr(Shr(Shr(Shr(Shr(Shr(Shr(h))))))));
  }

  lemma {:induction false} RoundsAreLinear(a: bv32, h: bv32, k: nat)
    requires Clear(h, k)
    ensures TableRounds(Plus(a, h), k) == Plus(TableRounds(a, k), Shifted(h, k))
    decreases k
  {
    hide Odd, Shr, Plus, Divide;
    if k > 0 {
      DivideIsLinear(a, h);
      RoundsAreLinear(Divide(a), Shr(h), k - 1);
    }
  }

  lemma DivideIsLinear(a: bv32, h: bv32)
    requires !Odd(h)
    ensures Divide(Plus(a, h)) == Plus(Divide(a), Shr(h))
  {
    hide Odd, Shr, Plus;
    OddPlus(a, h);
    ShrPlus(a, h);
    PlusAssociates(0xEDB8_8320, Shr(a), Shr(h));
  }

  lemma OddPlus(a: bv32, h: bv32)
    requires !Odd(h)
    ensures Odd(Plus(a, h)) == Odd(a)
  {
  }

  lemma ShrPlus(a: bv32, h: bv32)
    ensures Shr(Plus(a, h)) == Plus(Shr(a), Shr(h))
  {
  }

  lemma PlusAssociates(a: bv32, b: bv32, c: bv32)
    ensures Plus(a, Plus(b, c)) == Plus(Plus(a, b), c)
  {
  }

  /** The bytes of a word, lowest first. */
  function WordBytes(c: bv32): seq<byte>
  {
    [(c & 0xFF) as byte, ((c >> 8) & 0xFF) as byte, ((c >> 16) & 0xFF) as byte, (c >> 24) as byte]
  }

  /** Data followed by its own CRC always leaves the same register. */
  lemma Residue(data: seq<byte>)
    ensures Register(ALL_ONES, data + WordBytes(OneShot(data))) == 0xDEBB_20E3
  {
    var r := Register(ALL_ONES, data);
    assert Flip(0) == ALL_ONES && OneShot(data) == Flip(r);
    RegisterAppend(ALL_ONES, data, WordBytes(Flip(r)));
    ResidueOf(r);
  }

  lemma ResidueOf(r: bv32)
    ensures Register(r, WordBytes(Flip(r))) == 0xDEBB_20E3
  {
    hide Shift, TableEntry, Flip, Plus, Down, LowByte, WordBytes;
    Complements(r);
    Entries();
    Feeds(0, 0x2D02_EF8D, r);
    Feeds(0x2D02_EF8D, 0xBE26_12FF, Down(r));
    Feeds(0xBE26_12FF, 0x00BE_2612, Down(Down(r)));
    Feeds(0x00BE_2612, 0xDEBB_20E3, Down(Down(Down(r))));
    FourBytes(r, LowByte(Flip(r)), LowByte(Flip(Down(r))), LowByte(Flip(Down(Down(r)))), LowByte(Flip(Down(Down(Down(r))))));
  }

  lemma FourBytes(r: bv32, a: byte, b: byte, c: byte, d: byte)
    ensures Register(r, [a, b, c, d]) == Shift(Shift(Shift(Shift(r, a), b), c), d)
  {
    hide Shift;
    FirstByte(r, a, [b, c, d]);
    FirstByte(Shift(r, a), b, [c, d]);
    FirstByte(Shift(Shift(r, a), b), c, [d]);
    FirstByte(Shift(Shift(Shift(r, a), b), c), d, []);
  }

  lemma FirstByte(register: bv32, b: byte, rest: seq<byte>)
    ensures Register(register, [b] + rest) == Register(Shift(register, b), rest)
  {
    assert ([b] + rest)[1..] == rest;
  }

  function LowByte(c: bv32): byte { (c & 0xFF) as byte }

  /** The bytes of the complement are the complements of the bytes. */
  lemma Complements(r: bv32)
    ensures WordBytes(Flip(r)) ==
      [LowByte(Flip(r)), LowByte(Flip(Down(r))), LowByte(Flip(Down(Down(r)))), LowByte(Flip(Down(Down(Down(r)))))]
    ensures Plus(0, r) == r && Plus(0xDEBB_20E3, Down(Down(Down(Down(r))))) == 0xDEBB_20E3
  {
  }

  /** The table entries that come up, and what they leave. */
  lemma Entries()
    ensures Leaves(0, 0x2D02_EF8D) && Leaves(0x2D02_EF8D, 0xBE26_12FF)
    ensures Leaves(0xBE26_12FF, 0x00BE_2612) && Leaves(0x00BE_2612, 0xDEBB_20E3)
  {
    hide TableEntry;
    EightTimes(0xFF);
    EightTimes(0x72);
    EightTimes(0);
    EightTimes(0xED);
  }

  lemma EightTimes(c: bv32)
    ensures TableEntry(c) == Divide(Divide(Divide(Divide(Divide(Divide(Divide(Divide(c))))))))
  {
    hide Divide;
    assert TableRounds(c, 8) == TableRounds(Divide(Divide(Divide(Divide(c)))), 4);
  }

  predicate Leaves(k: bv32, next: bv32) { Plus(TableEntry(Plus(Low(k), 0xFF)), Down(k)) == next }

  /** Feeding a byte's complement leaves nothing of the byte. */
  lemma Feeds(k: bv32, next: bv32, x: bv32)
    requires Leaves(k, next)
    ensures Shift(Plus(k, x), LowByte(Flip(x))) == Plus(next, Down(x))
  {
    hide TableEntry, Plus, Low, Down, LowByte, Flip, Mixed;
    FedIndex(k, x);
    FedRest(TableEntry(Plus(Low(k), 0xFF)), k, x);
  }

  lemma FedIndex(k: bv32, x: bv32)
    ensures Low(Mixed(Plus(k, x), LowByte(Flip(x)))) == Plus(Low(k), 0xFF)
  {
  }

  lemma FedRest(t: bv32, k: bv32, x: bv32)
    ensures Plus(t, Down(Plus(k, x))) == Plus(Plus(t, Down(k)), Down(x))
  {
  }

  /** The check value that CRC-32 is commonly told by: that of the digits from 1 to 9. */
  lemma CheckValue()
    ensures OneShot([0x31, 0x32, 0x33, 0x34, 0x35, 0x36, 0x37, 0x38, 0x39]) == 0xCBF4_3926
  {
    hide Shift, Register;
    DigitsOneToThree();
    DigitsFourToSix();
    DigitsSevenToNine();
    var one: seq<byte>, two: seq<byte>, three: seq<byte> := [0x31, 0x32, 0x33], [0x34, 0x35, 0x36], [0x37, 0x38, 0x39];
    RegisterAppend(0xFFFF_FFFF, one, two + three);
    RegisterAppend(0x77B7_9C2D, two, three);
    assert one + (two + three) == [0x31, 0x32, 0x33, 0x34, 0x35, 0x36, 0x37, 0x38, 0x39];
  }

  lemma ThreeBytes(r: bv32, a: byte, b: byte, c: byte)
    ensures Register(r, [a, b, c]) == Shift(Shift(Shift(r, a), b), c)
  {
    hide Shift;
    FirstByte(r, a, [b, c]);
    FirstByte(Shift(r, a), b, [c]);
    FirstByte(Shift(Shift(r, a), b), c, []);
  }

  lemma DigitsOneToThree()
    ensures Register(0xFFFF_FFFF, [0x31, 0x32, 0x33]) == 0x77B7_9C2D
  {
    ThreeBytes(0xFFFF_FFFF, 0x31, 0x32, 0x33);
    hide TableEntry;
    EightTimes(0xCE);
    EightTimes(0x7A);
    EightTimes(0x1);
  }

  lemma DigitsFourToSix()
    ensures Register(0x77B7_9C2D, [0x34, 0x35, 0x36]) == 0xF68D_2C9E
  {
    ThreeBytes(0x77B7_9C2D, 0x34, 0x35, 0x36);
    hide TableEntry;
    EightTimes(0x19);
    EightTimes(0x69);
    EightTimes(0xD5);
  }

  lemma DigitsSevenToNine()
    ensures Register(0xF68D_2C9E, [0x37, 0x38, 0x39]) == 0x340B_C6D9
  {
    ThreeBytes(0xF68D_2C9E, 0x37, 0x38, 0x39);
    hide TableEntry;
    EightTimes(0xA9);
    EightTimes(0x58);
    EightTimes(0x69);
  }
}
