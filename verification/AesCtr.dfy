// The partial counters that let AES-CTR data be read from any offset: byte
// loops over a 16-byte counter, and why seeking with them gives the same bytes
// as one pass of counter mode (section 6.5 and appendix B.1 of NIST SP 800-38A).
module AesCtr {
  import opened Sequences
  import opened Words

  // ------------------------------------------------- bytes of an integer

  /** What `k` right shifts by eight bits leave. */
  function Shifted(v: nat, k: nat): nat
    decreases k
  {
    if k == 0 then v else Shifted(v / 256, k - 1)
  }

  /** The lowest `n` bytes of `v`, highest first. */
  function BigEndian(v: nat, n: nat): (r: seq<u8>)
    ensures |r| == n
  {
    seq(n, i requires 0 <= i < n => Shifted(v, n - 1 - i) % 256)
  }

  /** The integer that `bytes` spell, highest first. */
  function Value(bytes: seq<u8>): nat
  {
    if bytes == [] then 0 else 256 * Value(bytes[..|bytes| - 1]) + bytes[|bytes| - 1]
  }

  lemma BigEndianLast(v: nat, n: nat)
    requires n > 0
    ensures BigEndian(v, n) == BigEndian(v / 256, n - 1) + [v % 256]
  {
    forall i | 0 <= i < n
      ensures BigEndian(v, n)[i] == (BigEndian(v / 256, n - 1) + [v % 256])[i]
    {
      assert Shifted(v, n - 1 - i) == if i == n - 1 then v else Shifted(v / 256, n - 2 - i);
    }
  }

  lemma {:induction false} ValueOfBigEndian(v: nat, n: nat)
    requires v < Pow256(n)
    ensures Value(BigEndian(v, n)) == v
    decreases n
  {
    if n > 0 {
      BigEndianLast(v, n);
      ValueOfBigEndian(v / 256, n - 1);
      assert BigEndian(v, n)[..n - 1] == BigEndian(v / 256, n - 1);
    }
  }

  lemma {:induction false} BigEndianOfValue(bytes: seq<u8>)
    ensures BigEndian(Value(bytes), |bytes|) == bytes
  {
    if bytes != [] {
      var n := |bytes| - 1;
      BigEndianLast(Value(bytes), |bytes|);
      BigEndianOfValue(bytes[..n]);
      assert bytes == bytes[..n] + [bytes[n]];
    }
  }

  lemma {:induction false} ValueBounded(bytes: seq<u8>)
    ensures Value(bytes) < Pow256(|bytes|)
  {
    if bytes != [] {
      ValueBounded(bytes[..|bytes| - 1]);
    }
  }

  lemma {:induction false} ValueAppend(a: seq<u8>, b: seq<u8>)
    ensures Value(a + b) == Value(a) * Pow256(|b|) + Value(b)
    decreases |b|
  {
    if b == [] {
      assert a + b == a;
    } else {
      var n := |b| - 1;
      assert (a + b)[..|a + b| - 1] == a + b[..n];
      ValueAppend(a, b[..n]);
      Regroup(Value(a), Pow256(n), Value(b[..n]), b[n]);
    }
  }

  lemma Regroup(x: nat, p: nat, y: nat, z: nat)
    ensures 256 * (x * p + y) + z == x * (256 * p) + (256 * y + z)
  {
  }

  lemma {:induction false} ShiftedNext(v: nat, k: nat)
    ensures Shifted(v, k + 1) == Shifted(v, k) / 256
    decreases k
  {
    if k > 0 {
      ShiftedNext(v / 256, k - 1);
    }
  }

  /** Eight bytes hold every block index a 64-bit offset can have, four every 32-bit value. */
  lemma BlockIndexFits(offset: u64, v: u32)
    ensures offset / 16 < Pow256(8) && v < Pow256(4)
  {
    assert Pow256(4) == 0x1_0000_0000;
    assert Pow256(8) == 256 * (256 * (256 * (256 * Pow256(4))));
  }

  function Reversed(s: seq<u8>): (r: seq<u8>)
    ensures |r| == |s| && forall i :: 0 <= i < |s| ==> r[i] == s[|s| - 1 - i]
  {
    seq(|s|, i requires 0 <= i < |s| => s[|s| - 1 - i])
  }

  // ------------------------------------------------------------- counters

  /** The lower half of a counter: the index of the block that `offset` is in. */
  function BlockIndex(offset: nat): (r: seq<u8>)
    ensures |r| == 8
  {
    BigEndian(offset / 16, 8)
  }

  /** The counter for byte `offset` of a section whose upper counter half is `upper`, stored lowest byte first. */
  function PartialCtr(upper: seq<u8>, offset: nat): (r: seq<u8>)
    requires |upper| == 8
    ensures |r| == 16
  {
    Reversed(upper) + BlockIndex(offset)
  }

  /** What the first loop leaves in its first eight bytes if input and output are the same buffer. */
  function Mirrored(ctr: seq<u8>): (r: seq<u8>)
    requires |ctr| == 8
    ensures |r| == 8 && forall i :: 0 <= i < 8 ==> r[i] == ctr[if i < 4 then 7 - i else i]
  {
    seq(8, i requires 0 <= i < 8 => ctr[if i < 4 then 7 - i else i])
  }

  /**
   * Null arguments change nothing; otherwise `out` starts with the partial counter,
   * unless it is the buffer that is read from.
   */
  method InitializePartialCtr(out: array?<u8>, ctr: array?<u8>, offset: u64)
    requires out != null && ctr != null ==> out.Length >= 16 && ctr.Length >= 8
    modifies out
    ensures out != null && ctr != null && out != ctr ==> out[..] == PartialCtr(old(ctr[..8]), offset) + old(out[16..])
    ensures out != null && ctr != null && out != ctr ==> forall i :: 0 <= i < 8 ==> out[i] == old(ctr[7 - i])
    ensures out != null && out == ctr ==> out[..] == Mirrored(old(ctr[..8])) + BlockIndex(offset) + old(out[16..])
    ensures out != null && ctr == null ==> out[..] == old(out[..])
  {
    if out == null || ctr == null {
      return;
    }
    ghost var was := ctr[..8];
    var rest := offset / 16;
    for i := 0 to 8
      invariant rest == Shifted(offset / 16, i)
      invariant forall j :: 0 <= j < 8 && (out != ctr || j >= i) ==> ctr[j] == was[j]
      invariant forall j :: 0 <= j < i ==> out[j] == was[if out != ctr || j < 4 then 7 - j else j]
      invariant forall j :: 16 - i <= j < 16 ==> out[j] == Shifted(offset / 16, 15 - j) % 256
      invariant out[16..] == old(out[16..])
    {
      ShiftedNext(offset / 16, i);
      out[i] := ctr[8 - i - 1];
      out[0x10 - i - 1] := rest % 256;
      rest := rest / 256;
    }
    assert out[..8] == if out != ctr then Reversed(was) else Mirrored(was);
    assert out[8..16] == BlockIndex(offset);
    Parts(out[..]);
  }

  lemma SliceOfSlice(s: seq<u8>)
    requires |s| >= 16
    ensures s[..8][..4] == s[..4] && s[8..][..8] == s[8..16] && s[8..][8..] == s[16..]
  {
  }

  lemma Parts(s: seq<u8>)
    requires |s| >= 16
    ensures s == s[..8] + s[8..16] + s[16..] && s == s[..4] + s[4..8] + s[8..16] + s[16..]
  {
  }

  /** In one buffer the result is the partial counter exactly if the upper half reads the same both ways. */
  lemma MirroredIsReversed(ctr: seq<u8>)
    requires |ctr| == 8
    ensures Mirrored(ctr) == Reversed(ctr) <==> ctr == Reversed(ctr)
  {
    if Mirrored(ctr) == Reversed(ctr) {
      forall i | 0 <= i < 8 ensures ctr[i] == Reversed(ctr)[i] {
        assert Mirrored(ctr)[if i < 4 then 7 - i else i] == Reversed(ctr)[if i < 4 then 7 - i else i];
      }
    }
  }

  /** Only the lower half of the counter changes. */
  method UpdatePartialCtr(ctr: array?<u8>, offset: u64)
    requires ctr != null ==> ctr.Length >= 16
    modifies ctr
    ensures ctr != null ==> ctr[..] == old(ctr[..8]) + BlockIndex(offset) + old(ctr[16..])
    ensures ctr != null ==> Value(ctr[8..16]) == offset / 16
  {
    if ctr == null {
      return;
    }
    var rest := offset / 16;
    for i := 0 to 8
      invariant rest == Shifted(offset / 16, i)
      invariant ctr[..8] == old(ctr[..8])
      invariant forall j :: 16 - i <= j < 16 ==> ctr[j] == Shifted(offset / 16, 15 - j) % 256
      invariant ctr[16..] == old(ctr[16..])
    {
      ShiftedNext(offset / 16, i);
      ctr[0x10 - i - 1] := rest % 256;
      rest := rest / 256;
    }
    assert ctr[8..16] == BlockIndex(offset);
    Parts(ctr[..]);
    SliceOfSlice(ctr[..]);
    BlockIndexFits(offset, 0);
    ValueOfBigEndian(offset / 16, 8);
  }

  /** The variant for updated sections also replaces bytes 4 to 7. */
  method UpdatePartialCtrEx(ctr: array?<u8>, ctrVal: u32, offset: u64)
    requires ctr != null ==> ctr.Length >= 16
    modifies ctr
    ensures ctr != null ==> ctr[..] == ExtendedCtr(old(ctr[..4]), ctrVal, offset) + old(ctr[16..])
    ensures ctr != null ==> Value(ctr[4..8]) == ctrVal && Value(ctr[8..16]) == offset / 16
  {
    if ctr == null {
      return;
    }
    var rest := offset / 16;
    for i := 0 to 8
      invariant rest == Shifted(offset / 16, i)
      invariant ctr[..8] == old(ctr[..8])
      invariant forall j :: 16 - i <= j < 16 ==> ctr[j] == Shifted(offset / 16, 15 - j) % 256
      invariant ctr[16..] == old(ctr[16..])
    {
      ShiftedNext(offset / 16, i);
      ctr[0x10 - i - 1] := rest % 256;
      rest := rest / 256;
    }
    assert ctr[8..16] == BlockIndex(offset);
    assert ctr[..4] == ctr[..8][..4];
    StoreValue(ctr, ctrVal);
    Parts(ctr[..]);
    SliceOfSlice(ctr[..]);
    BlockIndexFits(offset, ctrVal);
    ValueOfBigEndian(ctrVal, 4);
    ValueOfBigEndian(offset / 16, 8);
  }

  /** The second loop of the extended update. */
  method StoreValue(ctr: array<u8>, ctrVal: u32)
    requires ctr.Length >= 16
    modifies ctr
    ensures ctr[..4] == old(ctr[..4]) && ctr[4..8] == BigEndian(ctrVal, 4) && ctr[8..] == old(ctr[8..])
    ensures ctr[8..16] == old(ctr[8..16]) && ctr[16..] == old(ctr[16..])
  {
    var rest: nat := ctrVal;
    for i := 0 to 4
      invariant rest == Shifted(ctrVal, i)
      invariant ctr[..4] == old(ctr[..4])
      invariant forall j :: 8 - i <= j < 8 ==> ctr[j] == Shifted(ctrVal, 7 - j) % 256
      invariant ctr[8..] == old(ctr[8..])
    {
      ShiftedNext(ctrVal, i);
      ctr[0x8 - i - 1] := rest % 256;
      rest := rest / 256;
    }
    assert ctr[8..16] == ctr[8..][..8] && ctr[16..] == ctr[8..][8..];
  }

  /** The counter of an updated section: four bytes kept, a 32-bit generation, the block index. */
  function ExtendedCtr(keep: seq<u8>, ctrVal: u32, offset: nat): (r: seq<u8>)
    requires |keep| == 4
    ensures |r| == 16 && r[..4] == keep
  {
    keep + BigEndian(ctrVal, 4) + BlockIndex(offset)
  }

  /** What its bytes spell: the kept ones, the value, and the index of the block. */
  lemma ExtendedSpells(keep: seq<u8>, v: u32, offset: u64)
    requires |keep| == 4
    ensures var ctr := ExtendedCtr(keep, v, offset);
      ctr[..4] == keep && Value(ctr[4..8]) == v && Value(ctr[8..16]) == offset / 16 &&
      Value(ctr) == (Value(keep) * 0x1_0000_0000 + v) * 0x1_0000_0000_0000_0000 + offset / 16
  {
    BlockIndexFits(offset, v);
    ValueOfBigEndian(v, 4);
    ValueOfBigEndian(offset / 16, 8);
    assert ExtendedCtr(keep, v, offset)[4..8] == BigEndian(v, 4);
    assert ExtendedCtr(keep, v, offset)[8..16] == BlockIndex(offset);
    ValueAppend(keep, BigEndian(v, 4));
    ValueAppend(keep + BigEndian(v, 4), BlockIndex(offset));
    Wide();
  }

  lemma Wide()
    ensures Pow256(4) == 0x1_0000_0000 && Pow256(8) == 0x1_0000_0000_0000_0000
  {
    assert Pow256(4) == 0x1_0000_0000;
    assert Pow256(8) == 256 * (256 * (256 * (256 * Pow256(4))));
  }

  /** Sixteen bytes further is one count further, with no carry into the value. */
  lemma ExtendedAdvances(keep: seq<u8>, v: u32, offset: u64, k: nat)
    requires |keep| == 4 && offset + 16 * k < 0x1_0000_0000_0000_0000
    ensures Value(ExtendedCtr(keep, v, offset + 16 * k)) == Value(ExtendedCtr(keep, v, offset)) + k
  {
    ExtendedSpells(keep, v, offset);
    ExtendedSpells(keep, v, offset + 16 * k);
  }

  /** The partial counter has the upper half lowest byte first and then the index of the block. */
  lemma PartialSpells(upper: seq<u8>, offset: u64)
    requires |upper| == 8
    ensures var ctr := PartialCtr(upper, offset);
      (forall i :: 0 <= i < 8 ==> ctr[i] == upper[7 - i]) && Value(ctr[8..16]) == offset / 16
  {
    BlockIndexFits(offset, 0);
    ValueOfBigEndian(offset / 16, 8);
    assert PartialCtr(upper, offset)[8..16] == BlockIndex(offset);
  }

  /** Seeking again after initialising depends on the last offset only. */
  lemma UpdateForgets(upper: seq<u8>, before: nat, offset: nat)
    requires |upper| == 8
    ensures PartialCtr(upper, before)[..8] + BlockIndex(offset) == PartialCtr(upper, offset)
  {
    assert PartialCtr(upper, before)[..8] == Reversed(upper);
  }

  /** As an integer the counter is the upper half, shifted by eight bytes, plus the block index. */
  lemma CounterValue(upper: seq<u8>, offset: u64)
    requires |upper| == 8
    ensures Value(PartialCtr(upper, offset)) == Value(Reversed(upper)) * Pow256(8) + offset / 16
  {
    ValueAppend(Reversed(upper), BlockIndex(offset));
    BlockIndexFits(offset, 0);
    ValueOfBigEndian(offset / 16, 8);
  }

  /** Sixteen bytes further is one count further, with no carry into the upper half. */
  lemma CounterAdvances(upper: seq<u8>, offset: u64, k: nat)
    requires |upper| == 8 && offset + 16 * k < 0x1_0000_0000_0000_0000
    ensures Value(PartialCtr(upper, offset + 16 * k)) == Value(PartialCtr(upper, offset)) + k
  {
    CounterValue(upper, offset);
    CounterValue(upper, offset + 16 * k);
  }

  lemma BigEndianInjective(v: nat, w: nat, n: nat)
    requires v < Pow256(n) && w < Pow256(n) && BigEndian(v, n) == BigEndian(w, n)
    ensures v == w
  {
    ValueOfBigEndian(v, n);
    ValueOfBigEndian(w, n);
  }

  /** Two extended counters over the same first bytes agree only for the same value and block. */
  lemma ExtendedInjective(keep: seq<u8>, v: u32, offset: u64, w: u32, other: u64)
    requires |keep| == 4
    requires ExtendedCtr(keep, v, offset) == ExtendedCtr(keep, w, other)
    ensures v == w && offset / 16 == other / 16
  {
    var a, b := ExtendedCtr(keep, v, offset), ExtendedCtr(keep, w, other);
    assert BigEndian(v, 4) == a[4..8] && BigEndian(w, 4) == b[4..8];
    assert BlockIndex(offset) == a[8..16] && BlockIndex(other) == b[8..16];
    BlockIndexFits(offset, v);
    BlockIndexFits(other, w);
    BigEndianInjective(v, w, 4);
    BigEndianInjective(offset / 16, other / 16, 8);
  }

  // --------------------------------------------------------- counter mode

  /** The block cipher under a fixed key: a counter block to sixteen bytes of key stream. */
  type Cipher = seq<u8> -> seq<byte>

  ghost predicate IsCipher(e: Cipher)
  {
    forall t: seq<u8> :: |t| == 16 ==> |e(t)| == 16
  }

  function Mix(data: byte, key: byte): byte { data ^ key }

  function Xor(data: seq<byte>, key: seq<byte>): (r: seq<byte>)
    requires |data| <= |key|
    ensures |r| == |data|
  {
    if data == [] then [] else [Mix(data[0], key[0])] + Xor(data[1..], key[1..])
  }

  ghost function KeyStream(e: Cipher, t: nat): (r: seq<byte>)
    requires IsCipher(e)
    ensures |r| == 16
  {
    e(BigEndian(t, 16))
  }

  /** The standard increments all 128 bits of the counter, wrapping after the last block. */
  function Increment(last: nat, t: nat): nat
  {
    if t == last then 0 else t + 1
  }

  /** One pass of counter mode from counter `t`. */
  ghost function CtrMode(e: Cipher, last: nat, t: nat, data: seq<byte>): (r: seq<byte>)
    requires IsCipher(e)
    decreases |data|
  {
    if |data| <= 16 then Xor(data, KeyStream(e, t))
    else Xor(data[..16], KeyStream(e, t)) + CtrMode(e, last, Increment(last, t), data[16..])
  }

  lemma CtrModeNone(e: Cipher, last: nat, t: nat, b: seq<byte>)
    requires IsCipher(e)
    ensures CtrMode(e, last, t, [] + b) == CtrMode(e, last, t, []) + CtrMode(e, last, t, b)
  {
    assert [] + b == b;
    CtrModeEmpty(e, last, t);
  }

  lemma CtrModeEmpty(e: Cipher, last: nat, t: nat)
    requires IsCipher(e)
    ensures CtrMode(e, last, t, []) == []
  {
  }

  /** The first whole block comes off the front, also when nothing follows it. */
  lemma CtrModeFront(e: Cipher, last: nat, t: nat, data: seq<byte>)
    requires IsCipher(e) && |data| >= 16
    ensures CtrMode(e, last, t, data) ==
      Xor(data[..16], KeyStream(e, t)) + CtrMode(e, last, Increment(last, t), data[16..])
  {
    if |data| == 16 {
      assert data[..16] == data && data[16..] == [];
      CtrModeEmpty(e, last, Increment(last, t));
    }
  }

  lemma CtrModeStep(e: Cipher, last: nat, t: nat, a: seq<byte>, b: seq<byte>, tail: seq<byte>)
    requires IsCipher(e) && |a| >= 16 && t < last
    requires CtrMode(e, last, t + 1, a[16..] + b) == CtrMode(e, last, t + 1, a[16..]) + tail
    ensures CtrMode(e, last, t, a + b) == CtrMode(e, last, t, a) + tail
  {
    CtrModeFront(e, last, t, a);
    CtrModeFront(e, last, t, a + b);
    assert (a + b)[..16] == a[..16] && (a + b)[16..] == a[16..] + b;
  }

  /** Whole blocks may be decrypted on their own if the rest starts that many counts later. */
  lemma {:induction false} CtrModeSplits(e: Cipher, last: nat, t: nat, next: nat, a: seq<byte>, b: seq<byte>)
    requires IsCipher(e) && |a| == 16 * (next - t) && t <= next <= last
    ensures CtrMode(e, last, t, a + b) == CtrMode(e, last, t, a) + CtrMode(e, last, next, b)
    decreases next - t
  {
    if a == [] {
      CtrModeNone(e, last, t, b);
    } else {
      CtrModeSplits(e, last, t + 1, next, a[16..], b);
      CtrModeStep(e, last, t, a, b, CtrMode(e, last, next, b));
    }
  }

  // -------------------------------------------------------------- seeking

  /** Which counter is seeked with: that of a section, or that of an updated one. */
  datatype Seek = Partial(upper: seq<u8>) | Extended(keep: seq<u8>, value: u32) {
    predicate Valid() { if Partial? then |upper| == 8 else |keep| == 4 }

    function Ctr(offset: nat): (r: seq<u8>)
      requires Valid()
      ensures |r| == 16
    {
      if Partial? then PartialCtr(upper, offset) else ExtendedCtr(keep, value, offset)
    }
  }

  /** The count that the counter for `offset` spells. */
  function Count(seek: Seek, offset: nat): nat
    requires seek.Valid()
  {
    Value(seek.Ctr(offset))
  }

  /** The last count that sixteen bytes can spell. */
  predicate IsLast(last: nat)
  {
    last == Pow256(16) - 1
  }

  /** Chunks decrypted one by one, each with the counter seeked to where it starts. */
  ghost function Reseeked(e: Cipher, last: nat, seek: Seek, offset: nat, chunks: seq<seq<byte>>): seq<byte>
    requires IsCipher(e) && seek.Valid()
    decreases |chunks|
  {
    if chunks == [] then []
    else CtrMode(e, last, Count(seek, offset), chunks[0]) +
         Reseeked(e, last, seek, offset + |chunks[0]|, chunks[1..])
  }

  /** Every chunk but the last ends on a block boundary. */
  predicate Aligned(chunks: seq<seq<byte>>)
  {
    forall i :: 0 <= i < |chunks| - 1 ==> |chunks[i]| % 16 == 0
  }

  lemma CountAdvances(last: nat, seek: Seek, offset: u64, a: nat)
    requires IsLast(last) && seek.Valid() && a % 16 == 0 && offset + a < 0x1_0000_0000_0000_0000
    ensures 16 * (Count(seek, offset + a) - Count(seek, offset)) == a && Count(seek, offset + a) <= last
  {
    var k := a / 16;
    assert a == 16 * k;
    if seek.Partial? {
      CounterAdvances(seek.upper, offset, k);
    } else {
      ExtendedAdvances(seek.keep, seek.value, offset, k);
    }
    ValueBounded(seek.Ctr(offset + a));
  }

  /**
   * Decrypting any block-aligned chunking with re-seeked counters gives the same
   * bytes as one sequential pass over the whole data.
   */
  lemma {:induction false} SeekingIsSequential(
    e: Cipher, last: nat, seek: Seek, offset: u64, chunks: seq<seq<byte>>)
    requires IsCipher(e) && IsLast(last) && seek.Valid() && Aligned(chunks)
    requires offset + |Concat(chunks)| < 0x1_0000_0000_0000_0000
    ensures Reseeked(e, last, seek, offset, chunks) == CtrMode(e, last, Count(seek, offset), Concat(chunks))
    decreases |chunks|
  {
    hide Count, CtrMode, IsLast;
    if chunks == [] {
      CtrModeEmpty(e, last, Count(seek, offset));
    } else if |chunks| == 1 {
      assert Concat(chunks) == chunks[0] + [] == chunks[0];
      assert Reseeked(e, last, seek, offset + |chunks[0]|, []) == [];
    } else {
      hide Concat;
      assert Concat(chunks) == chunks[0] + Concat(chunks[1..]) by { ConcatFirst(chunks); }
      CountAdvances(last, seek, offset, |chunks[0]|);
      CtrModeSplits(e, last, Count(seek, offset), Count(seek, offset + |chunks[0]|), chunks[0], Concat(chunks[1..]));
      assert Aligned(chunks[1..]) by {
        assert forall i :: 0 <= i < |chunks| - 1 ==> chunks[1..][i] == chunks[i + 1];
      }
      SeekingIsSequential(e, last, seek, offset + |chunks[0]|, chunks[1..]);
    }
  }

  lemma ConcatFirst(chunks: seq<seq<byte>>)
    requires chunks != []
    ensures Concat(chunks) == chunks[0] + Concat(chunks[1..])
  {
  }

  lemma OneByteChunks(e: Cipher, last: nat, seek: Seek, x: byte, y: byte)
    requires IsCipher(e) && seek.Valid()
    ensures Concat([[x], [y]]) == [x, y]
    ensures Reseeked(e, last, seek, 0, [[x], [y]]) ==
      CtrMode(e, last, Count(seek, 0), [x]) + CtrMode(e, last, Count(seek, 1), [y])
  {
    var c := [[x], [y]];
    assert c[1..] == [[y]] && [[y]][1..] == [];
    assert Concat([[y]]) == [y] + [];
    assert Reseeked(e, last, seek, 1, [[y]]) == CtrMode(e, last, Count(seek, 1), [y]) + [];
  }

  lemma XorSplits(x: byte, y: byte, key: seq<byte>)
    requires |key| >= 2
    ensures Xor([x], key) + Xor([y], key) == Xor([x, y], key) <==> Mix(y, key[0]) == Mix(y, key[1])
  {
    XorOne(x, key);
    XorOne(y, key);
    XorTwo(x, y, key);
    PairsEqual(Mix(x, key[0]), Mix(y, key[0]), Mix(y, key[1]));
  }

  lemma PairsEqual<T>(a: T, b: T, c: T)
    ensures [a] + [b] == [a, c] <==> b == c
  {
    assert ([a] + [b])[1] == b && [a, c][1] == c;
  }

  lemma XorOne(x: byte, key: seq<byte>)
    requires |key| >= 2
    ensures Xor([x], key) == [Mix(x, key[0])]
  {
  }

  lemma XorTwo(x: byte, y: byte, key: seq<byte>)
    requires |key| >= 2
    ensures Xor([x, y], key) == [Mix(x, key[0]), Mix(y, key[1])]
  {
  }

  lemma OneByteAtATime(e: Cipher, last: nat, t: nat, x: byte, y: byte)
    requires IsCipher(e)
    ensures CtrMode(e, last, t, [x]) + CtrMode(e, last, t, [y]) == CtrMode(e, last, t, [x, y]) <==>
      KeyStream(e, t)[0] == KeyStream(e, t)[1]
  {
    XorSplits(x, y, KeyStream(e, t));
    MixCancels(y, KeyStream(e, t)[0], KeyStream(e, t)[1]);
  }

  lemma CounterIsItself(seek: Seek)
    requires seek.Valid()
    ensures BigEndian(Count(seek, 0), 16) == seek.Ctr(0) && Count(seek, 1) == Count(seek, 0)
  {
    BigEndianOfValue(seek.Ctr(0));
  }

  /**
   * The alignment matters: two one-byte chunks come out right under a cipher
   * exactly when its first two bytes of key stream agree.
   */
  lemma UnalignedSeeks(e: Cipher, last: nat, seek: Seek, x: byte, y: byte)
    requires IsCipher(e) && seek.Valid()
    ensures Reseeked(e, last, seek, 0, [[x], [y]]) == CtrMode(e, last, Count(seek, 0), Concat([[x], [y]])) <==>
      e(seek.Ctr(0))[0] == e(seek.Ctr(0))[1]
  {
    CounterIsItself(seek);
    OneByteChunks(e, last, seek, x, y);
    OneByteAtATime(e, last, Count(seek, 0), x, y);
  }

  lemma MixCancels(data: byte, a: byte, b: byte)
    ensures Mix(data, a) == Mix(data, b) <==> a == b
  {
    assert Mix(data, Mix(data, a)) == a && Mix(data, Mix(data, b)) == b;
  }
}
