// The content meta file: how its records are laid out in bytes, how an update
// changes them in place, and how the whole file is put over its old bytes in the
// encrypted section of the Meta NCA.
module NspCnmt {
  import opened Sequences
  import opened Words
  import opened LittleEndian
  import Align
  import opened NcaPatch
  import opened NspModel

  // ------------------------------------------------------------ one record

  /** A packaged content record: hash, content ID, 40-bit size, attributes, type and ID offset. */
  const RECORD_SIZE: nat := 56
  const SIZE_BYTES: nat := 5

  function KindCode(k: Kind): nat
  {
    match k
    case Meta => 0
    case Program => 1
    case Control => 3
    case LegalInformation => 5
    case OtherKind(code) => code
  }

  function KindOf(code: nat): Kind
  {
    match code
    case 0 => Meta
    case 1 => Program
    case 3 => Control
    case 5 => LegalInformation
    case _ => OtherKind(code)
  }

  /** A record whose fields have the sizes that the file gives them. */
  predicate Encodable(r: Record)
  {
    |r.hash| == HASH_SIZE && |r.id| == ID_SIZE && r.size < Pow256(SIZE_BYTES) && r.idOffset < 256 &&
    KindCode(r.kind) < 256 && KindOf(KindCode(r.kind)) == r.kind
  }

  predicate AllEncodable(rs: seq<Record>) { forall i :: 0 <= i < |rs| ==> Encodable(rs[i]) }

  function Encode(r: Record): (bytes: seq<byte>)
    ensures Encodable(r) ==> |bytes| == RECORD_SIZE
  {
    r.hash + r.id + (Little(r.size, SIZE_BYTES) + [r.attributes, ByteOf(KindCode(r.kind) % 256), ByteOf(r.idOffset % 256)])
  }

  function Decode(bytes: seq<byte>): Record
    requires |bytes| == RECORD_SIZE
  {
    Record(KindOf(NatOf(bytes[54])), Number(bytes[48..53]), NatOf(bytes[55]), bytes[32..48], bytes[..32], bytes[53])
  }

  lemma DecodeEncode(r: Record)
    requires Encodable(r)
    ensures Decode(Encode(r)) == r
  {
    hide ByteOf, NatOf, Little, Number, Pow256;
    NumberOfLittle(r.size, SIZE_BYTES);
    NatOfByte(KindCode(r.kind) % 256);
    NatOfByte(r.idOffset % 256);
    Fields(r.hash, r.id, Little(r.size, SIZE_BYTES),
      [r.attributes, ByteOf(KindCode(r.kind) % 256), ByteOf(r.idOffset % 256)]);
  }

  lemma Fields(hash: Hash, id: Id, size: seq<byte>, rest: seq<byte>)
    requires |hash| == HASH_SIZE && |id| == ID_SIZE && |size| == SIZE_BYTES && |rest| == 3
    ensures var bytes := hash + id + (size + rest);
      bytes[..32] == hash && bytes[32..48] == id && bytes[48..53] == size &&
      bytes[53] == rest[0] && bytes[54] == rest[1] && bytes[55] == rest[2]
  {
  }

  /** Which records have a place in the file: 40 bits of size, and of the types every byte but the four named ones. */
  lemma EncodableIs(r: Record)
    ensures Encodable(r) <==>
      |r.hash| == 32 && |r.id| == 16 && r.size < 0x100_0000_0000 && r.idOffset < 256 &&
      (r.kind.OtherKind? ==> r.kind.code < 256 && r.kind.code !in [0, 1, 3, 5])
  {
    assert Pow256(5) == 0x100_0000_0000 by { FortyBits(); }
    hide Pow256;
  }

  lemma FortyBits()
    ensures Pow256(5) == 0x100_0000_0000
  {
    assert Pow256(4) == 0x1_0000_0000;
  }

  /** Where the fields are. */
  lemma RecordLayout(r: Record)
    requires Encodable(r)
    ensures var bytes := Encode(r);
      |bytes| == 56 && bytes[..32] == r.hash && bytes[32..48] == r.id && Number(bytes[48..53]) == r.size &&
      bytes[53] == r.attributes && NatOf(bytes[55]) == r.idOffset &&
      NatOf(bytes[54]) ==
        match r.kind { case Meta => 0 case Program => 1 case Control => 3 case LegalInformation => 5 case OtherKind(c) => c }
  {
    hide ByteOf, NatOf, Little, Number, Pow256;
    NumberOfLittle(r.size, SIZE_BYTES);
    NatOfByte(KindCode(r.kind) % 256);
    NatOfByte(r.idOffset % 256);
    Fields(r.hash, r.id, Little(r.size, SIZE_BYTES),
      [r.attributes, ByteOf(KindCode(r.kind) % 256), ByteOf(r.idOffset % 256)]);
  }

  // ------------------------------------------------------- the whole file

  function Xor(a: byte, b: byte): byte { a ^ b }

  function EncodeAll(rs: seq<Record>): (bytes: seq<byte>)
    ensures AllEncodable(rs) ==> |bytes| == RECORD_SIZE * |rs|
  {
    if rs == [] then [] else Encode(rs[0]) + EncodeAll(rs[1..])
  }

  function DecodeAll(bytes: seq<byte>, n: nat): seq<Record>
    requires RECORD_SIZE * n <= |bytes|
  {
    if n == 0 then [] else [Decode(bytes[..RECORD_SIZE])] + DecodeAll(bytes[RECORD_SIZE..], n - 1)
  }

  lemma {:induction false} DecodeEncodeAll(rs: seq<Record>, rest: seq<byte>)
    requires AllEncodable(rs)
    ensures DecodeAll(EncodeAll(rs) + rest, |rs|) == rs
  {
    hide Encode, Decode, Encodable;
    if rs != [] {
      DecodeEncode(rs[0]);
      DecodeEncodeAll(rs[1..], rest);
      var first, others := Encode(rs[0]), EncodeAll(rs[1..]) + rest;
      assert EncodeAll(rs) + rest == first + others;
      assert (first + others)[..RECORD_SIZE] == first && (first + others)[RECORD_SIZE..] == others;
    }
  }

  /**
   * What surrounds the records, where the file is in the Meta NCA, and the key
   * stream there; the bytes in front of the records and behind them never change.
   */
  datatype Cnmt = Cnmt(head: seq<byte>, tail: seq<byte>, at: nat, stream: nat -> byte) {
    function Raw(rs: seq<Record>): (bytes: seq<byte>)
      ensures AllEncodable(rs) ==> |bytes| == Size(|rs|)
    {
      head + EncodeAll(rs) + tail
    }

    function Size(n: nat): nat { |head| + RECORD_SIZE * n + |tail| }

    /** The file as it is found in an NCA. */
    function Plain(nca: seq<byte>, n: nat): (bytes: seq<byte>)
      requires at + Size(n) <= |nca|
      ensures |bytes| == Size(n)
      ensures forall k :: 0 <= k < Size(n) ==> bytes[k] == Xor(nca[at + k], stream(at + k))
    {
      seq(Size(n), k requires 0 <= k < Size(n) => Xor(nca[at + k], stream(at + k)))
    }

    /** The records as they are found in an NCA. */
    function RecordsIn(nca: seq<byte>, n: nat): seq<Record>
      requires at + Size(n) <= |nca|
    {
      DecodeAll(Plain(nca, n)[|head|..], n)
    }
  }

  /** An NCA that holds the file with some records gives them back. */
  lemma RecordsAreIn(c: Cnmt, nca: seq<byte>, rs: seq<Record>)
    requires AllEncodable(rs) && c.at + c.Size(|rs|) <= |nca| && c.Plain(nca, |rs|) == c.Raw(rs)
    ensures c.RecordsIn(nca, |rs|) == rs
  {
    assert c.Raw(rs)[|c.head|..] == EncodeAll(rs) + c.tail;
    DecodeEncodeAll(rs, c.tail);
  }

  /** The bytes `with` written over those of `bytes` from `at` on. */
  function Written(bytes: seq<byte>, at: nat, with: seq<byte>): (r: seq<byte>)
    requires at + |with| <= |bytes|
  {
    bytes[..at] + with + bytes[at + |with|..]
  }

  lemma {:induction false} RecordWritten(rs: seq<Record>, i: nat, r: Record)
    requires i < |rs| && AllEncodable(rs) && Encodable(r)
    requires r == rs[i].(id := r.id, hash := r.hash)
    ensures AllEncodable(rs[i := r])
    ensures EncodeAll(rs[i := r]) == Written(EncodeAll(rs), RECORD_SIZE * i, r.hash + r.id)
  {
    hide Written, Encode;
    if i == 0 {
      FirstWritten(rs, r);
    } else {
      var front, rest := Encode(rs[0]), EncodeAll(rs[1..]);
      assert rs[i := r][0] == rs[0] && rs[i := r][1..] == rs[1..][i - 1 := r];
      assert |front| == RECORD_SIZE && Encodable(rs[0]);
      RecordWritten(rs[1..], i - 1, r);
      hide Encodable, EncodeAll;
      WrittenBehind(front, rest, RECORD_SIZE * (i - 1), r.hash + r.id);
    }
  }

  lemma FirstWritten(rs: seq<Record>, r: Record)
    requires rs != [] && AllEncodable(rs) && Encodable(r) && r == rs[0].(id := r.id, hash := r.hash)
    ensures EncodeAll(rs[0 := r]) == Written(EncodeAll(rs), 0, r.hash + r.id)
  {
    hide Written, Encode;
    assert rs[0 := r][1..] == rs[1..] && rs[0 := r][0] == r;
    FieldsWritten(rs[0], r);
    assert Encodable(rs[0]);
    WrittenBefore(Encode(rs[0]), EncodeAll(rs[1..]), 0, r.hash + r.id);
  }

  lemma FieldsWritten(was: Record, r: Record)
    requires Encodable(was) && Encodable(r) && r == was.(id := r.id, hash := r.hash)
    ensures Encode(r) == Written(Encode(was), 0, r.hash + r.id)
  {
    hide ByteOf, NatOf, Little, Pow256;
    SameEnd(was.hash + was.id, r.hash + r.id,
      Little(r.size, SIZE_BYTES) + [r.attributes, ByteOf(KindCode(r.kind) % 256), ByteOf(r.idOffset % 256)]);
  }

  lemma SameEnd(a: seq<byte>, b: seq<byte>, end: seq<byte>)
    requires |a| == |b|
    ensures b + end == Written(a + end, 0, b)
  {
  }

  lemma WrittenBehind(front: seq<byte>, bytes: seq<byte>, at: nat, with: seq<byte>)
    requires at + |with| <= |bytes|
    ensures front + Written(bytes, at, with) == Written(front + bytes, |front| + at, with)
  {
  }

  lemma WrittenBefore(bytes: seq<byte>, rest: seq<byte>, at: nat, with: seq<byte>)
    requires at + |with| <= |bytes|
    ensures Written(bytes, at, with) + rest == Written(bytes + rest, at, with)
  {
  }

  /**
   * Updating a record changes the file in place: the new hash and the new content ID
   * are copied over the old ones, and every other byte stays.
   */
  lemma UpdateIsInPlace(c: Cnmt, rs: seq<Record>, i: nat, id: Id, hash: Hash)
    requires i < |rs| && AllEncodable(rs) && |id| == ID_SIZE && |hash| == HASH_SIZE
    ensures AllEncodable(rs[i := rs[i].(id := id, hash := hash)])
    ensures c.Raw(rs[i := rs[i].(id := id, hash := hash)]) ==
      Written(c.Raw(rs), |c.head| + RECORD_SIZE * i, hash + id)
  {
    var r, bytes := rs[i].(id := id, hash := hash), EncodeAll(rs);
    assert Encodable(rs[i]) && RECORD_SIZE * i + RECORD_SIZE <= |bytes|;
    hide EncodeAll, AllEncodable, Encode, Written;
    RecordWritten(rs, i, r);
    WrittenInside(c.head, bytes, c.tail, RECORD_SIZE * i, hash + id);
  }

  lemma WrittenInside(head: seq<byte>, bytes: seq<byte>, tail: seq<byte>, at: nat, with: seq<byte>)
    requires at + |with| <= |bytes|
    ensures head + Written(bytes, at, with) + tail == Written(head + bytes + tail, |head| + at, with)
  {
    hide Written;
    WrittenBehind(head, bytes, at, with);
    WrittenBefore(head + bytes, tail, |head| + at, with);
  }

  // -------------------------------------------------------------- the patch

  const AES_BLOCK: nat := 16

  /** The least multiple of the AES block size that is not below `n`. */
  function RoundUp(n: nat): (r: nat)
    ensures n <= r < n + AES_BLOCK && r % AES_BLOCK == 0
  {
    if n % AES_BLOCK == 0 then n else n - n % AES_BLOCK + AES_BLOCK
  }

  /** It is what the alignment macro gives, as long as that has room for it. */
  lemma RoundUpIsAlignUp(n: nat)
    requires n <= Align.Pow2(64) - AES_BLOCK
    ensures RoundUp(n) == Align.AlignUp(64, n, AES_BLOCK)
  {
    hide RoundUp, Align.AlignUp, Align.Pow2;
    assert Align.Pow2(4) == AES_BLOCK by { FourBits(); }
    Align.AlignUpIsCeiling(64, n, 4);
    var up := Align.AlignUp(64, n, AES_BLOCK);
    assert Align.IsCeiling(up, n, AES_BLOCK);
    assert Align.IsMultiple(RoundUp(n), AES_BLOCK) && up <= RoundUp(n);
  }

  lemma FourBits()
    ensures Align.Pow2(4) == AES_BLOCK
  {
  }

  /**
   * What puts `data` at `at`: whole AES blocks are decrypted, changed where the data
   * goes, and encrypted again with the key stream of the same place.
   */
  function DataPatch(stream: nat -> byte, clean: seq<byte>, at: nat, data: seq<byte>): (p: Patch)
    requires RoundUp(at + |data|) <= |clean|
    ensures p.offset <= at < p.offset + 16 && p.offset % 16 == 0 && p.End() % 16 == 0
    ensures at + |data| <= p.End() < at + |data| + 16 && p.End() <= |clean|
    ensures forall pos :: p.offset <= pos < p.End() ==>
      p.data[pos - p.offset] == if at <= pos < at + |data| then Xor(data[pos - at], stream(pos)) else clean[pos]
  {
    var start := at - at % AES_BLOCK;
    Patch(start, seq(RoundUp(at + |data|) - start, k requires 0 <= k < RoundUp(at + |data|) - start =>
      if at <= start + k < at + |data| then Xor(data[start + k - at], stream(start + k)) else clean[start + k]))
  }

  /** Decrypted again, the patched NCA has the data where it was put. */
  lemma DataIsPut(c: Cnmt, clean: seq<byte>, rs: seq<Record>, others: seq<Patch>)
    requires AllEncodable(rs) && RoundUp(c.at + c.Size(|rs|)) <= |clean| && c.Size(|rs|) > 0
    ensures c.Plain(Overlaid(others + [DataPatch(c.stream, clean, c.at, c.Raw(rs))], clean), |rs|) == c.Raw(rs)
  {
    hide Xor, RoundUp, Overlaid, DataPatch, EncodeAll, AllEncodable;
    var out := Overlaid(others + [DataPatch(c.stream, clean, c.at, c.Raw(rs))], clean);
    forall k | 0 <= k < c.Size(|rs|) ensures c.Plain(out, |rs|)[k] == c.Raw(rs)[k] {
      ByteIsPut(c.stream, clean, c.at, c.Raw(rs), others, k);
      Twice(c.Raw(rs)[k], c.stream(c.at + k));
    }
  }

  lemma ByteIsPut(stream: nat -> byte, clean: seq<byte>, at: nat, data: seq<byte>, others: seq<Patch>, k: nat)
    requires RoundUp(at + |data|) <= |clean| && k < |data|
    ensures Overlaid(others + [DataPatch(stream, clean, at, data)], clean)[at + k] == Xor(data[k], stream(at + k))
  {
    hide Xor, RoundUp, DataPatch;
    var p := DataPatch(stream, clean, at, data);
    assert Covers(p, |clean|, at + k);
  }

  lemma Twice(x: byte, s: byte)
    ensures Xor(Xor(x, s), s) == x
  {
  }

  /** Patches elsewhere leave the file as it was. */
  lemma DataIsKept(c: Cnmt, clean: seq<byte>, n: nat, others: seq<Patch>)
    requires c.at + c.Size(n) <= |clean| && forall p :: p in others ==> p.End() <= c.at
    ensures c.Plain(Overlaid(others, clean), n) == c.Plain(clean, n)
  {
    forall k | 0 <= k < c.Size(n) ensures c.Plain(Overlaid(others, clean), n)[k] == c.Plain(clean, n)[k] {
      PatchedNowhere(others, |clean|, c.at + k, clean[c.at + k]);
    }
  }
}
