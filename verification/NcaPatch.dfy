// Replacing parts of an NCA while it streams past: re-encrypted headers and the
// patches that a content type context generated.  Each block that was read is
// patched in place before it is hashed and written, and flags remember what has
// gone out, so that later blocks are not searched again.
module NcaPatch {
  import opened Sequences

  const HEADER_SIZE: nat := 0x400
  const FULL_HEADER_SIZE: nat := 0xC00

  datatype Patch = Patch(offset: nat, data: seq<byte>) {
    function End(): nat { offset + |data| }
  }

  /** The helpers ignore a patch that is empty or does not lie inside the NCA. */
  predicate Fits(p: Patch, size: nat) { p.data != [] && p.End() <= size }

  predicate Covers(p: Patch, size: nat, pos: nat) { Fits(p, size) && p.offset <= pos < p.End() }

  /** Byte `pos` of an NCA, `clean` before the patches, after writing `ps` over it in order. */
  function Patched(ps: seq<Patch>, size: nat, pos: nat, clean: byte): byte
  {
    if ps == [] then clean
    else
      var p := ps[|ps| - 1];
      if Covers(p, size, pos) then p.data[pos - p.offset] else Patched(ps[..|ps| - 1], size, pos, clean)
  }

  lemma PatchedPush(ps: seq<Patch>, i: nat, size: nat, pos: nat, clean: byte)
    requires i < |ps|
    ensures Patched(ps[..i + 1], size, pos, clean) ==
      if Covers(ps[i], size, pos) then ps[i].data[pos - ps[i].offset] else Patched(ps[..i], size, pos, clean)
  {
    assert ps[..i + 1][..i] == ps[..i];
  }

  lemma {:induction false} PatchedAppend(a: seq<Patch>, b: seq<Patch>, size: nat, pos: nat, clean: byte)
    ensures Patched(a + b, size, pos, clean) == Patched(b, size, pos, Patched(a, size, pos, clean))
    decreases |b|
  {
    if b == [] {
      assert a + b == a;
    } else {
      assert (a + b)[..|a + b| - 1] == a + b[..|b| - 1];
      PatchedAppend(a, b[..|b| - 1], size, pos, clean);
    }
  }

  lemma {:induction false} PatchedNowhere(ps: seq<Patch>, size: nat, pos: nat, clean: byte)
    requires forall p :: p in ps ==> !Covers(p, size, pos)
    ensures Patched(ps, size, pos, clean) == clean
    decreases |ps|
  {
    if ps != [] {
      assert ps[|ps| - 1] in ps;
      PatchedNowhere(ps[..|ps| - 1], size, pos, clean);
    }
  }

  /** Of the patches that cover a byte the last one wins. */
  lemma {:induction false} LastPatchWins(ps: seq<Patch>, i: nat, size: nat, pos: nat, clean: byte)
    requires i < |ps| && Covers(ps[i], size, pos) && forall j :: i < j < |ps| ==> !Covers(ps[j], size, pos)
    ensures Patched(ps, size, pos, clean) == ps[i].data[pos - ps[i].offset]
    decreases |ps|
  {
    if i < |ps| - 1 {
      LastPatchWins(ps[..|ps| - 1], i, size, pos, clean);
    }
  }

  /** The whole NCA after patching in one go, the reference for the streamed form. */
  function Overlaid(ps: seq<Patch>, clean: seq<byte>): (r: seq<byte>)
    ensures |r| == |clean|
  {
    seq(|clean|, k requires 0 <= k < |clean| => Patched(ps, |clean|, k, clean[k]))
  }

  /** True once the last byte of the patch is in a block; `buf` holds `n` bytes read at `at`. */
  method WritePatch(p: Patch, size: nat, buf: array<byte>, n: nat, at: nat) returns (complete: bool)
    requires n <= buf.Length
    modifies buf
    ensures forall k :: 0 <= k < n ==>
      buf[k] == if Covers(p, size, at + k) then p.data[at + k - p.offset] else old(buf[k])
    ensures forall k :: n <= k < buf.Length ==> buf[k] == old(buf[k])
    ensures complete <==> Fits(p, size) && at < p.End() <= at + n
  {
    if p.data == [] || p.End() > size || at + n <= p.offset || p.End() <= at {
      return false;
    }
    var patchBlock := if p.offset < at then at - p.offset else 0;
    var patchRemaining := |p.data| - patchBlock;
    var bufBlock := if at < p.offset then p.offset - at else 0;
    var bufRemaining := n - bufBlock;
    var block := if bufRemaining < patchRemaining then bufRemaining else patchRemaining;
    forall j | 0 <= j < block {
      buf[bufBlock + j] := p.data[patchBlock + j];
    }
    forall k | 0 <= k < n
      ensures buf[k] == if Covers(p, size, at + k) then p.data[at + k - p.offset] else old(buf[k])
    {
      if bufBlock <= k < bufBlock + block {
        assert buf[bufBlock + (k - bufBlock)] == p.data[patchBlock + (k - bufBlock)];
      }
    }
    return patchBlock + block == |p.data|;
  }

  /** A patch is flagged once its last byte has gone out. */
  predicate Flags(written: seq<bool>, ps: seq<Patch>, size: nat, at: nat)
  {
    |written| == |ps| && forall i :: 0 <= i < |ps| ==> (written[i] <==> Fits(ps[i], size) && ps[i].End() <= at)
  }

  predicate AllSet(written: seq<bool>) { forall i :: 0 <= i < |written| ==> written[i] }

  /** What one NCA has to have replaced and how far that has come. */
  class NcaWriter {
    const size: nat
    const header: Patch                // the encrypted NCA header
    const fsHeaders: seq<Patch>        // the encrypted headers of the enabled FS sections
    const regions: seq<Patch>          // the hash regions of the content type context's patch
    var headerWritten: bool
    var fsWritten: seq<bool>
    var regionsWritten: seq<bool>
    var contextPatch: bool             // a context patch exists and is not completely written

    constructor (size: nat, header: Patch, fsHeaders: seq<Patch>, regions: seq<Patch>)
      requires WellPlaced(size, header, fsHeaders)
      ensures this.size == size && this.header == header && this.fsHeaders == fsHeaders && this.regions == regions
      ensures Valid(0)
    {
      this.size, this.header, this.fsHeaders, this.regions := size, header, fsHeaders, regions;
      headerWritten, fsWritten := false, seq(|fsHeaders|, i => false);
      regionsWritten, contextPatch := seq(|regions|, i => false), regions != [];
      new;
      assert regions != [] ==> !regionsWritten[0];
    }

    /** All that replaces something, in the order it is written over a block. */
    function All(): seq<Patch> { [header] + fsHeaders + regions }

    /** With everything before position `at` gone out, the flags say exactly what has been replaced. */
    ghost predicate Valid(at: nat)
      reads this
    {
      HeadersValid(at) && RegionsValid(at)
    }

    ghost predicate HeadersValid(at: nat)
      reads this`headerWritten, this`fsWritten
    {
      WellPlaced(size, header, fsHeaders) && Flags(fsWritten, fsHeaders, size, at) &&
      (headerWritten <==> HEADER_SIZE <= at && AllSet(fsWritten))
    }

    ghost predicate RegionsValid(at: nat)
      reads this`contextPatch, this`regionsWritten
    {
      Flags(regionsWritten, regions, size, at) && (!contextPatch <==> AllSet(regionsWritten))
    }

    /** Replace header bytes in a block; a header that is cut by the block keeps the rest waiting. */
    method WriteHeaders(buf: array<byte>, n: nat, at: nat)
      requires HeadersValid(at) && 0 < n <= buf.Length && at + n <= size
      modifies this`headerWritten, this`fsWritten, buf
      ensures HeadersValid(at + n)
      ensures forall k :: 0 <= k < n ==> buf[k] == Patched([header] + fsHeaders, size, at + k, old(buf[k]))
      ensures forall k :: n <= k < buf.Length ==> buf[k] == old(buf[k])
    {
      ghost var was := buf[..];
      if headerWritten {
        NothingFrom([header] + fsHeaders, size, at, was, n);
        return;
      }
      headerWritten := true;
      if at < HEADER_SIZE {
        var complete := WritePatch(header, size, buf, n, at);
        if !complete {
          headerWritten := false;
          OnlyHeader(at, n, was);
          assert forall i :: 0 <= i < |fsHeaders| ==> fsHeaders[i] in fsHeaders;
          return;
        }
      }
      ghost var mid := buf[..];
      WriteFsHeaders(buf, n, at);
      forall k | 0 <= k < n ensures buf[k] == Patched([header] + fsHeaders, size, at + k, was[k]) {
        PatchedAppend([header], fsHeaders, size, at + k, was[k]);
        assert [header][..0] == [];
        assert mid[k] == Patched([header], size, at + k, was[k]);
      }
    }

    /** The second half of the above; the header flag survives if nothing is left to write. */
    method WriteFsHeaders(buf: array<byte>, n: nat, at: nat)
      requires Flags(fsWritten, fsHeaders, size, at)
      requires headerWritten && 0 < n <= buf.Length && at + n <= size
      modifies this`headerWritten, this`fsWritten, buf
      ensures Flags(fsWritten, fsHeaders, size, at + n)
      ensures headerWritten <==> AllSet(fsWritten)
      ensures forall k :: 0 <= k < n ==> buf[k] == Patched(fsHeaders, size, at + k, old(buf[k]))
      ensures forall k :: n <= k < buf.Length ==> buf[k] == old(buf[k])
    {
      ghost var was := buf[..];
      for i := 0 to |fsHeaders|
        invariant |fsWritten| == |fsHeaders|
        invariant forall j :: 0 <= j < |fsHeaders| ==>
          (fsWritten[j] <==> Fits(fsHeaders[j], size) && fsHeaders[j].End() <= if j < i then at + n else at)
        invariant headerWritten <==> forall j :: 0 <= j < i ==> fsWritten[j]
        invariant forall k :: 0 <= k < n ==> buf[k] == Patched(fsHeaders[..i], size, at + k, was[k])
        invariant forall k :: n <= k < buf.Length ==> buf[k] == was[k]
      {
        ghost var before := buf[..];
        if !fsWritten[i] {
          var complete := WritePatch(fsHeaders[i], size, buf, n, at);
          fsWritten := fsWritten[i := complete];
          if !complete {
            headerWritten := false;
          }
        }
        forall k | 0 <= k < n ensures buf[k] == Patched(fsHeaders[..i + 1], size, at + k, was[k]) {
          PatchedPush(fsHeaders, i, size, at + k, was[k]);
          assert before[k] == Patched(fsHeaders[..i], size, at + k, was[k]);
        }
      }
      assert fsHeaders[..|fsHeaders|] == fsHeaders;
    }

    lemma OnlyHeader(at: nat, n: nat, was: seq<byte>)
      requires WellPlaced(size, header, fsHeaders) && n <= |was|
      requires at < HEADER_SIZE && at + n < HEADER_SIZE
      ensures forall k :: 0 <= k < n ==>
        Patched([header] + fsHeaders, size, at + k, was[k]) ==
        if Covers(header, size, at + k) then header.data[at + k - header.offset] else was[k]
    {
      forall k | 0 <= k < n
        ensures Patched([header] + fsHeaders, size, at + k, was[k]) ==
          if Covers(header, size, at + k) then header.data[at + k - header.offset] else was[k]
      {
        PatchedAppend([header], fsHeaders, size, at + k, was[k]);
        PatchedNowhere(fsHeaders, size, at + k, Patched([header], size, at + k, was[k]));
        assert [header][..0] == [];
      }
    }

    /** Replace the bytes of the context's patch in a block. */
    method WriteRegions(buf: array<byte>, n: nat, at: nat)
      requires RegionsValid(at) && contextPatch && 0 < n <= buf.Length && at + n <= size
      modifies this`regionsWritten, this`contextPatch, buf
      ensures RegionsValid(at + n)
      ensures forall k :: 0 <= k < n ==> buf[k] == Patched(regions, size, at + k, old(buf[k]))
      ensures forall k :: n <= k < buf.Length ==> buf[k] == old(buf[k])
    {
      ghost var was := buf[..];
      var written := true;
      for i := 0 to |regions|
        invariant |regionsWritten| == |regions|
        invariant forall j :: 0 <= j < |regions| ==>
          (regionsWritten[j] <==> Fits(regions[j], size) && regions[j].End() <= if j < i then at + n else at)
        invariant written <==> forall j :: 0 <= j < i ==> regionsWritten[j]
        invariant forall k :: 0 <= k < n ==> buf[k] == Patched(regions[..i], size, at + k, was[k])
        invariant forall k :: n <= k < buf.Length ==> buf[k] == was[k]
      {
        ghost var before := buf[..];
        if !regionsWritten[i] {
          var complete := WritePatch(regions[i], size, buf, n, at);
          regionsWritten := regionsWritten[i := complete];
          if !complete {
            written := false;
          }
        }
        forall k | 0 <= k < n ensures buf[k] == Patched(regions[..i + 1], size, at + k, was[k]) {
          PatchedPush(regions, i, size, at + k, was[k]);
          assert before[k] == Patched(regions[..i], size, at + k, was[k]);
        }
      }
      assert regions[..|regions|] == regions;
      contextPatch := !written;
    }

    /** All that happens to a block of an NCA whose header was changed. */
    method Replace(buf: array<byte>, n: nat, at: nat) returns (dirty: bool)
      requires Valid(at) && 0 < n <= buf.Length && at + n <= size
      modifies this, buf
      ensures Valid(at + n)
      ensures forall k :: 0 <= k < n ==> buf[k] == Patched(All(), size, at + k, old(buf[k]))
      ensures dirty <==> !Finished()
    {
      ghost var was := buf[..];
      if !headerWritten {
        WriteHeaders(buf, n, at);
      } else {
        NothingFrom([header] + fsHeaders, size, at, was, n);
      }
      ghost var mid := buf[..];
      if contextPatch {
        WriteRegions(buf, n, at);
      } else {
        NothingFrom(regions, size, at, mid, n);
      }
      forall k | 0 <= k < n ensures buf[k] == Patched(All(), size, at + k, was[k]) {
        PatchedAppend([header] + fsHeaders, regions, size, at + k, was[k]);
        assert mid[k] == Patched([header] + fsHeaders, size, at + k, was[k]);
      }
      return !headerWritten || contextPatch;
    }

    predicate Finished()
      reads this
    {
      headerWritten && !contextPatch
    }

    /** Once finished, later blocks go out as they were read. */
    lemma FinishedChangesNothing(at: nat, was: seq<byte>, n: nat)
      requires Valid(at) && Finished() && n <= |was|
      ensures forall k :: 0 <= k < n ==> Patched(All(), size, at + k, was[k]) == was[k]
    {
      NothingFrom(All(), size, at, was, n);
    }
  }

  predicate WellPlaced(size: nat, header: Patch, fsHeaders: seq<Patch>)
  {
    header.offset == 0 && |header.data| == HEADER_SIZE && FULL_HEADER_SIZE <= size &&
    forall p :: p in fsHeaders ==> p.offset >= HEADER_SIZE
  }

  /** Patches that end at or before `at` change nothing of a block read there. */
  lemma NothingFrom(ps: seq<Patch>, size: nat, at: nat, was: seq<byte>, n: nat)
    requires n <= |was| && forall p :: p in ps ==> p.End() <= at
    ensures forall k :: 0 <= k < n ==> Patched(ps, size, at + k, was[k]) == was[k]
  {
    forall k | 0 <= k < n ensures Patched(ps, size, at + k, was[k]) == was[k] {
      PatchedNowhere(ps, size, at + k, was[k]);
    }
  }
}
