// The extracted RomFS dump: the walk along the packed table of file entries, and
// what the dump of the files it finds leaves on the device.
module RomFsDump {
  import opened Options
  import opened Sequences
  import opened DumpMachine
  import opened ExtractedDump
  import A = Align

  const ENTRY_SIZE: nat := 0x20
  const ALIGNMENT_BITS: nat := 2

  /** `updated`: whether a patch brings the file, if that can be told. */
  datatype FileEntry = FileEntry(path: Path, nameLength: nat, data: seq<byte>, updated: Option<bool>)

  /**
   * The table: its size, and the entry that the bytes at an offset would spell;
   * `word` is the width of a size, `patch` tells whether it is that of a patch.
   */
  datatype Table = Table(word: nat, size: nat, read: nat -> FileEntry, patch: bool)

  /** A 32-bit name length never makes the rounding overflow a 64-bit size. */
  ghost predicate NamesFit(t: Table)
  {
    ALIGNMENT_BITS < t.word && forall o :: NameFits(t.word, t.read(o))
  }

  predicate NameFits(word: nat, e: FileEntry)
  {
    ENTRY_SIZE + e.nameLength + A.Pow2(ALIGNMENT_BITS) <= A.Pow2(word)
  }

  /** How far the next entry is from this one. */
  function Stride(word: nat, e: FileEntry): (r: nat)
    requires ALIGNMENT_BITS < word && NameFits(word, e)
    ensures r % 4 == 0 && 0x20 + e.nameLength <= r < 0x20 + e.nameLength + 4
  {
    StrideIs(word, e);
    A.AlignUp(word, ENTRY_SIZE + e.nameLength, A.Pow2(ALIGNMENT_BITS))
  }

  /** The least aligned distance that leaves room for the entry and its name. */
  lemma StrideIs(word: nat, e: FileEntry)
    requires ALIGNMENT_BITS < word && NameFits(word, e)
    ensures A.Pow2(ALIGNMENT_BITS) < A.Pow2(word)
    ensures A.IsCeiling(A.AlignUp(word, ENTRY_SIZE + e.nameLength, A.Pow2(ALIGNMENT_BITS)), ENTRY_SIZE + e.nameLength,
              A.Pow2(ALIGNMENT_BITS))
    ensures var r := A.AlignUp(word, ENTRY_SIZE + e.nameLength, A.Pow2(ALIGNMENT_BITS));
      r % 4 == 0 && 0x20 + e.nameLength <= r < 0x20 + e.nameLength + 4
  {
    var size := ENTRY_SIZE + e.nameLength;
    A.AlignUpIsCeiling(word, size, ALIGNMENT_BITS);
    hide A.AlignUp;
    assert A.Pow2(ALIGNMENT_BITS) == 4;
    var next := size + (3 - (size + 3) % 4);
    assert A.IsMultiple(next, 4) && size <= next < size + 4;
  }

  /** The entries from an offset on; None if the last one is cut off by the table's end. */
  ghost function EntriesFrom(t: Table, offset: nat): Option<seq<FileEntry>>
    requires NamesFit(t)
    decreases t.size - offset
  {
    if offset >= t.size then Some([])
    else if offset + ENTRY_SIZE > t.size then None
    else
      assert NameFits(t.word, t.read(offset));
      match EntriesFrom(t, offset + Stride(t.word, t.read(offset)))
      case None => None
      case Some(rest) => Some([t.read(offset)] + rest)
  }

  /** The sum of the file sizes, or only of those that a patch brings. */
  function Total(entries: seq<FileEntry>, onlyUpdated: bool): nat
  {
    if entries == [] then 0
    else
      var e := entries[|entries| - 1];
      Total(entries[..|entries| - 1], onlyUpdated) + if Counts(e, onlyUpdated) then |e.data| else 0
  }

  predicate Counts(e: FileEntry, onlyUpdated: bool) { onlyUpdated ==> e.updated == Some(true) }

  predicate AllKnown(entries: seq<FileEntry>, onlyUpdated: bool)
  {
    onlyUpdated ==> forall e :: e in entries ==> e.updated.Some?
  }

  /** The walk, with the sum of the file sizes; it ends on any table, well formed or not. */
  method Walk(t: Table, onlyUpdated: bool) returns (ok: bool, entries: seq<FileEntry>, total: nat)
    requires NamesFit(t)
    ensures ok <==> (onlyUpdated ==> t.patch) && EntriesFrom(t, 0).Some? && AllKnown(EntriesFrom(t, 0).value, onlyUpdated)
    ensures ok ==> Some(entries) == EntriesFrom(t, 0) && total == Total(entries, onlyUpdated)
  {
    hide Total, AllKnown, EntriesFrom, Prepended;
    var offset: nat := 0;
    entries, total := [], 0;
    NoEntries(onlyUpdated);
    if onlyUpdated && !t.patch {
      return false, entries, total;
    }
    NothingPrepended(EntriesFrom(t, 0));
    while offset < t.size
      invariant total == Total(entries, onlyUpdated) && AllKnown(entries, onlyUpdated)
      invariant EntriesFrom(t, 0) == Prepended(entries, EntriesFrom(t, offset))
      decreases t.size - offset
    {
      if offset + ENTRY_SIZE > t.size {
        CutOff(t, offset, entries);
        return false, entries, total;
      }
      var e := t.read(offset);
      assert NameFits(t.word, e);
      PrependedNext(t, offset, entries);
      if onlyUpdated && e.updated.None? {
        UnknownStays(entries, e, EntriesFrom(t, offset + Stride(t.word, e)));
        return false, entries, total;
      }
      KnownPush(entries, e, onlyUpdated);
      TotalPush(entries, e, onlyUpdated);
      entries := entries + [e];
      if !onlyUpdated || e.updated.value {
        total := total + |e.data|;
      }
      StrideIs(t.word, e);
      offset := offset + A.AlignUp(t.word, ENTRY_SIZE + e.nameLength, A.Pow2(ALIGNMENT_BITS));
    }
    AtEnd(t, offset, entries);
    ok := true;
  }

  lemma NoEntries(onlyUpdated: bool)
    ensures AllKnown([], onlyUpdated) && Total([], onlyUpdated) == 0
  {
  }

  lemma KnownPush(entries: seq<FileEntry>, e: FileEntry, onlyUpdated: bool)
    requires AllKnown(entries, onlyUpdated) && (onlyUpdated ==> e.updated.Some?)
    ensures AllKnown(entries + [e], onlyUpdated)
  {
  }

  lemma UnknownStays(entries: seq<FileEntry>, e: FileEntry, rest: Option<seq<FileEntry>>)
    requires e.updated.None?
    ensures var all := Prepended(entries + [e], rest); all.Some? ==> !AllKnown(all.value, true)
  {
    if rest.Some? {
      assert (entries + [e] + rest.value)[|entries|] == e;
    }
  }

  function Prepended(entries: seq<FileEntry>, rest: Option<seq<FileEntry>>): Option<seq<FileEntry>>
  {
    if rest.None? then None else Some(entries + rest.value)
  }

  lemma NothingPrepended(rest: Option<seq<FileEntry>>)
    ensures Prepended([], rest) == rest
  {
    assert rest.Some? ==> [] + rest.value == rest.value;
  }

  lemma AtEnd(t: Table, offset: nat, entries: seq<FileEntry>)
    requires NamesFit(t) && offset >= t.size
    ensures Prepended(entries, EntriesFrom(t, offset)) == Some(entries)
  {
    assert entries + [] == entries;
  }

  lemma CutOff(t: Table, offset: nat, entries: seq<FileEntry>)
    requires NamesFit(t) && offset < t.size < offset + ENTRY_SIZE
    ensures Prepended(entries, EntriesFrom(t, offset)).None?
  {
  }

  lemma PrependedNext(t: Table, offset: nat, entries: seq<FileEntry>)
    requires NamesFit(t) && offset + ENTRY_SIZE <= t.size && NameFits(t.word, t.read(offset))
    ensures Prepended(entries, EntriesFrom(t, offset)) ==
      Prepended(entries + [t.read(offset)], EntriesFrom(t, offset + Stride(t.word, t.read(offset))))
  {
    var next := EntriesFrom(t, offset + Stride(t.word, t.read(offset)));
    if next.Some? {
      assert entries + ([t.read(offset)] + next.value) == entries + [t.read(offset)] + next.value;
    }
  }

  lemma TotalPush(entries: seq<FileEntry>, e: FileEntry, onlyUpdated: bool)
    ensures Total(entries + [e], onlyUpdated) == Total(entries, onlyUpdated) + if Counts(e, onlyUpdated) then |e.data| else 0
  {
    assert (entries + [e])[..|entries|] == entries;
  }

  // ----------------------------------------------------------- packed tables

  /** The table holds these entries from `offset` to its end, one after the other, and nothing else. */
  predicate Packed(t: Table, offset: nat, entries: seq<FileEntry>)
    requires ALIGNMENT_BITS < t.word
    decreases |entries|
  {
    if entries == [] then offset == t.size
    else
      t.read(offset) == entries[0] && NameFits(t.word, entries[0]) &&
      offset + Stride(t.word, entries[0]) <= t.size &&
      Packed(t, offset + Stride(t.word, entries[0]), entries[1..])
  }

  /** On a packed table the walk visits exactly the entry boundaries and comes out at the end. */
  lemma {:induction false} PackedIsVisited(t: Table, offset: nat, entries: seq<FileEntry>)
    requires NamesFit(t) && Packed(t, offset, entries)
    ensures EntriesFrom(t, offset) == Some(entries)
    decreases |entries|
  {
    if entries != [] {
      PackedIsVisited(t, offset + Stride(t.word, entries[0]), entries[1..]);
      assert [entries[0]] + entries[1..] == entries;
    }
  }

  // ----------------------------------------------------------------- the dump

  /** The files as the extracted dump takes them. */
  function Files(entries: seq<FileEntry>): (r: seq<Entry>)
    ensures |r| == |entries| && forall i :: 0 <= i < |r| ==> r[i] == Entry(entries[i].path, entries[i].data)
  {
    seq(|entries|, i requires 0 <= i < |entries| => Entry(entries[i].path, entries[i].data))
  }

  /** The size that the dump has to reach is the one that the walk adds up. */
  lemma {:induction false} TotalIsAllData(entries: seq<FileEntry>)
    ensures Total(entries, false) == |AllData(Files(entries))|
  {
    if entries != [] {
      var n := |entries| - 1;
      TotalIsAllData(entries[..n]);
      assert Files(entries) == Files(entries[..n]) + Files([entries[n]]);
      SavedAppend(map[], Files(entries[..n]), Files([entries[n]]));
      assert AllData(Files([entries[n]])) == entries[n].data + [];
    }
  }

  /**
   * A successful RomFS dump of a packed table: although its loop may end as soon as
   * every byte is written, each file that holds any bytes has been saved whole.
   */
  lemma NonEmptyFilesSaved(
    t: Table, entries: seq<FileEntry>, block: nat, usb: bool, before: map<Path, seq<byte>>, wake: Wake, run: seq<Event>)
    requires NamesFit(t) && Packed(t, 0, entries) && 0 < block && DistinctPaths(Files(entries))
    requires Fits(wake, 0, Files(entries), block)
    requires var c := ExtractedConfig(Job(Files(entries), true, block, usb, before), wake);
      Exec(c, run).Some? && Exec(c, run).value.supervisor == Ended(true)
    ensures EntriesFrom(t, 0) == Some(entries)
    ensures ExtractedConfig(Job(Files(entries), true, block, usb, before), wake).total == Total(entries, false)
    ensures var disk := Exec(ExtractedConfig(Job(Files(entries), true, block, usb, before), wake), run).value.output.disk;
      forall i :: 0 <= i < |entries| && entries[i].data != [] ==>
        entries[i].path in disk && disk[entries[i].path] == entries[i].data
  {
    PackedIsVisited(t, 0, entries);
    TotalIsAllData(entries);
    var job := Job(Files(entries), true, block, usb, before);
    var k := NonEmptyEntriesSaved(job, wake, run);
    FirstSaved(before, job.entries, k);
    assert forall i :: 0 <= i < |entries| && entries[i].data != [] ==> job.entries[i].data != [] && i < k;
  }

  lemma FirstSaved(before: map<Path, seq<byte>>, files: seq<Entry>, k: nat)
    requires DistinctPaths(files) && k <= |files|
    ensures forall i :: 0 <= i < k ==>
      files[i].path in Saved(before, files[..k]) && Saved(before, files[..k])[files[i].path] == files[i].data
  {
    SavedIsEach(before, files[..k]);
    assert forall i :: 0 <= i < k ==> files[..k][i] == files[i];
  }
}
