// The header of the Partition FS image that an NSP is: entries whose offsets are
// running sums of the sizes before them, and one table of zero-terminated names
// that entries point into.
module PfsImage {
  import opened Sequences
  import opened LittleEndian

  const NUL: char := '\0'

  datatype Entry = Entry(offset: nat, size: nat, nameOffset: nat)

  /** What the header says of an entry when it is read back. */
  datatype Item = Item(name: string, offset: nat, size: nat)

  /** What a string of the program can hold: bytes other than zero. */
  predicate IsText(s: string) { ByteChars(s) && forall i :: 0 <= i < |s| ==> s[i] != NUL }

  predicate IsName(s: string) { s != "" && IsText(s) }

  /** The name table for a list of names. */
  function Table(names: seq<string>): string
  {
    if names == [] then "" else Table(names[..|names| - 1]) + names[|names| - 1] + [NUL]
  }

  function Sum(sizes: seq<nat>): nat
  {
    if sizes == [] then 0 else Sum(sizes[..|sizes| - 1]) + sizes[|sizes| - 1]
  }

  /** The zero-terminated string that starts at `at`. */
  function CString(table: string, at: nat): (r: string)
    requires at <= |table|
    ensures at + |r| <= |table|
    ensures forall i :: 0 <= i < |r| ==> r[i] == table[at + i] && r[i] != NUL
    ensures at + |r| < |table| ==> table[at + |r|] == NUL
    decreases |table| - at
  {
    if at == |table| || table[at] == NUL then "" else [table[at]] + CString(table, at + 1)
  }

  lemma {:induction false} CStringIs(table: string, at: nat, name: string)
    requires at + |name| < |table| && table[at..at + |name|] == name && table[at + |name|] == NUL
    requires forall i :: 0 <= i < |name| ==> name[i] != NUL
    ensures CString(table, at) == name
    decreases |name|
  {
    if name != "" {
      assert table[at] == name[0];
      assert table[at + 1..at + 1 + |name[1..]|] == name[1..];
      CStringIs(table, at + 1, name[1..]);
    }
  }

  function Renamed(name: string, with: string): string
    requires |with| <= |name|
  {
    with + name[|with|..]
  }

  // ------------------------------------------------- facts about the table

  lemma {:induction false} TableAt(names: seq<string>, k: nat)
    requires k < |names|
    ensures |Table(names[..k])| + |names[k]| < |Table(names)|
    ensures Table(names)[|Table(names[..k])|..|Table(names[..k])| + |names[k]|] == names[k]
    ensures Table(names)[|Table(names[..k])| + |names[k]|] == NUL
    decreases |names|
  {
    var n := |names| - 1;
    if k == n {
      assert names[..k] == names[..n];
    } else {
      TableAt(names[..n], k);
      assert names[..n][..k] == names[..k];
      var at := |Table(names[..k])|;
      assert Table(names)[at..at + |names[k]|] == Table(names[..n])[at..at + |names[k]|];
    }
  }

  /** Renaming an entry to a name as long as its old one rewrites its part of the table only. */
  lemma {:induction false} TableUpdate(names: seq<string>, k: nat, name: string)
    requires k < |names| && |name| == |names[k]|
    ensures |Table(names[k := name])| == |Table(names)|
    ensures |Table(names[..k])| + |name| <= |Table(names)|
    ensures Table(names[k := name]) == Spliced(Table(names), |Table(names[..k])|, name)
    decreases |names|
  {
    var n := |names| - 1;
    var next := names[k := name];
    TableLast(names);
    TableLast(next);
    hide Table;
    if k == n {
      assert next[..n] == names[..n] == names[..k];
      SplicedLast(Table(names[..n]), names[n], name);
    } else {
      assert next[..n] == names[..n][k := name] && names[..n][..k] == names[..k];
      TableUpdate(names[..n], k, name);
      SplicedAppend(Table(names[..n]), names[n] + [NUL], |Table(names[..k])|, name);
    }
  }

  lemma TableLast(names: seq<string>)
    requires names != []
    ensures Table(names) == Table(names[..|names| - 1]) + (names[|names| - 1] + [NUL])
  {
    var front, last := Table(names[..|names| - 1]), names[|names| - 1];
    assert Table(names) == front + last + [NUL];
    hide Table;
    assert front + last + [NUL] == front + (last + [NUL]);
  }

  lemma SplicedLast(front: string, was: string, name: string)
    requires |was| == |name|
    ensures Spliced(front + (was + [NUL]), |front|, name) == front + (name + [NUL])
  {
  }

  lemma SplicedAppend(front: string, last: string, at: nat, name: string)
    requires at + |name| <= |front|
    ensures Spliced(front + last, at, name) == Spliced(front, at, name) + last
  {
  }

  lemma {:induction false} OffsetsStay(names: seq<string>, k: nat, name: string, j: nat)
    requires k < |names| && |name| == |names[k]| && j <= |names|
    ensures |Table(names[k := name][..j])| == |Table(names[..j])|
  {
    if j <= k {
      assert names[k := name][..j] == names[..j];
    } else {
      assert names[k := name][..j] == names[..j][k := name];
      TableUpdate(names[..j], k, name);
    }
  }

  // ------------------------------------------------------------- the image

  predicate AllNames(names: seq<string>) { forall k :: 0 <= k < |names| ==> IsName(names[k]) }

  /** The entries for these names and sizes. */
  predicate Laid(entries: seq<Entry>, names: seq<string>, sizes: seq<nat>)
  {
    |names| == |sizes| == |entries| &&
    forall k :: 0 <= k < |entries| ==> entries[k] == Entry(Sum(sizes[..k]), sizes[k], |Table(names[..k])|)
  }

  predicate Image(entries: seq<Entry>, table: string, fsSize: nat, names: seq<string>, sizes: seq<nat>)
  {
    table == Table(names) && fsSize == Sum(sizes) && AllNames(names) && Laid(entries, names, sizes)
  }

  lemma LaidPush(entries: seq<Entry>, names: seq<string>, sizes: seq<nat>, name: string, size: nat)
    requires Laid(entries, names, sizes)
    ensures Laid(entries + [Entry(Sum(sizes), size, |Table(names)|)], names + [name], sizes + [size])
  {
    var n := |entries|;
    forall k | 0 <= k < n + 1
      ensures (names + [name])[..k] == names[..k] && (sizes + [size])[..k] == sizes[..k]
    {
    }
    assert names[..n] == names && sizes[..n] == sizes;
  }

  lemma LaidRenamed(entries: seq<Entry>, names: seq<string>, sizes: seq<nat>, k: nat, name: string)
    requires Laid(entries, names, sizes) && k < |names| && |name| == |names[k]|
    ensures Laid(entries, names[k := name], sizes)
  {
    forall j | 0 <= j < |names| ensures |Table(names[k := name][..j])| == |Table(names[..j])| {
      OffsetsStay(names, k, name, j);
    }
  }

  lemma LastEnd(entries: seq<Entry>, names: seq<string>, sizes: seq<nat>)
    requires Laid(entries, names, sizes) && |entries| > 0
    ensures entries[|entries| - 1].offset + entries[|entries| - 1].size == Sum(sizes)
  {
  }

  lemma ImagePush(
    entries: seq<Entry>, table: string, fsSize: nat, names: seq<string>, sizes: seq<nat>, name: string, size: nat)
    requires Image(entries, table, fsSize, names, sizes) && IsName(name)
    ensures Image(entries + [Entry(fsSize, size, |table|)], table + name + [NUL], fsSize + size,
              names + [name], sizes + [size])
  {
    LaidPush(entries, names, sizes, name, size);
    TablePush(names, name);
    SumPush(sizes, size);
  }

  /** Entry `k` as it is read from a header. */
  function ReadItem(entries: seq<Entry>, table: string, k: nat): Item
    requires k < |entries| && entries[k].nameOffset <= |table|
  {
    Item(CString(table, entries[k].nameOffset), entries[k].offset, entries[k].size)
  }

  /** Every entry reads back with its own name, its size and the sum of the sizes before it. */
  lemma ReadsBack(entries: seq<Entry>, table: string, fsSize: nat, names: seq<string>, sizes: seq<nat>, k: nat)
    requires Image(entries, table, fsSize, names, sizes) && k < |entries|
    ensures entries[k].nameOffset <= |table| && ReadItem(entries, table, k) == Item(names[k], Sum(sizes[..k]), sizes[k])
  {
    TableAt(names, k);
    CStringIs(table, entries[k].nameOffset, names[k]);
  }

  /** A string with the characters from `at` on replaced by `with`. */
  function Spliced(table: string, at: nat, with: string): string
    requires at + |with| <= |table|
  {
    table[..at] + with + table[at + |with|..]
  }

  class ImageContext {
    var entries: seq<Entry>
    var nameTable: string
    var fsSize: nat
    ghost var Names: seq<string>
    ghost var Sizes: seq<nat>

    ghost predicate Valid()
      reads this
    {
      Image(entries, nameTable, fsSize, Names, Sizes)
    }

    constructor ()
      ensures Valid() && Names == [] && Sizes == []
    {
      entries, nameTable, fsSize := [], "", 0;
      Names, Sizes := [], [];
    }

    /** Refuses an empty name; otherwise the entry comes after all others. */
    method Add(name: string, size: nat) returns (ok: bool, index: nat)
      requires Valid() && IsText(name)
      modifies this
      ensures Valid() && ok == (name != "")
      ensures ok ==> Names == old(Names) + [name] && Sizes == old(Sizes) + [size] && index == |old(Names)|
      ensures !ok ==> Names == old(Names) && Sizes == old(Sizes)
    {
      if name == "" {
        return false, 0;
      }
      index := |entries|;
      var offset := 0;
      if |entries| > 0 {
        offset := entries[|entries| - 1].offset + entries[|entries| - 1].size;
        LastEnd(entries, Names, Sizes);
      } else {
        assert Sizes == [];
      }
      assert offset == fsSize;
      ImagePush(entries, nameTable, fsSize, Names, Sizes, name, size);
      entries, nameTable, fsSize := entries + [Entry(offset, size, |nameTable|)], nameTable + name + [NUL], fsSize + size;
      Names, Sizes := Names + [name], Sizes + [size];
      ok := true;
    }

    /** Overwrites the front of an entry's name in place; refuses a longer one. */
    method UpdateName(index: nat, with: string) returns (ok: bool)
      requires Valid() && IsName(with)
      modifies this`nameTable, this`Names
      ensures Valid()
      ensures ok == (index < |Names| && |with| <= |old(Names)[index]|)
      ensures |nameTable| == |old(nameTable)|
      ensures Names == if ok then old(Names)[index := Renamed(old(Names)[index], with)] else old(Names)
    {
      if index >= |entries| {
        return false;
      }
      var at := entries[index].nameOffset;
      ReadsBack(entries, nameTable, fsSize, Names, Sizes, index);
      var length := |CString(nameTable, at)|;
      if |with| > length {
        return false;
      }
      var name := Renamed(Names[index], with);
      RenamedIsName(Names[index], with);
      LaidRenamed(entries, Names, Sizes, index, name);
      TableAt(Names, index);
      TableRenamed(Names, index, with);
      nameTable := Spliced(nameTable, at, with);
      Names := Names[index := name];
      ok := true;
    }

    /** The header's length, with the padding that always adds something. */
    function HeaderSize(): nat
      reads this
    {
      Padded(0x10 + 0x18 * |entries| + |nameTable|)
    }

    /** The header is written to the front of a buffer, unless there is no entry or the buffer is too short. */
    method WriteHeader(buf: array<byte>) returns (ok: bool, size: nat)
      requires Valid()
      modifies buf
      ensures ok <==> entries != [] && HeaderSize() <= buf.Length
      ensures ok ==> size == HeaderSize() && buf[..] == HeaderBytes(entries, nameTable) + old(buf[size..])
      ensures !ok ==> buf[..] == old(buf[..])
    {
      assert entries == [] || nameTable != "" by {
        SomeTable(entries, nameTable, fsSize, Names, Sizes);
      }
      assert HeaderSize() == Padded(0x10 + 0x18 * |entries| + |nameTable|);
      hide *;
      if |entries| == 0 || |nameTable| == 0 {
        return false, 0;
      }
      size := Padded(0x10 + 0x18 * |entries| + |nameTable|);
      if buf.Length < size {
        return false, 0;
      }
      PutHeader(buf, entries, nameTable);
      ok := true;
    }
  }

  method PutHeader(buf: array<byte>, entries: seq<Entry>, table: string)
    requires Padded(0x10 + 0x18 * |entries| + |table|) <= buf.Length
    modifies buf
    ensures buf[..] == HeaderBytes(entries, table) + old(buf[|HeaderBytes(entries, table)|..])
  {
    HeaderParts(entries, table);
    hide Padded, StartBytes, EntriesBytes, Ascii, Zeros;
    var unpadded := 0x10 + 0x18 * |entries| + |table|;
    var padding := Padded(unpadded) - unpadded;
    PutFour(buf, StartBytes(|entries|, |table| + padding), EntriesBytes(entries), Ascii(table), Zeros(padding));
  }

  method PutFour(buf: array<byte>, a: seq<byte>, b: seq<byte>, c: seq<byte>, d: seq<byte>)
    requires |a| + |b| + |c| + |d| <= buf.Length
    modifies buf
    ensures buf[..] == a + b + c + d + old(buf[|a| + |b| + |c| + |d|..])
  {
    ghost var was := buf[..];
    ghost var front := [];
    assert buf[..] == [] + was[0..];
    var at := 0;
    at, front := PutNext(buf, at, front, was, a);
    at, front := PutNext(buf, at, front, was, b);
    at, front := PutNext(buf, at, front, was, c);
    at, front := PutNext(buf, at, front, was, d);
    assert [] + a == a;
  }

  /** memcpy behind what has been written */
  method PutNext(buf: array<byte>, at: nat, ghost front: seq<byte>, ghost was: seq<byte>, data: seq<byte>)
    returns (next: nat, ghost now: seq<byte>)
    requires at == |front| && at + |data| <= buf.Length == |was| && buf[..] == front + was[at..]
    modifies buf
    ensures next == |now| && now == front + data && buf[..] == now + was[next..]
  {
    forall k | 0 <= k < |data| {
      buf[at + k] := data[k];
    }
    next, now := at + |data|, front + data;
    assert forall k :: at <= k < next ==> buf[k] == data[k - at];
  }

  lemma {:induction false} TableIsText(names: seq<string>)
    requires AllNames(names)
    ensures ByteChars(Table(names))
  {
    if names != [] {
      var n := |names| - 1;
      assert forall k :: 0 <= k < n ==> names[..n][k] == names[k];
      TableIsText(names[..n]);
      assert IsName(names[n]);
    }
  }

  lemma TableText(entries: seq<Entry>, table: string, fsSize: nat, names: seq<string>, sizes: seq<nat>)
    requires Image(entries, table, fsSize, names, sizes)
    ensures ByteChars(table)
  {
    TableIsText(names);
  }

  lemma SomeTable(entries: seq<Entry>, table: string, fsSize: nat, names: seq<string>, sizes: seq<nat>)
    requires Image(entries, table, fsSize, names, sizes)
    ensures table == "" <==> entries == []
  {
  }

  // ------------------------------------------------------ the header's bytes

  function Zeros(n: nat): (r: seq<byte>)
    ensures |r| == n && forall i :: 0 <= i < n ==> r[i] == 0
  {
    seq(n, i => 0)
  }

  /** The fixed part: the magic word, the number of entries and the size of the name table. */
  function StartBytes(count: nat, names: nat): (r: seq<byte>)
    ensures |r| == 0x10
  {
    Ascii("PFS0") + Little(count, 4) + Little(names, 4) + Zeros(4)
  }

  function EntryBytes(e: Entry): (r: seq<byte>)
    ensures |r| == 0x18
  {
    Little(e.offset, 8) + Little(e.size, 8) + Little(e.nameOffset, 4) + Zeros(4)
  }

  function EntriesBytes(entries: seq<Entry>): (r: seq<byte>)
    ensures |r| == 0x18 * |entries|
  {
    if entries == [] then [] else EntriesBytes(entries[..|entries| - 1]) + EntryBytes(entries[|entries| - 1])
  }

  /** The header in the file: what pads it counts as part of the name table. */
  function HeaderBytes(entries: seq<Entry>, table: string): (r: seq<byte>)
    ensures |r| == Padded(0x10 + 0x18 * |entries| + |table|)
  {
    var unpadded := 0x10 + 0x18 * |entries| + |table|;
    var padding := Padded(unpadded) - unpadded;
    StartBytes(|entries|, |table| + padding) + EntriesBytes(entries) + Ascii(table) + Zeros(padding)
  }

  lemma HeaderParts(entries: seq<Entry>, table: string)
    ensures var padded := Padded(0x10 + 0x18 * |entries| + |table|);
      var padding := padded - (0x10 + 0x18 * |entries| + |table|);
      var start, middle, text := StartBytes(|entries|, |table| + padding), EntriesBytes(entries), Ascii(table);
      padding > 0 && HeaderBytes(entries, table) == start + middle + text + Zeros(padding) &&
      |start| + |middle| + |text| + |Zeros(padding)| == padded
  {
  }

  lemma TablePush(names: seq<string>, name: string)
    ensures Table(names + [name]) == Table(names) + name + [NUL]
  {
    assert (names + [name])[..|names|] == names;
  }

  lemma SumPush(sizes: seq<nat>, size: nat)
    ensures Sum(sizes + [size]) == Sum(sizes) + size
  {
    assert (sizes + [size])[..|sizes|] == sizes;
  }

  lemma RenamedIsName(name: string, with: string)
    requires IsName(name) && IsName(with) && |with| <= |name|
    ensures IsName(Renamed(name, with)) && |Renamed(name, with)| == |name|
  {
  }

  lemma TableRenamed(names: seq<string>, k: nat, with: string)
    requires k < |names| && |with| <= |names[k]|
    ensures |Table(names[..k])| + |names[k]| <= |Table(names)|
    ensures Spliced(Table(names), |Table(names[..k])|, with) == Table(names[k := Renamed(names[k], with)])
  {
    TableAt(names, k);
    TableUpdate(names, k, Renamed(names[k], with));
    Overwrite(Table(names), |Table(names[..k])|, names[k], with);
  }

  lemma Overwrite(table: string, at: nat, name: string, with: string)
    requires at + |name| <= |table| && table[at..at + |name|] == name && |with| <= |name|
    ensures Spliced(table, at, with) == Spliced(table, at, Renamed(name, with))
  {
    assert table[at + |with|..] == name[|with|..] + table[at + |name|..];
  }

  const PADDING: nat := 0x20

  /** An already aligned header is padded by a whole unit. */
  function Padded(size: nat): (r: nat)
    ensures r % 0x20 == 0 && size < r <= size + 0x20
  {
    if size % PADDING == 0 then size + PADDING else (size + PADDING - 1) / PADDING * PADDING
  }
}
