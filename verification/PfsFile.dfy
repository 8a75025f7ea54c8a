// Reading a Partition FS image from the bytes of its file alone, and that this gives
// back what the header was made from.
module PfsFile {
  import opened Sequences
  import opened Words
  import opened LittleEndian
  import opened PfsImage

  /** The bytes of a field, as far as the file has them. */
  function Field(file: seq<byte>, at: nat, n: nat): seq<byte>
  {
    if at + n <= |file| then file[at..at + n] else []
  }

  predicate HasMagic(file: seq<byte>) { Chars(Field(file, 0, 4)) == "PFS0" }

  function CountIn(file: seq<byte>): nat { Number(Field(file, 4, 4)) }

  function NamesSizeIn(file: seq<byte>): nat { Number(Field(file, 8, 4)) }

  /** Where the data starts: behind the fixed part, the entries and the names. */
  function BodyAt(file: seq<byte>): nat { 0x10 + 0x18 * CountIn(file) + NamesSizeIn(file) }

  function EntryIn(file: seq<byte>, k: nat): Entry
  {
    var at := 0x10 + 0x18 * k;
    Entry(Number(Field(file, at, 8)), Number(Field(file, at + 8, 8)), Number(Field(file, at + 16, 4)))
  }

  /** The zero-terminated string that starts at `at`. */
  function TextIn(file: seq<byte>, at: nat): string
    decreases |file| - at
  {
    if at >= |file| || file[at] == 0 then "" else [CharOf(file[at])] + TextIn(file, at + 1)
  }

  function NameIn(file: seq<byte>, k: nat): string
  {
    TextIn(file, 0x10 + 0x18 * CountIn(file) + EntryIn(file, k).nameOffset)
  }

  function DataIn(file: seq<byte>, k: nat): seq<byte>
  {
    Field(file, BodyAt(file) + EntryIn(file, k).offset, EntryIn(file, k).size)
  }

  // --------------------------------------------------------- one field each

  /** Numbers that have room in the fields of an entry. */
  predicate Storable(e: Entry) { e.offset < Pow256(8) && e.size < Pow256(8) && e.nameOffset < Pow256(4) }

  lemma FieldOf(a: seq<byte>, b: seq<byte>, c: seq<byte>)
    ensures Field(a + b + c, |a|, |b|) == b
  {
  }

  lemma FourFields(a: seq<byte>, b: seq<byte>, c: seq<byte>, d: seq<byte>)
    ensures var all := a + b + c + d;
      Field(all, 0, |a|) == a && Field(all, |a|, |b|) == b && Field(all, |a| + |b|, |c|) == c
  {
  }

  lemma {:induction false} EntryBytesAt(entries: seq<Entry>, k: nat)
    requires k < |entries|
    ensures Field(EntriesBytes(entries), 0x18 * k, 0x18) == EntryBytes(entries[k])
    decreases |entries|
  {
    hide EntryBytes;
    var n := |entries| - 1;
    if k < n {
      EntryBytesAt(entries[..n], k);
      assert EntriesBytes(entries)[0x18 * k..0x18 * k + 0x18] == EntriesBytes(entries[..n])[0x18 * k..0x18 * k + 0x18];
    }
  }

  /** A field of a part of the file. */
  lemma FieldInside(file: seq<byte>, from: nat, n: nat, part: seq<byte>, at: nat, m: nat)
    requires Field(file, from, n) == part && |part| == n && at + m <= n && (n > 0 ==> part != [])
    ensures Field(file, from + at, m) == Field(part, at, m)
  {
    if n > 0 {
      assert part == file[from..from + n];
      SliceOfSlice(file, from, n, at, m);
    }
  }

  lemma SliceOfSlice(s: seq<byte>, from: nat, n: nat, at: nat, m: nat)
    requires from + n <= |s| && at + m <= n
    ensures s[from..from + n][at..at + m] == s[from + at..from + at + m]
  {
    var part := s[from..from + n];
    var a, b := part[at..at + m], s[from + at..from + at + m];
    forall i | 0 <= i < m ensures a[i] == b[i] {
      assert part[at + i] == s[from + (at + i)];
    }
  }

  lemma FourParts(a: seq<byte>, b: seq<byte>, c: seq<byte>, d: seq<byte>, body: seq<byte>)
    requires d != []
    ensures var file, end := a + b + c + d + body, |a| + |b| + |c| + |d|;
      Field(file, 0, |a|) == a && Field(file, |a|, |b|) == b && Field(file, |a| + |b|, |c|) == c &&
      file[|a| + |b| + |c|] == d[0] && file[end..] == body
  {
    FourFields(a, b, c, d + body);
    assert a + b + c + (d + body) == a + b + c + d + body;
    assert (a + b + c + (d + body))[|a| + |b| + |c|] == (d + body)[0];
  }

  /** The parts of a file that starts with this header. */
  lemma Parts(entries: seq<Entry>, table: string, body: seq<byte>)
    ensures var file, names := HeaderBytes(entries, table) + body, 0x10 + 0x18 * |entries|;
      var end := Padded(names + |table|);
      Field(file, 0, 0x10) == StartBytes(|entries|, end - names) &&
      Field(file, 0x10, 0x18 * |entries|) == EntriesBytes(entries) &&
      Field(file, names, |table|) == Ascii(table) &&
      names + |table| < end && file[names + |table|] == 0 &&
      |file| == end + |body| && file[end..] == body
  {
    hide StartBytes, EntriesBytes, Padded, Ascii;
    var names := 0x10 + 0x18 * |entries|;
    var padding := Padded(names + |table|) - (names + |table|);
    var start, middle, text := StartBytes(|entries|, |table| + padding), EntriesBytes(entries), Ascii(table);
    FourParts(start, middle, text, Zeros(padding), body);
  }

  lemma StartFields(file: seq<byte>, count: nat, size: nat)
    requires Field(file, 0, 0x10) == StartBytes(count, size) && count < Pow256(4) && size < Pow256(4)
    ensures HasMagic(file) && CountIn(file) == count && NamesSizeIn(file) == size
  {
    hide Field, Ascii, Little, Pow256, Chars;
    FourFields(Ascii("PFS0"), Little(count, 4), Little(size, 4), Zeros(4));
    FieldInside(file, 0, 0x10, StartBytes(count, size), 0, 4);
    FieldInside(file, 0, 0x10, StartBytes(count, size), 4, 4);
    FieldInside(file, 0, 0x10, StartBytes(count, size), 8, 4);
    CharsOfAscii("PFS0");
    NumberOfLittle(count, 4);
    NumberOfLittle(size, 4);
  }

  /** The fixed part says how many entries there are and where the data starts. */
  lemma StartReads(entries: seq<Entry>, table: string, body: seq<byte>)
    requires |entries| < Pow256(4) && Padded(0x10 + 0x18 * |entries| + |table|) < Pow256(4)
    ensures var file := HeaderBytes(entries, table) + body;
      HasMagic(file) && CountIn(file) == |entries| && BodyAt(file) == |HeaderBytes(entries, table)|
  {
    var names := 0x10 + 0x18 * |entries|;
    Parts(entries, table, body);
    hide HeaderBytes, Pow256, Padded, Field, StartBytes, HasMagic, CountIn, NamesSizeIn;
    StartFields(HeaderBytes(entries, table) + body, |entries|, Padded(names + |table|) - names);
  }

  lemma EntryReads(entries: seq<Entry>, table: string, body: seq<byte>, k: nat)
    requires k < |entries| && Storable(entries[k])
    ensures EntryIn(HeaderBytes(entries, table) + body, k) == entries[k]
  {
    var file, e := HeaderBytes(entries, table) + body, entries[k];
    Parts(entries, table, body);
    EntryBytesAt(entries, k);
    hide Field, Ascii, Little, HeaderBytes, Padded, Pow256, EntriesBytes;
    FieldInside(file, 0x10, 0x18 * |entries|, EntriesBytes(entries), 0x18 * k, 0x18);
    FourFields(Little(e.offset, 8), Little(e.size, 8), Little(e.nameOffset, 4), Zeros(4));
    FieldInside(file, 0x10 + 0x18 * k, 0x18, EntryBytes(e), 0, 8);
    FieldInside(file, 0x10 + 0x18 * k, 0x18, EntryBytes(e), 8, 8);
    FieldInside(file, 0x10 + 0x18 * k, 0x18, EntryBytes(e), 16, 4);
    NumberOfLittle(e.offset, 8);
    NumberOfLittle(e.size, 8);
    NumberOfLittle(e.nameOffset, 4);
  }

  /** A zero-terminated string in the table is the same string in the file. */
  lemma {:induction false} TextReads(file: seq<byte>, names: nat, table: string, at: nat)
    requires ByteChars(table) && names + |table| < |file| && file[names + |table|] == 0
    requires file[names..names + |table|] == Ascii(table) && at <= |table|
    ensures TextIn(file, names + at) == CString(table, at)
    decreases |table| - at
  {
    if at < |table| {
      assert file[names + at] == Ascii(table)[at];
      CharReads(table[at]);
      TextReads(file, names, table, at + 1);
    }
  }

  lemma CharReads(c: char)
    requires c as int < 256
    ensures CharOf(ByteOf((c as int) % 256)) == c && (ByteOf((c as int) % 256) == 0 <==> c == NUL)
  {
    NatOfByte(c as int);
    ByteOfNat(0);
  }

  /**
   * A file made of a header and a body, read from its bytes: magic word, number of
   * entries, and of each entry the name, the size and where the data is, which is
   * the header's length and the entry's offset behind the start.
   */
  lemma FileReads(entries: seq<Entry>, table: string, body: seq<byte>, k: nat)
    requires |entries| < 0x1_0000_0000 && |HeaderBytes(entries, table)| < 0x1_0000_0000 && ByteChars(table)
    requires |HeaderBytes(entries, table)| + |body| < 0x1_0000_0000_0000_0000
    requires k < |entries| && entries[k].nameOffset <= |table| && entries[k].offset + entries[k].size <= |body|
    ensures var file, e := HeaderBytes(entries, table) + body, entries[k];
      HasMagic(file) && CountIn(file) == |entries| && BodyAt(file) == |HeaderBytes(entries, table)| &&
      NameIn(file, k) == CString(table, e.nameOffset) && EntryIn(file, k).size == e.size &&
      DataIn(file, k) == body[e.offset..e.offset + e.size]
  {
    Widths();
    hide Pow256, HeaderBytes, Padded, CountIn, NamesSizeIn, BodyAt, HasMagic, TextIn, CString;
    StartReads(entries, table, body);
    EntryReads(entries, table, body, k);
    hide EntryIn;
    NameReads(entries, table, body, k);
    DataReads(entries, table, body, k);
  }

  lemma NameReads(entries: seq<Entry>, table: string, body: seq<byte>, k: nat)
    requires ByteChars(table) && k < |entries| && entries[k].nameOffset <= |table|
    requires var file := HeaderBytes(entries, table) + body;
      CountIn(file) == |entries| && EntryIn(file, k) == entries[k]
    ensures NameIn(HeaderBytes(entries, table) + body, k) == CString(table, entries[k].nameOffset)
  {
    var file, names := HeaderBytes(entries, table) + body, 0x10 + 0x18 * |entries|;
    hide HeaderBytes, Padded, CountIn, EntryIn, TextIn, CString, Ascii, StartBytes, EntriesBytes, Field, ByteChars;
    Parts(entries, table, body);
    NamesAt(file, names, table);
    TextReads(file, names, table, entries[k].nameOffset);
  }

  lemma DataReads(entries: seq<Entry>, table: string, body: seq<byte>, k: nat)
    requires k < |entries| && entries[k].offset + entries[k].size <= |body|
    requires var file := HeaderBytes(entries, table) + body;
      BodyAt(file) == |HeaderBytes(entries, table)| && EntryIn(file, k) == entries[k]
    ensures DataIn(HeaderBytes(entries, table) + body, k) ==
      body[entries[k].offset..entries[k].offset + entries[k].size]
  {
    var file := HeaderBytes(entries, table) + body;
    hide HeaderBytes, BodyAt, EntryIn;
    assert file[|HeaderBytes(entries, table)|..] == body;
    DataAt(file, BodyAt(file), body, entries[k].offset, entries[k].size);
  }

  lemma NamesAt(file: seq<byte>, names: nat, table: string)
    requires Field(file, names, |table|) == Ascii(table) && names + |table| < |file|
    ensures file[names..names + |table|] == Ascii(table)
  {
  }

  lemma DataAt(file: seq<byte>, at: nat, body: seq<byte>, offset: nat, size: nat)
    requires at <= |file| && file[at..] == body && offset + size <= |body|
    ensures Field(file, at + offset, size) == body[offset..offset + size]
  {
    assert file[at..][offset..offset + size] == file[at + offset..at + offset + size];
  }
}
