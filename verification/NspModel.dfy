// What an NSP is made of: the NCAs of a title, the content records of its Meta
// NCA, and the order in which everything goes into the archive.
module NspModel {
  import opened Sequences
  import opened NcaPatch
  import opened LittleEndian

  type Id = seq<byte>
  type Hash = seq<byte>

  const ID_SIZE: nat := 16
  const HASH_SIZE: nat := 32

  datatype Kind = Program | Control | LegalInformation | Meta | OtherKind(code: nat)

  /** A packaged content record of the content meta. */
  datatype Record = Record(kind: Kind, size: nat, idOffset: nat, id: Id, hash: Hash, attributes: byte)

  datatype Icon = Icon(language: string, data: seq<byte>)

  /** What was generated next to an NCA for the archive. */
  datatype Context =
    | NoContext
    | ProgramInfo(xml: seq<byte>)
    | Nacp(icons: seq<Icon>, xml: seq<byte>)
    | LegalInfo(xml: seq<byte>)

  /** What replaces parts of an NCA; `dirty` tells whether its header was changed at all. */
  datatype Changes = Changes(dirty: bool, header: Patch, fsHeaders: seq<Patch>, regions: seq<Patch>)

  datatype Nca = Nca(
    kind: Kind, idOffset: nat, id: Id, hash: Hash, clean: seq<byte>, changes: Changes, context: Context, dataIdx: nat)

  /** What encrypting the header of an NCA asks for first. */
  predicate HasHeader(nca: Nca) { nca.id != [] && FULL_HEADER_SIZE <= |nca.clean| }

  datatype Ticket = Ticket(rights: string, data: seq<byte>, certs: seq<byte>)

  // ---------------------------------------------------------------- the XML

  /**
   * The text of the content meta XML around the fields that can change: type, size,
   * and behind the hash the key generation, which is the NCA's as it was read, and ID offset.
   */
  datatype Markup = Markup(
    head: seq<byte>, open: Kind -> seq<byte>, middle: nat -> seq<byte>, close: (seq<byte>, nat) -> seq<byte>,
    foot: seq<byte>)

  function XmlEntry(m: Markup, nca: Nca): seq<byte>
  {
    m.open(nca.kind) + Ascii(Hex(nca.id)) + m.middle(|nca.clean|) + Ascii(Hex(nca.hash)) + m.close(nca.clean, nca.idOffset)
  }

  function XmlEntries(m: Markup, ncas: seq<Nca>): seq<byte>
  {
    if ncas == [] then [] else XmlEntries(m, ncas[..|ncas| - 1]) + XmlEntry(m, ncas[|ncas| - 1])
  }

  function Xml(m: Markup, ncas: seq<Nca>): seq<byte>
  {
    m.head + XmlEntries(m, ncas) + m.foot
  }

  /** The same NCAs, but for content IDs, hashes and where their data goes. */
  predicate SameNca(a: Nca, b: Nca)
  {
    a.kind == b.kind && a.idOffset == b.idOffset && a.clean == b.clean && a.context == b.context &&
    |a.id| == |b.id| == ID_SIZE && |a.hash| == |b.hash| == HASH_SIZE
  }

  predicate SameNcas(a: seq<Nca>, b: seq<Nca>)
  {
    |a| == |b| && forall i :: 0 <= i < |a| ==> SameNca(a[i], b[i])
  }

  /** Generating the XML again after IDs and hashes have changed keeps its size. */
  lemma {:induction false} XmlKeepsSize(m: Markup, a: seq<Nca>, b: seq<Nca>)
    requires SameNcas(a, b)
    ensures |XmlEntries(m, a)| == |XmlEntries(m, b)| && |Xml(m, a)| == |Xml(m, b)|
  {
    if a != [] {
      var n := |a| - 1;
      XmlKeepsSize(m, a[..n], b[..n]);
      assert SameNca(a[n], b[n]);
    }
  }

  /** Where the XML has the content ID of NCA `k`. */
  function IdPlace(m: Markup, ncas: seq<Nca>, k: nat): nat
    requires k < |ncas|
  {
    |m.head| + |XmlEntries(m, ncas[..k])| + |m.open(ncas[k].kind)|
  }

  /** Where it has its hash: behind the ID and the size. */
  function HashPlace(m: Markup, ncas: seq<Nca>, k: nat): nat
    requires k < |ncas|
  {
    IdPlace(m, ncas, k) + 2 * |ncas[k].id| + |m.middle(|ncas[k].clean|)|
  }

  /** The bytes that `n` pairs of digits in the XML spell. */
  function Spelled(xml: seq<byte>, at: nat, n: nat): seq<byte>
  {
    if at + 2 * n <= |xml| then Unhex(Chars(xml[at..at + 2 * n])) else []
  }

  lemma {:induction false} EntryAt(m: Markup, ncas: seq<Nca>, k: nat)
    requires k < |ncas|
    ensures var at := |XmlEntries(m, ncas[..k])|;
      at + |XmlEntry(m, ncas[k])| <= |XmlEntries(m, ncas)| &&
      XmlEntries(m, ncas)[at..at + |XmlEntry(m, ncas[k])|] == XmlEntry(m, ncas[k])
    decreases |ncas|
  {
    hide XmlEntry;
    var n := |ncas| - 1;
    if k == n {
      assert ncas[..k] == ncas[..n];
    } else {
      EntryAt(m, ncas[..n], k);
      assert ncas[..n][..k] == ncas[..k];
      var at, all, front := |XmlEntries(m, ncas[..k])|, XmlEntries(m, ncas), XmlEntries(m, ncas[..n]);
      assert all[at..at + |XmlEntry(m, ncas[k])|] == front[at..at + |XmlEntry(m, ncas[k])|];
    }
  }

  lemma SpelledAt(a: seq<byte>, bytes: seq<byte>, c: seq<byte>)
    ensures Spelled(a + Ascii(Hex(bytes)) + c, |a|, |bytes|) == bytes
  {
    var all := a + Ascii(Hex(bytes)) + c;
    assert all[|a|..|a| + 2 * |bytes|] == Ascii(Hex(bytes));
    CharsOfAscii(Hex(bytes));
    UnhexOfHex(bytes);
  }

  lemma {:induction false} IdSpelled(a: seq<byte>, id: seq<byte>, b: seq<byte>, h: seq<byte>, c: seq<byte>)
    ensures Spelled(a + Ascii(Hex(id)) + b + h + c, |a|, |id|) == id
  {
    hide Hex, Ascii, Spelled;
    SpelledAt(a, id, b + h + c);
    Regrouped(a + Ascii(Hex(id)), b, h, c);
  }

  lemma {:induction false} HashSpelled(a: seq<byte>, i: seq<byte>, b: seq<byte>, hash: seq<byte>, c: seq<byte>)
    ensures Spelled(a + i + b + Ascii(Hex(hash)) + c, |a| + |i| + |b|, |hash|) == hash
  {
    hide Hex, Ascii, Spelled;
    SpelledAt(a + i + b, hash, c);
  }

  lemma Regrouped(a: seq<byte>, b: seq<byte>, h: seq<byte>, c: seq<byte>)
    ensures a + (b + h + c) == a + b + h + c
  {
  }

  lemma InEntry(
    head: seq<byte>, open: seq<byte>, i: seq<byte>, b: seq<byte>, h: seq<byte>, close: seq<byte>, behind: seq<byte>)
    ensures head + (open + i + b + h + close) + behind == head + open + i + b + h + (close + behind)
  {
  }

  lemma Behind(m: Markup, ncas: seq<Nca>, k: nat) returns (behind: seq<byte>)
    requires k < |ncas|
    ensures Xml(m, ncas) == m.head + XmlEntries(m, ncas[..k]) + XmlEntry(m, ncas[k]) + behind
  {
    hide XmlEntry, XmlEntries;
    var all, before := XmlEntries(m, ncas), XmlEntries(m, ncas[..k]);
    EntryAt(m, ncas, k);
    PrefixOf(m, ncas, k);
    Around(all, before, XmlEntry(m, ncas[k]));
    behind := all[|before| + |XmlEntry(m, ncas[k])|..] + m.foot;
  }

  /** The digits at these places of the XML spell the ID and the hash of the NCA. */
  lemma XmlSpells(m: Markup, ncas: seq<Nca>, k: nat)
    requires k < |ncas|
    ensures Spelled(Xml(m, ncas), IdPlace(m, ncas, k), |ncas[k].id|) == ncas[k].id
    ensures Spelled(Xml(m, ncas), HashPlace(m, ncas, k), |ncas[k].hash|) == ncas[k].hash
  {
    hide Xml, XmlEntries, XmlEntry, Spelled;
    var behind := Behind(m, ncas, k);
    EntrySpells(m, m.head + XmlEntries(m, ncas[..k]), ncas[k], behind);
  }

  lemma EntrySpells(m: Markup, front: seq<byte>, nca: Nca, behind: seq<byte>)
    ensures var xml, at := front + XmlEntry(m, nca) + behind, |front| + |m.open(nca.kind)|;
      Spelled(xml, at, |nca.id|) == nca.id &&
      Spelled(xml, at + 2 * |nca.id| + |m.middle(|nca.clean|)|, |nca.hash|) == nca.hash
  {
    hide Hex, Ascii, Spelled;
    var open, middle, close := m.open(nca.kind), m.middle(|nca.clean|), m.close(nca.clean, nca.idOffset);
    InEntry(front, open, Ascii(Hex(nca.id)), middle, Ascii(Hex(nca.hash)), close, behind);
    IdSpelled(front + open, nca.id, middle, Ascii(Hex(nca.hash)), close + behind);
    HashSpelled(front + open, Ascii(Hex(nca.id)), middle, nca.hash, close + behind);
  }

  lemma Around(all: seq<byte>, before: seq<byte>, part: seq<byte>)
    requires |before| + |part| <= |all| && all[..|before|] == before && all[|before|..|before| + |part|] == part
    ensures all == before + part + all[|before| + |part|..]
  {
  }

  lemma {:induction false} PrefixOf(m: Markup, ncas: seq<Nca>, k: nat)
    requires k <= |ncas|
    ensures XmlEntries(m, ncas[..k]) <= XmlEntries(m, ncas)
    decreases |ncas|
  {
    hide XmlEntry;
    var n := |ncas| - 1;
    if k < |ncas| {
      PrefixOf(m, ncas[..n], k);
      assert ncas[..n][..k] == ncas[..k];
    } else {
      assert ncas[..k] == ncas;
    }
  }
}
