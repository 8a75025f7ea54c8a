// Building an NSP in two passes: the first lays out every entry and so fixes the
// header's size, the second writes the entries in the same order while it patches
// and hashes the NCAs, corrects their content IDs in the content records and in the
// entry names, and at last writes the header again.
module NspBuilder {
  import opened Options
  import opened Sequences
  import opened NcaPatch
  import opened PfsImage
  import opened PfsFile
  import opened NspModel
  import opened LittleEndian
  import opened NspRecords
  import opened NspCnmt
  import opened NspLayout

  /** What the builder gets from code that is not modelled. */
  datatype Helpers = Helpers(
    sha: seq<byte> -> Hash,
    cnmt: Cnmt,                              // the content meta file around its records
    headers: seq<Record> -> Headers,         // the Meta NCA's encrypted headers once the file has these records
    hashes: seq<Record> -> seq<Patch>,       // the layers of hashes above the file, likewise
    markup: Markup)

  datatype Headers = Headers(dirty: bool, header: Patch, fsHeaders: seq<Patch>)

  predicate GoodNca(nca: Nca)
  {
    |nca.id| == ID_SIZE && |nca.hash| == HASH_SIZE && GoodChanges(nca.changes, |nca.clean|) &&
    (nca.context.Nacp? ==> forall j :: 0 <= j < |nca.context.icons| ==> IsText(nca.context.icons[j].language))
  }

  predicate GoodChanges(c: Changes, size: nat) { WellPlaced(size, c.header, c.fsHeaders) }

  predicate GoodPatch(h: Helpers, clean: seq<byte>, rs: seq<Record>) { GoodChanges(MetaPatched(h, clean, rs), |clean|) }

  ghost predicate GoodPatches(h: Helpers, clean: seq<byte>) { forall rs: seq<Record> :: GoodPatch(h, clean, rs) }

  /** A title whose NCAs have been initialised, with its single Meta NCA in the last place. */
  ghost predicate GoodTitle(h: Helpers, ncas: seq<Nca>, records: seq<Record>, ticket: Option<Ticket>)
  {
    |ncas| > 0 && ncas[|ncas| - 1].kind == Meta && Matches(records, ncas, |ncas| - 1) &&
    (forall i :: 0 <= i < |ncas| ==> GoodNca(ncas[i])) &&
    (forall data: seq<byte> :: |h.sha(data)| == HASH_SIZE) &&
    GoodPatches(h, ncas[|ncas| - 1].clean) &&
    (ticket.Some? ==> IsText(ticket.value.rights))
  }

  /** The NCA after it has gone out with `changes`: a new ID and hash if its bytes are not the old ones. */
  function Result(h: Helpers, nca: Nca, changes: Changes): Nca
    requires |h.sha(Emission(nca.(changes := changes)))| >= ID_SIZE
  {
    var e := nca.(changes := changes);
    if h.sha(nca.clean) == h.sha(Emission(e)) then e else Rehashed(e, h.sha(Emission(e)))
  }

  /** What puts the content meta file with these records into the Meta NCA: new headers, the hashes, and the file. */
  function MetaPatched(h: Helpers, clean: seq<byte>, records: seq<Record>): Changes
  {
    var c, raw := h.headers(records), h.cnmt.Raw(records);
    Changes(c.dirty, c.header, c.fsHeaders,
            h.hashes(records) +
            if RoundUp(h.cnmt.at + |raw|) <= |clean| then [DataPatch(h.cnmt.stream, clean, h.cnmt.at, raw)] else [])
  }

  /** The Meta NCA is patched only if the content meta file has a new hash. */
  function MetaChanges(h: Helpers, meta: Nca, original: seq<Record>, records: seq<Record>): Changes
  {
    if h.sha(h.cnmt.Raw(records)) == h.sha(h.cnmt.Raw(original)) then meta.changes
    else MetaPatched(h, meta.clean, records)
  }

  /** The Meta NCA as it was read holds the file with these records, and nothing is to be changed there yet. */
  predicate HoldsRecords(h: Helpers, meta: Nca, records: seq<Record>)
  {
    var c, size := h.cnmt, h.cnmt.Size(|records|);
    AllEncodable(records) && RoundUp(c.at + size) <= |meta.clean| &&
    c.Plain(meta.clean, |records|) == c.Raw(records) &&
    meta.changes.regions == [] && forall p :: p in [meta.changes.header] + meta.changes.fsHeaders ==> p.End() <= c.at
  }

  /** The hashes tell the two versions of the file apart, and a new hash makes the header a new one. */
  predicate HashesTell(h: Helpers, original: seq<Record>, records: seq<Record>)
  {
    if h.sha(h.cnmt.Raw(records)) == h.sha(h.cnmt.Raw(original)) then records == original else h.headers(records).dirty
  }

  /**
   * What the regenerated XML says of an NCA after its turn: its ID is that of the
   * emitted bytes if they are not the old ones, and the old ID otherwise; its hash
   * is theirs only if the NCA was changed, and that of an unchanged NCA is still the
   * placeholder it was initialised with.
   */
  lemma XmlHashes(h: Helpers, nca: Nca, changes: Changes)
    requires |h.sha(Emission(nca.(changes := changes)))| == HASH_SIZE
    ensures var after := Result(h, nca, changes);
      var hash := h.sha(Emission(after));
      after.id == (if h.sha(nca.clean) != hash then hash[..ID_SIZE] else nca.id) &&
      (after.hash == hash <==> h.sha(nca.clean) != hash || nca.hash == h.sha(nca.clean)) &&
      (h.sha(nca.clean) == hash ==> after.hash == nca.hash)
  {
    assert Emission(Result(h, nca, changes)) == Emission(nca.(changes := changes));
  }

  /** What goes out for the Meta NCA decodes to the records it was prepared from. */
  lemma MetaCarriesRecords(h: Helpers, meta: Nca, original: seq<Record>, records: seq<Record>)
    requires HoldsRecords(h, meta, original) && HashesTell(h, original, records)
    requires AllEncodable(records) && |records| == |original|
    ensures var out := Emission(meta.(changes := MetaChanges(h, meta, original, records)));
      h.cnmt.at + h.cnmt.Size(|records|) <= |out| && h.cnmt.RecordsIn(out, |records|) == records
  {
    hide AllEncodable, RoundUp, Overlaid, DataPatch;
    var c, changes := h.cnmt, MetaChanges(h, meta, original, records);
    var out := Emission(meta.(changes := changes));
    if h.sha(c.Raw(records)) == h.sha(c.Raw(original)) {
      var others := [meta.changes.header] + meta.changes.fsHeaders;
      DataIsKept(c, meta.clean, |records|, others);
      assert others + [] == others;
    } else {
      var others := [changes.header] + changes.fsHeaders + h.hashes(records);
      DataIsPut(c, meta.clean, records, others);
      assert [changes.header] + changes.fsHeaders + changes.regions ==
        others + [DataPatch(c.stream, meta.clean, c.at, c.Raw(records))];
    }
    assert c.Plain(out, |records|) == c.Raw(records);
    RecordsAreIn(c, out, records);
  }

  lemma NameIsGood(src: Source, ncas: seq<Nca>, ticket: Option<Ticket>)
    requires |ncas| > 0 && InRange(src, ncas, ticket) && (forall i :: 0 <= i < |ncas| ==> GoodNca(ncas[i]))
    requires ticket.Some? ==> IsText(ticket.value.rights)
    ensures IsName(NameOf(src, ncas, ticket))
  {
    hide IsText, Hex;
    match src
    case TicketData => FixedText(); JoinText(ticket.value.rights, ".tik");
    case CertData => FixedText(); JoinText(ticket.value.rights, ".cert");
    case _ =>
      SuffixIsText(src, ncas);
      HexIsText(ncas[Owner(src, |ncas|)].id);
      JoinText(Hex(ncas[Owner(src, |ncas|)].id), Suffix(src, ncas));
  }

  lemma FixedText()
    ensures IsText(".tik") && IsText(".cert") && IsText(".cnmt.nca") && IsText(".nca") && IsText(".cnmt.xml")
    ensures IsText(".nx.") && IsText(".jpg") && forall c :: IsText(InfoSuffix(c))
  {
  }

  lemma HexIsText(id: Id)
    ensures IsText(Hex(id))
  {
  }

  lemma JoinText(a: string, b: string)
    requires IsText(a) && IsText(b)
    ensures IsText(a + b)
  {
  }

  lemma SuffixIsText(src: Source, ncas: seq<Nca>)
    requires InRange(src, ncas, Some(Ticket("", [], []))) && !src.TicketData? && !src.CertData?
    requires forall i :: 0 <= i < |ncas| ==> GoodNca(ncas[i])
    ensures IsText(Suffix(src, ncas))
  {
    hide IsText;
    FixedText();
    if src.IconData? {
      assert GoodNca(ncas[src.i]);
      JoinText(".nx.", ncas[src.i].context.icons[src.j].language);
      JoinText(".nx." + ncas[src.i].context.icons[src.j].language, ".jpg");
    }
  }

  lemma PlannedNext(planned: seq<Source>, src: Source, ncas: seq<Nca>, xml: seq<byte>, ticket: Option<Ticket>)
    requires |ncas| > 0 && AllInRange(planned, ncas, ticket) && InRange(src, ncas, ticket)
    ensures AllInRange(planned + [src], ncas, ticket)
    ensures NamesOf(planned + [src], ncas, ticket) == NamesOf(planned, ncas, ticket) + [NameOf(src, ncas, ticket)]
    ensures SizesOf(planned + [src], ncas, xml, ticket) ==
      SizesOf(planned, ncas, xml, ticket) + [|DataOf(src, ncas, xml, ticket)|]
  {
  }

  /** How the NCA in place `i`, the records and the names change when the hashes are compared. */
  predicate Settled(
    i: nat, nca: Nca, cleanHash: Hash, dirtyHash: Hash, after: Nca, records: seq<Record>, recordsAfter: seq<Record>,
    names: seq<string>, namesAfter: seq<string>)
  {
    if cleanHash == dirtyHash then
      after == nca && recordsAfter == records && namesAfter == names
    else
      |dirtyHash| >= ID_SIZE && after == Rehashed(nca, dirtyHash) && Updated(records, after) == Some(recordsAfter) &&
      i < |names| && |Hex(after.id)| <= |names[i]| && namesAfter == names[i := Renamed(names[i], Hex(after.id))]
  }

  lemma SettledSame(
    i: nat, nca: Nca, cleanHash: Hash, dirtyHash: Hash, after: Nca, records: seq<Record>, recordsAfter: seq<Record>,
    names: seq<string>, namesAfter: seq<string>)
    requires Settled(i, nca, cleanHash, dirtyHash, after, records, recordsAfter, names, namesAfter)
    requires GoodNca(nca) && |dirtyHash| == HASH_SIZE
    ensures SameNca(nca, after) && Emission(after) == Emission(nca)
    ensures after.id == nca.id ==> cleanHash == dirtyHash || namesAfter == names[i := Renamed(names[i], Hex(after.id))]
    ensures nca.kind == Meta ==> recordsAfter == records
  {
  }

  lemma SettledNames(
    i: nat, nca: Nca, cleanHash: Hash, dirtyHash: Hash, after: Nca, records: seq<Record>, recordsAfter: seq<Record>,
    names: seq<string>, namesAfter: seq<string>, plan: seq<Source>, before: seq<Nca>, ncas: seq<Nca>, ticket: Option<Ticket>)
    requires Settled(i, nca, cleanHash, dirtyHash, after, records, recordsAfter, names, namesAfter)
    requires GoodNca(nca) && |dirtyHash| == HASH_SIZE
    requires NamesAre(names, plan, i, before, ncas, ticket) && NcasFirst(plan, |ncas|) && i < |ncas|
    requires SameNca(before[i], nca) && nca.id == before[i].id
    ensures NamesAre(namesAfter, plan, i + 1, before, ncas[i := after], ticket)
  {
    NamesAfterNca(names, plan, i, before, ncas, after, ticket);
  }

  lemma SettledRecords(
    i: nat, nca: Nca, cleanHash: Hash, dirtyHash: Hash, after: Nca, records: seq<Record>, recordsAfter: seq<Record>,
    names: seq<string>, namesAfter: seq<string>, original: seq<Record>, ncas: seq<Nca>, hashes: seq<Hash>)
    requires Settled(i, nca, cleanHash, dirtyHash, after, records, recordsAfter, names, namesAfter)
    requires Consistent(original, records, ncas, hashes, i) && OneRecord(original, nca) && nca.kind != Meta
    requires forall a :: 0 <= a < i < |ncas| ==> !SameTriple(ncas[a], nca)
    requires i < |ncas| && ncas[i] == nca && i < |hashes| && hashes[i] == dirtyHash && |dirtyHash| == HASH_SIZE
    requires Verified(records, nca, cleanHash)
    ensures Consistent(original, recordsAfter, ncas[i := after], hashes, i + 1)
  {
    if cleanHash == dirtyHash {
      UnchangedNca(original, records, ncas, hashes, i);
      assert ncas[i := after] == ncas;
    } else {
      ChangedNca(original, records, ncas, hashes, i, after);
    }
  }

  /** The pieces are in the file one after the other, and both counters count them. */
  predicate IsWritten(body: seq<byte>, pieces: seq<seq<byte>>, nspOffset: nat, dataWritten: nat, headerSize: nat)
  {
    body == Concat(pieces) && nspOffset == headerSize + |body| && dataWritten == |body|
  }

  lemma WrittenPush(
    body: seq<byte>, pieces: seq<seq<byte>>, nspOffset: nat, dataWritten: nat, headerSize: nat, data: seq<byte>)
    requires IsWritten(body, pieces, nspOffset, dataWritten, headerSize)
    ensures IsWritten(body + data, pieces + [data], nspOffset + |data|, dataWritten + |data|, headerSize)
  {
    ConcatPush(pieces, data);
  }

  lemma NamesStart(names: seq<string>, plan: seq<Source>, before: seq<Nca>, ticket: Option<Ticket>)
    requires |before| > 0 && SameNcas(before, before) && AllInRange(plan, before, ticket)
    requires names == NamesOf(plan, before, ticket)
    ensures NamesAre(names, plan, 0, before, before, ticket)
  {
  }

  lemma PiecesStart(plan: seq<Source>, before: seq<Nca>, xml: seq<byte>, ticket: Option<Ticket>)
    ensures PiecesAre([], plan, 0, before, xml, ticket)
  {
  }

  lemma RecordsStart(original: seq<Record>, before: seq<Nca>, hashes: seq<Hash>)
    ensures Consistent(original, original, before, hashes, 0)
  {
  }

  class NspJob {
    const h: Helpers
    const blockSize: nat
    const authoring: bool
    const ticket: Option<Ticket>
    const before: seq<Nca>            // the NCAs as they were initialised
    const original: seq<Record>       // the records as they were read
    const image: ImageContext
    var ncas: seq<Nca>
    var records: seq<Record>
    var dataIdx: seq<nat>             // for each NCA, the entry its generated data starts with
    var xml: seq<byte>                // the content meta XML
    var headerSize: nat
    var totalSize: nat
    var nspOffset: nat
    var dataWritten: nat
    var body: seq<byte>               // the output file after the header
    var front: seq<byte>              // the output file's header, first a placeholder
    ghost var pieces: seq<seq<byte>>

    constructor (h: Helpers, blockSize: nat, authoring: bool, ticket: Option<Ticket>, ncas: seq<Nca>, records: seq<Record>)
      ensures this.h == h && this.blockSize == blockSize && this.authoring == authoring && this.ticket == ticket
      ensures before == ncas && original == records && fresh(image) && Fresh()
    {
      this.h, this.blockSize, this.authoring, this.ticket := h, blockSize, authoring, ticket;
      before, original := ncas, records;
      image := new ImageContext();
      this.ncas, this.records, dataIdx, xml := ncas, records, seq(|ncas|, i => 0), [];
      headerSize, totalSize, nspOffset, dataWritten := 0, 0, 0, 0;
      body, front, pieces := [], [], [];
    }

    ghost predicate Fresh()
      reads this, image
    {
      image.Valid() && image.Names == [] && image.Sizes == [] && ncas == before && records == original &&
      |dataIdx| == |before| && xml == [] && body == [] && pieces == [] && nspOffset == 0 && dataWritten == 0 &&
      front == []
    }

    ghost predicate Good()
    {
      GoodTitle(h, before, original, ticket) && blockSize > 0
    }

    ghost function Order(): seq<Source>
    {
      Plan(before, authoring, ticket)
    }

    // --------------------------------------------------------- first pass

    /** The entries so far are those of `planned`. */
    ghost predicate Planned(planned: seq<Source>)
      reads this`xml, image
    {
      |before| > 0 && AllInRange(planned, before, ticket) && image.Valid() &&
      image.Names == NamesOf(planned, before, ticket) && image.Sizes == SizesOf(planned, before, xml, ticket)
    }

    method AddEntry(name: string, size: nat, ghost planned: seq<Source>, ghost src: Source)
      returns (ok: bool, index: nat)
      requires Planned(planned) && InRange(src, before, ticket) && IsName(name)
      requires name == NameOf(src, before, ticket) && size == |DataOf(src, before, xml, ticket)|
      modifies image
      ensures ok && Planned(planned + [src]) && index == |planned|
    {
      PlannedNext(planned, src, before, xml, ticket);
      ok, index := image.Add(name, size);
    }

    lemma NameGood(src: Source)
      requires Good() && InRange(src, before, ticket)
      ensures |before| > 0 && IsName(NameOf(src, before, ticket))
    {
      NameIsGood(src, before, ticket);
    }

    method AddNcas() returns (ok: bool)
      requires Good() && Planned([])
      modifies image
      ensures ok && Planned(NcaSources(|before|))
    {
      hide Planned, GoodTitle;
      ghost var planned := NcaSources(0);
      for i := 0 to |before|
        invariant planned == NcaSources(i) && Planned(planned)
      {
        var nca := before[i];
        NameGood(NcaData(i));
        var added, index := AddEntry(Hex(nca.id) + (if nca.kind == Meta then ".cnmt.nca" else ".nca"), |nca.clean|,
          planned, NcaData(i));
        if !added {
          return false;
        }
        NcaSourcesNext(i);
        planned := planned + [NcaData(i)];
      }
      return true;
    }

    /** Everything generated for one NCA; `first` is the index of the first entry. */
    method AddInfo(i: nat, ghost planned: seq<Source>) returns (ok: bool, first: nat)
      requires Good() && Planned(planned) && i < |before| && !before[i].context.NoContext?
      modifies image
      ensures ok && Planned(planned + InfoSources(before[i].context, i)) && first == |planned|
    {
      var id := Hex(before[i].id);
      NameGood(InfoXml(i));
      match before[i].context
      case ProgramInfo(data) =>
        ok, first := AddEntry(id + ".programinfo.xml", |data|, planned, InfoXml(i));
      case LegalInfo(data) =>
        ok, first := AddEntry(id + ".legalinfo.xml", |data|, planned, InfoXml(i));
      case Nacp(icons, data) =>
        ok, first := AddIcons(i, icons, planned);
        if !ok {
          return;
        }
        IconsNext(planned, i, |icons|);
        var index: nat;
        ok, index := AddEntry(id + ".nacp.xml", |data|, planned + Icons(i, |icons|), InfoXml(i));
        first := if |icons| == 0 then index else first;
    }

    method AddIcon(i: nat, j: nat, icon: Icon, ghost planned: seq<Source>) returns (ok: bool, index: nat)
      requires Good() && Planned(planned) && InRange(IconData(i, j), before, ticket) && before[i].context.icons[j] == icon
      modifies image
      ensures ok && Planned(planned + [IconData(i, j)]) && index == |planned|
    {
      NameGood(IconData(i, j));
      ok, index := AddEntry(Hex(before[i].id) + (".nx." + icon.language + ".jpg"), |icon.data|, planned, IconData(i, j));
    }

    /** Icons come before the XML. */
    method AddIcons(i: nat, icons: seq<Icon>, ghost planned: seq<Source>) returns (ok: bool, first: nat)
      requires Good() && Planned(planned) && i < |before| && before[i].context.Nacp? && before[i].context.icons == icons
      modifies image
      ensures ok && Planned(planned + Icons(i, |icons|)) && (icons != [] ==> first == |planned|)
    {
      hide Planned, GoodTitle;
      first := 0;
      ghost var now := planned + Icons(i, 0);
      assert now == planned by { IconsNext(planned, i, 0); }
      for j := 0 to |icons|
        invariant now == planned + Icons(i, j) && Planned(now)
        invariant j > 0 ==> first == |planned|
      {
        var index: nat;
        ok, index := AddIcon(i, j, icons[j], now);
        if !ok {
          return;
        }
        if j == 0 {
          first := index;
          assert now == planned by { IconsNext(planned, i, 0); }
        }
        assert now + [IconData(i, j)] == planned + Icons(i, j + 1) by { IconsNext(planned, i, j); }
        now := planned + Icons(i, j + 1);
      }
      ok := true;
    }

    /** The generated data of every NCA but the Meta NCA. */
    method AddAllInfo(ghost planned: seq<Source>) returns (ok: bool)
      requires |before| > 0 && Good() && |dataIdx| == |before|
      requires planned == NcaSources(|before|) + [CnmtXml] && Planned(planned)
      modifies this`dataIdx, image
      ensures |dataIdx| == |before| && dataIdx[|before| - 1] == old(dataIdx[|before| - 1])
      ensures ok && Planned(planned + AllInfo(before, |before| - 1))
      ensures forall k :: 0 <= k < |before| - 1 && !before[k].context.NoContext? ==> dataIdx[k] == InfoIndex(before, k)
    {
      hide Planned, GoodTitle, AllInfo, InfoSources, InfoIndex;
      AllInfoStart(planned, before);
      ghost var now := planned;
      for i := 0 to |before| - 1
        invariant now == planned + AllInfo(before, i) && Planned(now)
        invariant |dataIdx| == |before| && dataIdx[|before| - 1] == old(dataIdx[|before| - 1])
        invariant forall k :: 0 <= k < i && !before[k].context.NoContext? ==> dataIdx[k] == InfoIndex(before, k)
      {
        AllInfoNext(planned, before, i);
        if !before[i].context.NoContext? {
          var added, first := AddInfo(i, now);
          if !added {
            return false;
          }
          dataIdx := dataIdx[i := first];
        }
        now := planned + AllInfo(before, i + 1);
      }
      return true;
    }

    method AddTicket(ghost planned: seq<Source>) returns (ok: bool)
      requires Good() && Planned(planned) && ticket.Some?
      modifies image
      ensures ok && Planned(planned + [TicketData, CertData])
    {
      hide Planned, GoodTitle;
      var index: nat;
      NameGood(TicketData);
      NameGood(CertData);
      ok, index := AddEntry(ticket.value.rights + ".tik", |ticket.value.data|, planned, TicketData);
      if !ok {
        return;
      }
      ok, index := AddEntry(ticket.value.rights + ".cert", |ticket.value.certs|, planned + [TicketData], CertData);
      assert planned + [TicketData] + [CertData] == planned + [TicketData, CertData];
    }

    /** The content meta XML and whatever was generated for the other NCAs. */
    method AddAuthoring() returns (ok: bool)
      requires |before| > 0 && Good() && Planned(NcaSources(|before|)) && |dataIdx| == |before|
      modifies this`dataIdx, image
      ensures ok && Planned(NcaSources(|before|) + [CnmtXml] + AllInfo(before, |before| - 1)) && Indices()
      ensures |dataIdx| == |before|
    {
      hide Planned, GoodTitle, AllInfo;
      var index: nat;
      NameGood(CnmtXml);
      ok, index := AddEntry(Hex(before[|before| - 1].id) + ".cnmt.xml", |xml|, NcaSources(|before|), CnmtXml);
      if ok {
        dataIdx := dataIdx[|before| - 1 := index];
        ok := AddAllInfo(NcaSources(|before|) + [CnmtXml]);
      }
    }

    /** Where the second pass will look for the entries it renames. */
    ghost predicate Indices()
      reads this`dataIdx
    {
      |dataIdx| == |before| && |before| > 0 && dataIdx[|before| - 1] == |before| &&
      forall k :: 0 <= k < |before| - 1 && !before[k].context.NoContext? ==> dataIdx[k] == InfoIndex(before, k)
    }

    ghost function FirstXml(): seq<byte>
    {
      if authoring then Xml(h.markup, before) else []
    }

    ghost predicate LaidOut()
      reads this, image
    {
      Planned(Order()) && xml == FirstXml() && (authoring ==> Indices()) &&
      headerSize == nspOffset == image.HeaderSize() <= blockSize && totalSize == headerSize + image.fsSize &&
      front == Zeros(headerSize)
    }

    /** The first pass: all entries, their places and the size of the whole archive. */
    method LayOut() returns (ok: bool)
      requires Good() && Fresh()
      modifies this`xml, this`dataIdx, this`headerSize, this`totalSize, this`nspOffset, this`front, image
      ensures ok ==> LaidOut() && (authoring ==> XmlPossible(before, original))
      ensures !ok ==> (authoring && !XmlPossible(before, original)) || blockSize < image.HeaderSize()
    {
      hide XmlPossible, HeaderBytes, Image;
      hide Planned, GoodTitle, Plan, Indices;
      ok := AddAll();
      if !ok {
        return;
      }
      EntriesPlanned(Order());
      var buf := new byte[blockSize];
      ok, headerSize := image.WriteHeader(buf);
      if !ok {
        return;
      }
      totalSize := headerSize + image.fsSize;
      front := Zeros(headerSize);
      nspOffset := nspOffset + headerSize;
    }

    lemma EntriesPlanned(planned: seq<Source>)
      requires Planned(planned)
      ensures image.Valid() && |image.entries| == |planned| && (planned == Order() ==> image.entries != [])
    {
      PlanStarts(before, authoring, ticket);
    }

    method AddAll() returns (ok: bool)
      requires Good() && Fresh()
      modifies this`xml, this`dataIdx, image
      ensures ok ==> Planned(Order()) && xml == FirstXml() && (authoring ==> Indices())
      ensures ok <==> (authoring ==> XmlPossible(before, original))
    {
      hide Planned, GoodTitle, AllInfo, XmlPossible, Plan, Indices;
      if authoring {
        ok := GenerateXml();
        if !ok {
          return;
        }
      }
      StartPlanned();
      ok := AddNcas();
      ghost var planned := NcaSources(|before|);
      if ok && authoring {
        ok := AddAuthoring();
        planned := NcaSources(|before|) + [CnmtXml] + AllInfo(before, |before| - 1);
      }
      if ok && ticket.Some? {
        ok := AddTicket(planned);
        planned := planned + [TicketData, CertData];
      }
      OrderIs();
      assert ok ==> planned == Order();
    }

    lemma StartPlanned()
      requires Good() && image.Valid() && image.Names == [] && image.Sizes == []
      ensures Planned([])
    {
    }

    lemma OrderIs()
      ensures |before| > 0 ==>
        Order() == NcaSources(|before|) +
          (if authoring then [CnmtXml] + AllInfo(before, |before| - 1) else []) +
          (if ticket.Some? then [TicketData, CertData] else [])
    {
    }

    method GenerateXml() returns (ok: bool)
      modifies this`xml
      ensures ok == XmlPossible(ncas, records)
      ensures ok ==> xml == Xml(h.markup, ncas)
    {
      ok := 0 < |ncas| <= |records| + 1;
      var i := 0;
      while ok && i < |ncas|
        invariant i <= |ncas|
        invariant ok <==> (0 < |ncas| <= |records| + 1 &&
          forall j :: 0 <= j < i && ncas[j].kind != Meta ==> FindId(records, ncas[j].id) < |records|)
      {
        ok := ncas[i].kind == Meta || FindId(records, ncas[i].id) < |records|;
        i := i + 1;
      }
      if ok {
        xml := Xml(h.markup, ncas);
      }
    }

    // -------------------------------------------------------- second pass

    /** Reads a block, which may fail, and checks the whole NCA against its record when it is the last one. */
    method ReadBlock(nca: Nca, buf: array<byte>, blk: nat, offset: nat, seen: seq<byte>)
      returns (ok: bool, nowSeen: seq<byte>, hash: Hash, ghost failed: bool)
      requires 0 < blk <= buf.Length && offset + blk <= |nca.clean| && seen == nca.clean[..offset]
      modifies buf
      ensures ok ==> buf[..blk] == nca.clean[offset..offset + blk] && nowSeen == nca.clean[..offset + blk]
      ensures ok && offset + blk == |nca.clean| ==> hash == h.sha(nca.clean) && Verified(records, nca, hash)
      ensures !ok && !failed ==> !Verified(records, nca, h.sha(nca.clean))
    {
      ok := *;
      failed := !ok;
      nowSeen, hash := seen, [];
      if !ok {
        return;
      }
      forall k | 0 <= k < blk {
        buf[k] := nca.clean[offset + k];
      }
      Sliced(nca.clean, offset, offset + blk, buf[..blk]);
      nowSeen := seen + buf[..blk];
      if offset + blk >= |nca.clean| {
        hash := h.sha(nowSeen);
        ok := Verified(records, nca, hash);
      }
    }

    /** The copy of a block that goes out: patched if the header was changed and something is left to replace. */
    method PatchBlock(nca: Nca, writer: NcaWriter, buf: array<byte>, blk: nat, offset: nat, dirty: bool)
      returns (still: bool)
      requires 0 < blk <= buf.Length && offset + blk <= |nca.clean|
      requires buf[..blk] == nca.clean[offset..offset + blk] && Patching(nca, writer, offset, dirty)
      modifies writer, buf
      ensures buf[..blk] == Emission(nca)[offset..offset + blk] && Patching(nca, writer, offset + blk, still)
    {
      still := dirty;
      ghost var was := buf[..blk];
      if dirty {
        still := writer.Replace(buf, blk, offset);
      } else if nca.changes.dirty {
        writer.FinishedChangesNothing(offset, was, blk);
      }
      assert forall k :: 0 <= k < blk ==> was[k] == nca.clean[offset + k];
    }

    ghost predicate Writes(writer: NcaWriter, nca: Nca, at: nat)
      reads writer
    {
      var c := nca.changes;
      writer.Valid(at) && writer.size == |nca.clean| && writer.All() == [c.header] + c.fsHeaders + c.regions
    }

    /** One block of an NCA: read, hashed, patched. */
    method ReadAndPatch(
      nca: Nca, writer: NcaWriter, buf: array<byte>, blk: nat, offset: nat, seen: seq<byte>, dirty: bool)
      returns (ok: bool, nowSeen: seq<byte>, hash: Hash, still: bool, ghost failed: bool)
      requires 0 < blk <= buf.Length && offset + blk <= |nca.clean| && seen == nca.clean[..offset]
      requires Patching(nca, writer, offset, dirty)
      modifies writer, buf
      ensures ok ==> buf[..blk] == Emission(nca)[offset..offset + blk] && nowSeen == nca.clean[..offset + blk]
      ensures ok ==> Patching(nca, writer, offset + blk, still)
      ensures ok && offset + blk == |nca.clean| ==> hash == h.sha(nca.clean) && Verified(records, nca, hash)
      ensures !ok && !failed ==> !Verified(records, nca, h.sha(nca.clean))
    {
      still := dirty;
      ok, nowSeen, hash, failed := ReadBlock(nca, buf, blk, offset, seen);
      if ok {
        still := PatchBlock(nca, writer, buf, blk, offset, dirty);
      }
    }

    /** Blocks are patched as long as the NCA's header was changed and something is left to replace. */
    ghost predicate Patching(nca: Nca, writer: NcaWriter, offset: nat, dirty: bool)
      reads writer
    {
      if nca.changes.dirty then Writes(writer, nca, offset) && (dirty <==> !writer.Finished()) else !dirty
    }

    method WriteBlock(buf: array<byte>, blk: nat)
      requires blk <= buf.Length
      modifies this`body, this`nspOffset, this`dataWritten
      ensures body == old(body) + buf[..blk] && nspOffset == old(nspOffset) + blk && dataWritten == old(dataWritten) + blk
    {
      body := body + buf[..blk];
      nspOffset, dataWritten := nspOffset + blk, dataWritten + blk;
    }

    /** One NCA, block by block: read, hashed, patched, hashed again and written. */
    method StreamNca(nca: Nca) returns (ok: bool, cleanHash: Hash, dirtyHash: Hash, ghost interrupted: bool)
      requires GoodNca(nca) && blockSize > 0
      modifies this`body, this`nspOffset, this`dataWritten
      ensures ok ==> body == old(body) + Emission(nca)
      ensures ok ==> nspOffset == old(nspOffset) + |nca.clean| && dataWritten == old(dataWritten) + |nca.clean|
      ensures ok ==> cleanHash == h.sha(nca.clean) && dirtyHash == h.sha(Emission(nca))
      ensures ok ==> Verified(records, nca, cleanHash)
      ensures !ok && !interrupted ==> !Verified(records, nca, h.sha(nca.clean))
    {
      hide Emission, Verified;
      var size, c := |nca.clean|, nca.changes;
      var writer := new NcaWriter(size, c.header, c.fsHeaders, c.regions);
      var buf := new byte[blockSize];
      var dirty, blk, offset := c.dirty, blockSize, 0;
      var cleanSeen: seq<byte>, dirtySeen: seq<byte> := [], [];
      cleanHash, dirtyHash, interrupted := [], [], false;
      WriterStarts(nca, writer);
      hide Patching, GoodNca;
      while offset < size
        invariant fresh(writer) && fresh(buf)
        invariant 0 <= offset <= size && 0 < blk <= buf.Length == blockSize
        invariant cleanSeen == nca.clean[..offset] && dirtySeen == Emission(nca)[..offset]
        invariant body == old(body) + Emission(nca)[..offset]
        invariant nspOffset == old(nspOffset) + offset && dataWritten == old(dataWritten) + offset
        invariant Patching(nca, writer, offset, dirty)
        invariant offset == size ==> cleanHash == h.sha(nca.clean) && Verified(records, nca, cleanHash)
      {
        var cancelled: bool := *;
        if cancelled {
          return false, [], [], true;
        }
        if size - offset < blk {
          blk := size - offset;
        }
        ok, cleanSeen, cleanHash, dirty, interrupted := ReadAndPatch(nca, writer, buf, blk, offset, cleanSeen, dirty);
        if !ok {
          return false, [], [], interrupted;
        }
        NextBlock(old(body), Emission(nca), offset, offset + blk, buf[..blk]);
        dirtySeen := dirtySeen + buf[..blk];
        WriteBlock(buf, blk);
        offset := offset + blk;
      }
      Sliced(Emission(nca), size, size, []);
      dirtyHash := h.sha(dirtySeen);
      ok, interrupted := true, false;
    }

    lemma WriterStarts(nca: Nca, writer: NcaWriter)
      requires GoodNca(nca) && writer.Valid(0) && writer.size == |nca.clean| && writer.header == nca.changes.header
      requires writer.fsHeaders == nca.changes.fsHeaders && writer.regions == nca.changes.regions
      ensures Patching(nca, writer, 0, nca.changes.dirty) && |nca.clean| > 0
    {
    }

    ghost predicate Written()
      reads this`body, this`pieces, this`nspOffset, this`dataWritten, this`headerSize
    {
      IsWritten(body, pieces, nspOffset, dataWritten, headerSize)
    }

    /** The first `d` entries are written and renamed. */
    ghost predicate Progress(d: nat)
      reads this`body, this`pieces, this`nspOffset, this`dataWritten, this`headerSize, this`ncas, this`xml, image
    {
      Written() && image.Valid() &&
      NamesAre(image.Names, Order(), d, before, ncas, ticket) &&
      PiecesAre(pieces, Order(), d, ncas, xml, ticket)
    }

    /** The hashes of the bytes that go out for the NCAs; the Meta NCA's is not meant. */
    ghost function Hashes(): (r: seq<Hash>)
      ensures |r| == |before| && forall k :: 0 <= k < |r| ==> r[k] == h.sha(Emission(before[k]))
    {
      seq(|before|, k requires 0 <= k < |before| => h.sha(Emission(before[k])))
    }

    ghost predicate RecordsRight(d: nat)
      reads this`records, this`ncas
    {
      |before| > 0 && Consistent(original, records, ncas, Hashes(), if d < |before| then d else |before| - 1)
    }

    /** What replaces parts of NCA `i`, given the records when its turn comes. */
    function ChangesOf(i: nat, records: seq<Record>): Changes
      requires i < |before|
    {
      if before[i].kind == Meta then MetaChanges(h, before[i], original, records) else before[i].changes
    }

    /** A new ID, the record and the entry name, if the bytes that went out have another hash. */
    method UpdateIds(i: nat, cleanHash: Hash, dirtyHash: Hash) returns (ok: bool)
      requires i < |ncas| && image.Valid() && |dirtyHash| >= ID_SIZE && i < |image.Names| && 2 * ID_SIZE <= |image.Names[i]|
      modifies this`ncas, this`records, image`nameTable, image`Names
      ensures image.Valid() && |image.nameTable| == |old(image.nameTable)|
      ensures |ncas| == |old(ncas)| && ncas == old(ncas)[i := ncas[i]]
      ensures !ok ==> records == old(records) && cleanHash != dirtyHash
      ensures !ok ==> Updated(records, Rehashed(old(ncas)[i], dirtyHash)).None?
      ensures ok ==>
        Settled(i, old(ncas)[i], cleanHash, dirtyHash, ncas[i], old(records), records, old(image.Names), image.Names)
    {
      if cleanHash == dirtyHash {
        return true;
      }
      var nca := Rehashed(ncas[i], dirtyHash);
      ncas := ncas[i := nca];
      var updated := Updated(records, nca);
      if updated.None? {
        return false;
      }
      records := updated.value;
      ok := image.UpdateName(i, Hex(nca.id));
    }

    /**
     * A Meta NCA is prepared when its turn comes, which may fail; it does for one that
     * has not been initialised.
     */
    method PrepareNca(i: nat) returns (ok: bool)
      requires i < |ncas| == |before| && ncas[i] == before[i]
      modifies this`ncas
      ensures ok ==> ncas == old(ncas)[i := before[i].(changes := ChangesOf(i, records))]
      ensures before[i].kind == Meta && (before[i].id == [] || |before[i].clean| < 0xC00) ==> !ok
    {
      ok := true;
      if ncas[i].kind == Meta {
        if h.sha(h.cnmt.Raw(records)) != h.sha(h.cnmt.Raw(original)) {
          ok := *;
          if !ok {
            return;
          }
          ncas := ncas[i := ncas[i].(changes := MetaPatched(h, ncas[i].clean, records))];
        }
        ok := HasHeader(ncas[i]);
      }
    }

    /** NCA `i` as it is after its turn. */
    function Outcome(i: nat, records: seq<Record>): Option<Nca>
      requires i < |before|
    {
      var changes := ChangesOf(i, records);
      if |h.sha(Emission(before[i].(changes := changes)))| < ID_SIZE then None else Some(Result(h, before[i], changes))
    }

    lemma GoodChange(i: nat, records: seq<Record>)
      requires Good() && i < |before|
      ensures GoodNca(before[i].(changes := ChangesOf(i, records)))
      ensures forall data: seq<byte> :: |h.sha(data)| == HASH_SIZE
      ensures before[i].kind == Meta <==> i == |before| - 1
    {
      assert GoodPatch(h, before[|before| - 1].clean, records);
    }

    lemma SentNames(
      i: nat, cleanHash: Hash, dirtyHash: Hash, after: Nca, records: seq<Record>, recordsAfter: seq<Record>,
      names: seq<string>, namesAfter: seq<string>, ncas: seq<Nca>)
      requires Good() && i < |before|
      requires Settled(i, before[i].(changes := ChangesOf(i, records)), cleanHash, dirtyHash, after, records, recordsAfter,
                 names, namesAfter)
      requires |dirtyHash| == HASH_SIZE && NamesAre(names, Order(), i, before, ncas, ticket)
      ensures NamesAre(namesAfter, Order(), i + 1, before, ncas[i := after], ticket)
    {
      GoodChange(i, records);
      PlanStarts(before, authoring, ticket);
      SettledNames(i, before[i].(changes := ChangesOf(i, records)), cleanHash, dirtyHash, after, records, recordsAfter,
        names, namesAfter, Order(), before, ncas, ticket);
    }

    lemma SentPiece(
      i: nat, cleanHash: Hash, dirtyHash: Hash, after: Nca, records: seq<Record>, recordsAfter: seq<Record>,
      names: seq<string>, namesAfter: seq<string>, ncas: seq<Nca>, pieces: seq<seq<byte>>, xml: seq<byte>)
      requires Good() && i < |before| == |ncas|
      requires Settled(i, before[i].(changes := ChangesOf(i, records)), cleanHash, dirtyHash, after, records, recordsAfter,
                 names, namesAfter)
      requires |dirtyHash| == HASH_SIZE && PiecesAre(pieces, Order(), i, ncas, xml, ticket)
      ensures PiecesAre(pieces + [Emission(before[i].(changes := ChangesOf(i, records)))], Order(), i + 1,
                ncas[i := after], xml, ticket)
    {
      GoodChange(i, records);
      PlanStarts(before, authoring, ticket);
      SettledSame(i, before[i].(changes := ChangesOf(i, records)), cleanHash, dirtyHash, after, records, recordsAfter,
        names, namesAfter);
      PiecesAfterNca(pieces, Order(), i, ncas, after, xml, ticket);
    }

    lemma SentRecords(
      i: nat, cleanHash: Hash, dirtyHash: Hash, after: Nca, records: seq<Record>, recordsAfter: seq<Record>,
      names: seq<string>, namesAfter: seq<string>, ncas: seq<Nca>)
      requires Good() && i < |before| - 1 && SameNcas(before, ncas) && ncas[i] == before[i]
      requires Settled(i, before[i], cleanHash, dirtyHash, after, records, recordsAfter, names, namesAfter)
      requires dirtyHash == h.sha(Emission(before[i])) && Verified(records, before[i], cleanHash)
      requires Consistent(original, records, ncas, Hashes(), i)
      ensures Consistent(original, recordsAfter, ncas[i := after], Hashes(), i + 1)
    {
      GoodChange(i, records);
      forall a | 0 <= a < i ensures !SameTriple(ncas[a], before[i]) {
        assert SameNca(before[a], ncas[a]);
      }
      SettledRecords(i, before[i], cleanHash, dirtyHash, after, records, recordsAfter, names, namesAfter,
        original, ncas, Hashes());
    }

    lemma SentMeta(
      cleanHash: Hash, dirtyHash: Hash, after: Nca, nca: Nca, records: seq<Record>, recordsAfter: seq<Record>,
      names: seq<string>, namesAfter: seq<string>, ncas: seq<Nca>)
      requires |ncas| == |before| > 0 && nca.kind == Meta && GoodNca(nca) && |dirtyHash| == HASH_SIZE
      requires Settled(|before| - 1, nca, cleanHash, dirtyHash, after, records, recordsAfter, names, namesAfter)
      requires Consistent(original, records, ncas, Hashes(), |before| - 1)
      ensures recordsAfter == records
      ensures Consistent(original, recordsAfter, ncas[|before| - 1 := after], Hashes(), |before| - 1)
    {
      MetaNca(original, records, ncas, Hashes(), |before| - 1, after);
    }

    lemma SentOutcome(
      i: nat, cleanHash: Hash, dirtyHash: Hash, after: Nca, nca: Nca, records: seq<Record>, recordsAfter: seq<Record>,
      names: seq<string>, namesAfter: seq<string>)
      requires i < |before| && nca == before[i].(changes := ChangesOf(i, records)) && |dirtyHash| == HASH_SIZE
      requires Settled(i, nca, cleanHash, dirtyHash, after, records, recordsAfter, names, namesAfter)
      requires cleanHash == h.sha(nca.clean) && dirtyHash == h.sha(Emission(nca))
      ensures Outcome(i, records) == Some(after)
    {
    }

    /** Everything is in order before NCA `i`. */
    ghost predicate Ready(
      i: nat, names: seq<string>, pieces: seq<seq<byte>>, ncas: seq<Nca>, records: seq<Record>, xml: seq<byte>)
    {
      i < |before| == |ncas| && ncas[i] == before[i] && NamesAre(names, Order(), i, before, ncas, ticket) &&
      PiecesAre(pieces, Order(), i, ncas, xml, ticket) && Consistent(original, records, ncas, Hashes(), i)
    }

    /** Everything is in order after NCA `i`; `ncas` and `recordsWas` are from before it. */
    ghost predicate Sent(
      i: nat, ncas: seq<Nca>, recordsWas: seq<Record>, names: seq<string>, pieces: seq<seq<byte>>, after: seq<Nca>,
      records: seq<Record>, xml: seq<byte>)
    {
      i < |before| == |ncas| && Outcome(i, recordsWas).Some? && after == ncas[i := Outcome(i, recordsWas).value] &&
      NamesAre(names, Order(), i + 1, before, after, ticket) && PiecesAre(pieces, Order(), i + 1, after, xml, ticket) &&
      Consistent(original, records, after, Hashes(), if i + 1 < |before| then i + 1 else i) &&
      (i == |before| - 1 ==> records == recordsWas)
    }

    lemma SettledIsSent(
      i: nat, e: Nca, cleanHash: Hash, dirtyHash: Hash, after: Nca, records: seq<Record>, recordsAfter: seq<Record>,
      names: seq<string>, namesAfter: seq<string>, ncas: seq<Nca>, pieces: seq<seq<byte>>, xml: seq<byte>)
      requires Good() && Ready(i, names, pieces, ncas, records, xml) && Emitted(i, records, cleanHash, dirtyHash)
      requires e == before[i].(changes := ChangesOf(i, records))
      requires Settled(i, e, cleanHash, dirtyHash, after, records, recordsAfter, names, namesAfter)
      ensures Sent(i, ncas, records, namesAfter, pieces + [Emission(e)], ncas[i := after], recordsAfter, xml)
    {
      hide Plan, NamesAre, PiecesAre, Consistent, Settled, GoodTitle, GoodNca, Emission, Verified, Outcome, MetaChanges;
      GoodChange(i, records);
      SentNames(i, cleanHash, dirtyHash, after, records, recordsAfter, names, namesAfter, ncas);
      SentPiece(i, cleanHash, dirtyHash, after, records, recordsAfter, names, namesAfter, ncas, pieces, xml);
      SentOutcome(i, cleanHash, dirtyHash, after, e, records, recordsAfter, names, namesAfter);
      if i < |before| - 1 {
        assert e == before[i];
        NamesSame(names, i, ncas);
        SentRecords(i, cleanHash, dirtyHash, after, records, recordsAfter, names, namesAfter, ncas);
      } else {
        SentMeta(cleanHash, dirtyHash, after, e, records, recordsAfter, names, namesAfter, ncas);
      }
    }

    lemma NamesSame(names: seq<string>, d: nat, ncas: seq<Nca>)
      requires NamesAre(names, Order(), d, before, ncas, ticket)
      ensures SameNcas(before, ncas)
    {
    }

    /**
     * The records do not go with NCA `i`, which is not the Meta NCA: its bytes are not
     * the recorded ones, or it was changed and its new ID has nowhere to go.
     */
    predicate Unfit(i: nat)
      requires i < |before| - 1
      reads this`records
    {
      !Verified(records, before[i], h.sha(before[i].clean)) ||
      (h.sha(before[i].clean) != h.sha(Emission(before[i])) && FindTriple(records, before[i]) == |records|)
    }

    ghost predicate SomeUnfit()
      reads this`records
    {
      exists i :: 0 <= i < |before| - 1 && Unfit(i)
    }

    /**
     * The title is sound: its NCAs are the recorded ones, and no changed NCA happens
     * to get the content ID that another NCA was read with.
     */
    ghost predicate SoundTitle()
    {
      |before| > 0 &&
      (forall k :: 0 <= k < |before| - 1 ==> Verified(original, before[k], h.sha(before[k].clean))) &&
      (forall a, k :: 0 <= a < |before| - 1 && 0 <= k < |before| - 1 && a != k ==>
         !(before[k].id <= h.sha(Emission(before[a]))))
    }

    /** In a sound title two NCAs never have the same content ID. */
    lemma OwnIds(i: nat, ncas: seq<Nca>, a: nat)
      requires Good() && SoundTitle() && a < i < |before| - 1 && |ncas| == |before|
      requires Outcome(a, records) == Some(ncas[a])
      ensures ncas[a].id != before[i].id && !SameTriple(ncas[a], before[i])
    {
      GoodChange(a, records);
      var r := FindId(original, before[a].id);
      assert HasTriple(original[r], before[a]);
    }

    /** With the records as they are when its turn comes, an NCA of a sound title passes the check. */
    lemma NeverUnfit(i: nat)
      requires Good() && SoundTitle() && i < |before| - 1 && Outcomes(i) && RecordsRight(i)
      ensures !Unfit(i)
    {
      hide Outcome, Emission;
      var nca := before[i];
      var r := FindId(original, nca.id);
      forall q | 0 <= q < |records| && records[q] != original[q]
        ensures records[q].id != nca.id && !HasTriple(records[q], nca)
      {
        var a :| TouchedBy(records[q], ncas, a, i);
        OwnIds(i, ncas, a);
      }
      assert HasTriple(original[r], nca) && HasTriple(records[r], nca);
      assert records[r] == original[r];
      var q := FindId(records, nca.id);
      assert q <= r && original[q].id == nca.id;
    }

    /** Prepare the NCA and write it. */
    method EmitNca(i: nat) returns (ok: bool, cleanHash: Hash, dirtyHash: Hash, ghost interrupted: bool)
      requires Good() && i < |ncas| == |before| && ncas[i] == before[i] && Written()
      modifies this`ncas, this`body, this`pieces, this`nspOffset, this`dataWritten
      ensures ok ==> Written() && Emitted(i, records, cleanHash, dirtyHash)
      ensures ok ==> pieces == old(pieces) + [Emission(before[i].(changes := ChangesOf(i, records)))]
      ensures ok ==> ncas == old(ncas)[i := before[i].(changes := ChangesOf(i, records))]
      ensures !ok && !interrupted ==> i < |before| - 1 && Unfit(i)
    {
      hide IsWritten, GoodTitle, GoodNca, Emission, MetaChanges;
      GoodChange(i, records);
      ok := PrepareNca(i);
      if !ok {
        return false, [], [], true;
      }
      var nca := ncas[i];
      ok, cleanHash, dirtyHash, interrupted := StreamNca(nca);
      if !ok && !interrupted {
        MetaIsVerified(i, nca);
      }
      pieces := pieces + [Emission(nca)];
      WrittenPush(old(body), old(pieces), old(nspOffset), old(dataWritten), headerSize, Emission(nca));
    }

    /** The Meta NCA itself is never refused. */
    lemma MetaIsVerified(i: nat, nca: Nca)
      requires Good() && i < |before| && nca == before[i].(changes := ChangesOf(i, records))
      requires !Verified(records, nca, h.sha(nca.clean))
      ensures i < |before| - 1 && Unfit(i)
    {
    }

    predicate Emitted(i: nat, records: seq<Record>, cleanHash: Hash, dirtyHash: Hash)
      requires i < |before|
    {
      var e := before[i].(changes := ChangesOf(i, records));
      cleanHash == h.sha(e.clean) && dirtyHash == h.sha(Emission(e)) && Verified(records, e, cleanHash)
    }

    /** Compare the hashes of what was read and of what was written. */
    method SettleNca(
      i: nat, cleanHash: Hash, dirtyHash: Hash, ghost was: seq<Nca>, ghost out: seq<seq<byte>>, ghost e: Nca)
      returns (ok: bool)
      requires Good() && Ready(i, image.Names, out, was, records, xml) && Emitted(i, records, cleanHash, dirtyHash)
      requires image.Valid() && |dirtyHash| == HASH_SIZE && i < |was| == |before|
      requires e == before[i].(changes := ChangesOf(i, records)) && ncas == was[i := e] && ncas[i] == e
      modifies this`ncas, this`records, image`nameTable, image`Names
      ensures image.Valid() && |image.nameTable| == |old(image.nameTable)|
      ensures ok ==> Sent(i, was, old(records), image.Names, out + [Emission(e)], ncas, records, xml)
      ensures !ok ==> records == old(records) && i < |before| - 1 && Unfit(i)
    {
      hide Plan, Ready, Sent, Settled, GoodTitle, Emission, Verified, ChangesOf, Emitted, Unfit, Updated, HasTriple;
      RoomForId(i, image.Names, out, was);
      ok := UpdateIds(i, cleanHash, dirtyHash);
      if ok {
        UpdatedTwice(was, i, e, ncas[i]);
        SettledIsSent(i, e, cleanHash, dirtyHash, ncas[i], old(records), records, old(image.Names), image.Names,
          was, out, xml);
      } else {
        NowhereToGo(i, e, cleanHash, dirtyHash);
      }
    }

    lemma NowhereToGo(i: nat, nca: Nca, cleanHash: Hash, dirtyHash: Hash)
      requires Good() && i < |before| && |dirtyHash| == HASH_SIZE && nca == before[i].(changes := ChangesOf(i, records))
      requires Emitted(i, records, cleanHash, dirtyHash) && cleanHash != dirtyHash
      requires Updated(records, Rehashed(nca, dirtyHash)).None?
      ensures i < |before| - 1 && Unfit(i)
    {
      GoodChange(i, records);
      var r := FindTriple(records, before[i]);
      assert r < |records| ==> HasTriple(records[r], Rehashed(nca, dirtyHash));
    }

    lemma RoomForId(i: nat, names: seq<string>, out: seq<seq<byte>>, was: seq<Nca>)
      requires Ready(i, names, out, was, records, xml)
      ensures i < |names| && 2 * ID_SIZE <= |names[i]|
    {
      PlanStarts(before, authoring, ticket);
      NamesRenamed(names, Order(), i, before, was, ticket);
    }

    method SendNca(i: nat) returns (ok: bool, ghost interrupted: bool)
      requires Good() && i < |before| && Progress(i) && RecordsRight(i) && |ncas| == |before| && ncas[i] == before[i]
      modifies this`ncas, this`records, this`body, this`pieces, this`nspOffset, this`dataWritten
      modifies image`nameTable, image`Names
      ensures ok ==> Progress(i + 1) && RecordsRight(i + 1) && |image.nameTable| == |old(image.nameTable)|
      ensures ok ==> Outcome(i, old(records)).Some? && ncas == old(ncas)[i := Outcome(i, old(records)).value]
      ensures (ok && i == |before| - 1) || !ok ==> records == old(records)
      ensures !ok && !interrupted ==> i < |before| - 1 && Unfit(i)
    {
      hide Plan, NamesAre, PiecesAre, IsWritten, Consistent, GoodTitle, Emission, Outcome, ChangesOf, Emitted, Unfit;
      var cleanHash, dirtyHash;
      ok, cleanHash, dirtyHash, interrupted := EmitNca(i);
      if !ok {
        return;
      }
      HashIs(i, records, cleanHash, dirtyHash);
      ok := SettleNca(i, cleanHash, dirtyHash, old(ncas), old(pieces), ncas[i]);
    }

    lemma HashIs(i: nat, records: seq<Record>, cleanHash: Hash, dirtyHash: Hash)
      requires Good() && i < |before| && Emitted(i, records, cleanHash, dirtyHash)
      ensures |dirtyHash| == HASH_SIZE
    {
    }

    /** The NCAs after the second pass: the Meta NCA was prepared from the final records. */
    ghost predicate Outcomes(d: nat)
      reads this`ncas, this`records
    {
      |ncas| == |before| && d <= |before| &&
      forall k :: 0 <= k < d ==> Outcome(k, records) == Some(ncas[k])
    }

    lemma OutcomeElsewhere(k: nat, a: seq<Record>, b: seq<Record>)
      requires k < |before| && before[k].kind != Meta
      ensures Outcome(k, a) == Outcome(k, b)
    {
    }

    method SendNcas() returns (ok: bool, ghost interrupted: bool)
      requires Good() && Progress(0) && RecordsRight(0) && ncas == before
      modifies this`ncas, this`records, this`body, this`pieces, this`nspOffset, this`dataWritten
      modifies image`nameTable, image`Names
      ensures ok ==> Progress(|before|) && RecordsRight(|before|) && Outcomes(|before|)
      ensures ok ==> |image.nameTable| == |old(image.nameTable)|
      ensures !ok && !interrupted ==> SomeUnfit() && !SoundTitle()
    {
      hide Progress, RecordsRight, GoodTitle, Outcome, Unfit, SoundTitle;
      interrupted := false;
      for i := 0 to |before|
        invariant Progress(i) && RecordsRight(i) && Outcomes(i)
        invariant |image.nameTable| == |old(image.nameTable)|
        invariant forall k :: i <= k < |before| ==> ncas[k] == before[k]
      {
        ghost var was := records;
        GoodChange(i, records);
        if i < |before| - 1 && SoundTitle() {
          NeverUnfit(i);
        }
        ok, interrupted := SendNca(i);
        if !ok {
          return;
        }
        forall k | 0 <= k < i ensures Outcome(k, records) == Outcome(k, was) {
          GoodChange(k, records);
          OutcomeElsewhere(k, records, was);
        }
        if i < |before| - 1 {
          OutcomeElsewhere(i, records, was);
        }
      }
      ok := true;
    }

    /** Write the data of entry `d`. */
    method Append(data: seq<byte>, ghost d: nat)
      requires Written() && PiecesAre(pieces, Order(), d, ncas, xml, ticket) && d < |Order()|
      requires InRange(Order()[d], ncas, ticket) && data == DataOf(Order()[d], ncas, xml, ticket)
      modifies this`body, this`pieces, this`nspOffset, this`dataWritten
      ensures Written() && PiecesAre(pieces, Order(), d + 1, ncas, xml, ticket)
    {
      hide Plan, PiecesAre, IsWritten, DataOf, InRange;
      PiecesPush(pieces, Order(), d, ncas, xml, ticket);
      WrittenPush(body, pieces, nspOffset, dataWritten, headerSize, data);
      body := body + data;
      pieces := pieces + [data];
      nspOffset, dataWritten := nspOffset + |data|, dataWritten + |data|;
    }

    /** Write an entry's data and put its NCA's content ID into its name. */
    method PutEntry(data: seq<byte>, index: nat, id: Id) returns (ok: bool)
      requires Progress(index) && index < |Order()| && !Order()[index].TicketData? && !Order()[index].CertData?
      requires InRange(Order()[index], ncas, ticket) && data == DataOf(Order()[index], ncas, xml, ticket)
      requires |id| == ID_SIZE && |ncas| > 0 && id == ncas[Owner(Order()[index], |ncas|)].id
      modifies this`body, this`pieces, this`nspOffset, this`dataWritten, image`nameTable, image`Names
      ensures ok && Progress(index + 1) && |image.nameTable| == |old(image.nameTable)|
    {
      hide Plan, NamesAre, PiecesAre, IsWritten, DataOf, InRange, Owner;
      Append(data, index);
      NamesRenamed(image.Names, Order(), index, before, ncas, ticket);
      NamesCount(image.Names, index);
      ok := image.UpdateName(index, Hex(id));
    }

    lemma NamesCount(names: seq<string>, d: nat)
      requires NamesAre(names, Order(), d, before, ncas, ticket)
      ensures |names| == |Order()|
    {
    }

    /** Write an entry whose name never changes. */
    method PutTicketEntry(data: seq<byte>, ghost d: nat)
      requires Progress(d) && d < |Order()| && (Order()[d].TicketData? || Order()[d].CertData?)
      requires InRange(Order()[d], ncas, ticket) && data == DataOf(Order()[d], ncas, xml, ticket)
      modifies this`body, this`pieces, this`nspOffset, this`dataWritten
      ensures Progress(d + 1)
    {
      hide Plan, NamesAre, PiecesAre, IsWritten, DataOf, InRange;
      NamesKept(image.Names, Order(), d, before, ncas, ticket);
      Append(data, d);
    }

    /** What progress says of the NCAs and of entry `k`. */
    lemma InProgress(d: nat, k: nat)
      requires Progress(d) && k < |Order()|
      ensures SameNcas(before, ncas) && |ncas| == |before| > 0 && InRange(Order()[k], ncas, ticket)
    {
    }

    /** The generated data of NCA `i` in the order of entries. */
    lemma InfoAt(i: nat, t: nat)
      requires authoring && i < |before| - 1 && t < |InfoSources(before[i].context, i)|
      ensures InfoIndex(before, i) + t < |Order()|
      ensures Order()[InfoIndex(before, i) + t] == InfoSources(before[i].context, i)[t]
    {
      InfoPlace(before, ticket, i);
      var at, info := InfoIndex(before, i), InfoSources(before[i].context, i);
      assert Order()[at..at + |info|][t] == info[t];
    }

    lemma InfoIndexNext(i: nat)
      requires i < |before|
      ensures InfoIndex(before, i + 1) == InfoIndex(before, i) + |InfoSources(before[i].context, i)|
    {
    }

    /** The last entry for an NCA is its XML; before it come the icons. */
    lemma InfoParts(i: nat)
      requires authoring && i < |before| - 1 && !before[i].context.NoContext?
      ensures var at := InfoIndex(before, i + 1); 0 < at <= |Order()| && Order()[at - 1] == InfoXml(i)
      ensures !before[i].context.Nacp? ==> InfoIndex(before, i + 1) == InfoIndex(before, i) + 1
      ensures before[i].context.Nacp? ==>
        InfoIndex(before, i + 1) == InfoIndex(before, i) + |before[i].context.icons| + 1 &&
        forall j :: 0 <= j < |before[i].context.icons| ==> Order()[InfoIndex(before, i) + j] == IconData(i, j)
    {
      hide InfoIndex, Plan;
      InfoIndexNext(i);
      var info := InfoSources(before[i].context, i);
      InfoAt(i, |info| - 1);
      if before[i].context.Nacp? {
        forall j | 0 <= j < |before[i].context.icons|
          ensures Order()[InfoIndex(before, i) + j] == IconData(i, j)
        {
          InfoAt(i, j);
        }
      }
    }

    method PutIcons(i: nat, icons: seq<Icon>, first: nat) returns (ok: bool, next: nat)
      requires Progress(first) && i < |before| - 1 && before[i].context.Nacp? && before[i].context.icons == icons
      requires |ncas| == |before| && SameNca(before[i], ncas[i]) && first + |icons| <= |Order()|
      requires forall j :: 0 <= j < |icons| ==> Order()[first + j] == IconData(i, j)
      modifies this`body, this`pieces, this`nspOffset, this`dataWritten, image`nameTable, image`Names
      ensures ok && Progress(next) && next == first + |icons| && |image.nameTable| == |old(image.nameTable)|
    {
      hide Plan, Progress;
      next := first;
      ok := true;
      for j := 0 to |icons|
        invariant Progress(next) && next == first + j && |image.nameTable| == |old(image.nameTable)| && ok
      {
        InProgress(next, first + j);
        assert Order()[next] == IconData(i, j);
        ok := PutEntry(icons[j].data, next, ncas[i].id);
        next := next + 1;
        if !ok {
          return;
        }
      }
    }

    /** Everything that was generated for one NCA, at the index the first pass noted. */
    method PutInfo(i: nat) returns (ok: bool)
      requires authoring && i < |before| - 1 && !before[i].context.NoContext?
      requires Progress(InfoIndex(before, i)) && Indices()
      modifies this`body, this`pieces, this`nspOffset, this`dataWritten, image`nameTable, image`Names
      ensures ok && Progress(InfoIndex(before, i + 1)) && |image.nameTable| == |old(image.nameTable)|
    {
      hide Plan, Progress, InfoIndex;
      InfoParts(i);
      InProgress(InfoIndex(before, i), InfoIndex(before, i + 1) - 1);
      var nca := ncas[i];
      assert SameNca(before[i], nca);
      var index := dataIdx[i];
      if nca.context.Nacp? {
        ok, index := PutIcons(i, nca.context.icons, index);
        if !ok {
          return;
        }
      }
      InProgress(index, index);
      ok := PutEntry(nca.context.xml, index, nca.id);
    }

    /** The content meta XML, generated again from the new IDs and hashes. */
    method PutCnmtXml() returns (ok: bool)
      requires authoring && Progress(|before|) && Indices()
      modifies this`xml, this`body, this`pieces, this`nspOffset, this`dataWritten, image`nameTable, image`Names
      ensures ok <==> XmlPossible(ncas, records)
      ensures ok ==> Progress(|before| + 1) && xml == Xml(h.markup, ncas) && |image.nameTable| == |old(image.nameTable)|
    {
      hide Plan, IsWritten, NamesAre, XmlPossible;
      PlanStarts(before, authoring, ticket);
      InProgress(|before|, |before|);
      ok := GenerateXml();
      if !ok {
        return;
      }
      PiecesNewXml(pieces, Order(), ncas, old(xml), xml, ticket);
      ok := PutEntry(xml, dataIdx[|before| - 1], ncas[|before| - 1].id);
    }

    /** The content meta XML and the generated data of all other NCAs. */
    method PutAuthoring() returns (ok: bool)
      requires authoring && Progress(|before|) && Indices()
      modifies this`xml, this`body, this`pieces, this`nspOffset, this`dataWritten, image`nameTable, image`Names
      ensures ok <==> XmlPossible(ncas, records)
      ensures ok ==> Progress(InfoIndex(before, |before| - 1)) && xml == Xml(h.markup, ncas)
      ensures ok ==> |image.nameTable| == |old(image.nameTable)|
    {
      hide Plan, Progress, InfoIndex, XmlPossible;
      ok := PutCnmtXml();
      if !ok {
        return;
      }
      InfoStarts();
      for i := 0 to |before| - 1
        invariant Progress(InfoIndex(before, i)) && Indices() && xml == Xml(h.markup, ncas)
        invariant |image.nameTable| == |old(image.nameTable)|
      {
        if before[i].context.NoContext? {
          InfoIndexNext(i);
        } else {
          ok := PutInfo(i);
          if !ok {
            return;
          }
        }
      }
      ok := true;
    }

    lemma InfoStarts()
      ensures InfoIndex(before, 0) == |before| + 1
    {
    }

    method PutTicket(ghost d: nat)
      requires ticket.Some? && Progress(d) && d + 2 == |Order()|
      modifies this`body, this`pieces, this`nspOffset, this`dataWritten
      ensures Progress(d + 2)
    {
      hide Plan, Progress;
      PlanStarts(before, authoring, ticket);
      InProgress(d, d);
      InProgress(d, d + 1);
      PutTicketEntry(ticket.value.data, d);
      PutTicketEntry(ticket.value.certs, d + 1);
    }

    /** All that the second pass writes before the header. */
    method PutAll() returns (ok: bool, ghost interrupted: bool)
      requires Good() && (authoring ==> XmlPossible(before, original)) && Progress(0) && RecordsRight(0)
      requires ncas == before && (authoring ==> Indices()) && xml == FirstXml()
      modifies this`ncas, this`records, this`xml, this`body, this`pieces, this`nspOffset, this`dataWritten
      modifies image`nameTable, image`Names
      ensures ok ==> Progress(|Order()|) && RecordsRight(|before|) && Outcomes(|before|)
      ensures ok ==> xml == (if authoring then Xml(h.markup, ncas) else [])
      ensures ok ==> |image.nameTable| == |old(image.nameTable)|
      ensures !ok && !interrupted ==> SomeUnfit() && !SoundTitle()
    {
      hide Plan, Progress, RecordsRight, Outcomes, GoodTitle, InfoIndex, Unfit, SoundTitle, XmlPossible;
      ok, interrupted := SendNcas();
      if !ok {
        return;
      }
      ghost var d := |before|;
      SomeNcas();
      PlanEnds(before, ticket);
      if authoring {
        SecondXmlPossible();
        ok := PutAuthoring();
        d := InfoIndex(before, |before| - 1);
      }
      if ticket.Some? {
        PutTicket(d);
      }
    }

    lemma LastIsMeta()
      requires Good() && Progress(|before|)
      ensures |ncas| == |before| > 0 && ncas[|before| - 1].kind == Meta
    {
      hide PiecesAre, Plan, IsWritten;
      assert SameNca(before[|before| - 1], ncas[|before| - 1]);
    }

    lemma SecondXmlPossible()
      requires Good() && XmlPossible(before, original) && Progress(|before|) && RecordsRight(|before|)
      ensures XmlPossible(ncas, records)
    {
      hide XmlPossible, Consistent, GoodTitle, Progress;
      LastIsMeta();
      XmlStillPossible(original, records, before, ncas, Hashes(), |before| - 1);
    }

    lemma SomeNcas()
      requires Good()
      ensures |before| > 0
    {
    }

    lemma SecondPassStarts()
      requires Good() && LaidOut() && ncas == before && records == original && body == [] && pieces == [] && dataWritten == 0
      ensures Progress(0) && RecordsRight(0)
    {
      hide Plan, GoodTitle, NamesAre, PiecesAre, Consistent, Indices;
      PlanInRange(before, authoring, ticket);
      GoodShapes();
      NamesStart(image.Names, Order(), before, ticket);
      RecordsStart(original, before, Hashes());
      PiecesStart(Order(), before, xml, ticket);
    }

    lemma GoodShapes()
      requires Good()
      ensures |before| > 0 && SameNcas(before, before)
    {
      assert forall i :: 0 <= i < |before| ==> GoodNca(before[i]);
    }

    lemma SecondPassEnds()
      requires Good() && Progress(|Order()|) && image.Sizes == SizesOf(Order(), before, FirstXml(), ticket)
      requires xml == if authoring then Xml(h.markup, ncas) else []
      ensures ArchiveIs(Header(image.entries, image.nameTable), body, Order(), ncas, xml, ticket)
      ensures |body| == image.fsSize && nspOffset == headerSize + |body| && dataWritten == |body| && image.Valid()
    {
      hide Plan, GoodTitle, NamesAre, PiecesAre, ArchiveIs, Xml;
      NamesSame(image.Names, |Order()|, ncas);
      XmlKeepsSize(h.markup, before, ncas);
      PlanInRange(before, authoring, ticket);
      PassesAgree(pieces, Order(), before, ncas, FirstXml(), xml, ticket);
      ArchiveHolds(image.entries, image.nameTable, image.fsSize, image.Names, image.Sizes, pieces,
        Order(), before, ncas, xml, ticket);
    }

    /** The archive is in the file, and everything about it is consistent. */
    ghost predicate Complete()
      reads this, image
    {
      ArchiveIs(Header(image.entries, image.nameTable), body, Order(), ncas, xml, ticket) &&
      front == HeaderBytes(image.entries, image.nameTable) && |front| == headerSize <= blockSize &&
      ByteChars(image.nameTable) &&
      xml == (if authoring then Xml(h.markup, ncas) else []) &&
      dataWritten == totalSize == headerSize + |body| == nspOffset &&
      RecordsRight(|before|) && Outcomes(|before|)
    }

    /** The whole file. */
    function File(): seq<byte>
      reads this`front, this`body
    {
      front + body
    }

    /** Blocks and files are not larger than the fields of a header can say. */
    predicate Storable()
      reads this`totalSize
    {
      blockSize < 0x1_0000_0000 && totalSize < 0x1_0000_0000_0000_0000
    }

    /** Entry `k`, as it is read from the bytes of the finished file alone. */
    lemma EntryReads(k: nat)
      requires Good() && Complete() && Storable() && k < |Order()|
      ensures HasMagic(File()) && CountIn(File()) == |Order()| && BodyAt(File()) == headerSize
      ensures |ncas| > 0 && InRange(Order()[k], ncas, ticket)
      ensures NameIn(File(), k) == NameOf(Order()[k], ncas, ticket)
      ensures DataIn(File(), k) == DataOf(Order()[k], ncas, xml, ticket)
    {
      hide GoodTitle, RecordsRight, Outcomes, HeaderBytes, Plan, HasMagic, CountIn, BodyAt, NameIn, DataIn, NameOf, DataOf;
      assert EntryIs(Header(image.entries, image.nameTable), body, Order()[k], k, ncas, xml, ticket);
      assert |image.entries| < |front| by { ManyEntries(); }
      FileReads(image.entries, image.nameTable, body, k);
    }

    lemma ManyEntries()
      requires front == HeaderBytes(image.entries, image.nameTable)
      ensures |image.entries| < |front|
    {
      hide HeaderBytes;
    }

    lemma EntryOfNca(k: nat)
      requires Good() && Complete() && Storable() && k < |before|
      ensures |ncas| == |before| && HasMagic(File()) && k < CountIn(File())
      ensures DataIn(File(), k) == Emission(ncas[k])
      ensures NameIn(File(), k) == Hex(ncas[k].id) + if ncas[k].kind == Meta then ".cnmt.nca" else ".nca"
    {
      hide GoodTitle, RecordsRight, Outcome, Emission, Hex, ArchiveIs, HeaderBytes;
      hide HasMagic, CountIn, BodyAt, NameIn, DataIn;
      PlanStarts(before, authoring, ticket);
      EntryReads(k);
    }

    /** An entry of the finished file has this name and this data. */
    predicate Has(k: nat, name: string, data: seq<byte>)
      reads this`front, this`body
    {
      k < CountIn(File()) && NameIn(File(), k) == name && DataIn(File(), k) == data
    }

    /** The two last entries are ticket and certificate chain. */
    lemma TicketIsLast()
      requires Good() && Complete() && Storable() && ticket.Some?
      ensures var n := CountIn(File());
        n >= 2 && Has(n - 2, ticket.value.rights + ".tik", ticket.value.data) &&
        Has(n - 1, ticket.value.rights + ".cert", ticket.value.certs)
    {
      hide GoodTitle, Complete, File, CountIn, NameIn, DataIn, HasMagic, BodyAt, Plan;
      PlanStarts(before, authoring, ticket);
      var n := |Order()|;
      EntryReads(n - 2);
      EntryReads(n - 1);
    }

    /** Behind the NCAs comes the content meta XML, named after the Meta NCA. */
    lemma XmlIsNext()
      requires Good() && Complete() && Storable() && authoring && |before| > 0
      ensures |ncas| == |before| && Has(|before|, Hex(ncas[|before| - 1].id) + ".cnmt.xml", xml)
    {
      SameCount();
      hide GoodTitle, Complete, File, CountIn, NameIn, DataIn, HasMagic, BodyAt, Plan, Hex;
      PlanStarts(before, authoring, ticket);
      EntryReads(|before|);
    }

    lemma SameCount()
      requires Good() && Complete() && |before| > 0
      ensures |ncas| == |before| && forall i :: 0 <= i < |before| ==> ncas[i].context == before[i].context
    {
      forall i | 0 <= i < |before| ensures ncas[i].context == before[i].context {
        OutcomeShape(i);
        GoodChange(i, records);
      }
    }

    lemma SourceIsThere(k: nat)
      requires Good() && Complete() && Storable() && k < |Order()|
      ensures |ncas| > 0 && InRange(Order()[k], ncas, ticket)
      ensures Has(k, NameOf(Order()[k], ncas, ticket), DataOf(Order()[k], ncas, xml, ticket))
    {
      hide GoodTitle, Complete, File, CountIn, NameIn, DataIn, HasMagic, BodyAt, Plan, NameOf, DataOf;
      EntryReads(k);
    }

    /** An NCA's icons, one for each language, are the entries before `last`. */
    ghost predicate HasIcons(last: int, id: string, icons: seq<Icon>)
      reads this`front, this`body
    {
      |icons| <= last && forall j :: 0 <= j < |icons| ==>
        Has(last - |icons| + j, id + (".nx." + icons[j].language + ".jpg"), icons[j].data)
    }

    /** Then comes each NCA's generated data, its XML last, under the NCA's new content ID. */
    lemma InfoIsThere(i: nat)
      requires Good() && Complete() && Storable() && authoring && i < |before| - 1 && !before[i].context.NoContext?
      ensures |ncas| == |before|
      ensures var last := InfoIndex(before, i + 1) - 1;
        last >= 0 &&
        (before[i].context.ProgramInfo? ==> Has(last, Hex(ncas[i].id) + ".programinfo.xml", before[i].context.xml)) &&
        (before[i].context.LegalInfo? ==> Has(last, Hex(ncas[i].id) + ".legalinfo.xml", before[i].context.xml)) &&
        (before[i].context.Nacp? ==> Has(last, Hex(ncas[i].id) + ".nacp.xml", before[i].context.xml))
    {
      hide Good, Complete, Storable, Order, Has, InfoIndex, Hex, NameOf, DataOf, InfoSources;
      SameCount();
      InfoXmlAt(i);
      SourceIsThere(InfoIndex(before, i + 1) - 1);
      InfoNamed(i);
    }

    lemma InfoXmlAt(i: nat)
      requires authoring && i < |before| - 1 && !before[i].context.NoContext?
      ensures var at := InfoIndex(before, i + 1); 0 < at <= |Order()| && Order()[at - 1] == InfoXml(i)
    {
      hide Order, InfoIndex, InfoSources;
      InfoParts(i);
    }

    lemma InfoNamed(i: nat)
      requires i < |ncas| && !ncas[i].context.NoContext?
      ensures NameOf(InfoXml(i), ncas, ticket) == Hex(ncas[i].id) + InfoSuffix(ncas[i].context)
      ensures DataOf(InfoXml(i), ncas, xml, ticket) == ncas[i].context.xml
    {
    }

    lemma IconsAreThere(i: nat)
      requires Good() && Complete() && Storable() && authoring && i < |before| - 1 && before[i].context.Nacp?
      ensures |ncas| == |before| && HasIcons(InfoIndex(before, i + 1) - 1, Hex(ncas[i].id), before[i].context.icons)
    {
      hide Good, Complete, Storable, Order, Has, InfoIndex, Hex, NameOf, DataOf, InfoSources;
      SameCount();
      var icons := before[i].context.icons;
      InfoIndexOfIcons(i);
      forall j | 0 <= j < |icons|
        ensures Has(InfoIndex(before, i) + j, Hex(ncas[i].id) + (".nx." + icons[j].language + ".jpg"), icons[j].data)
      {
        IconIsThere(i, j);
      }
    }

    lemma InfoIndexOfIcons(i: nat)
      requires authoring && i < |before| - 1 && before[i].context.Nacp?
      ensures InfoIndex(before, i + 1) == InfoIndex(before, i) + |before[i].context.icons| + 1
    {
      hide Order, InfoIndex, InfoSources;
      InfoParts(i);
    }

    lemma IconIsThere(i: nat, j: nat)
      requires Good() && Complete() && Storable() && authoring && i < |before| - 1 && before[i].context.Nacp?
      requires j < |before[i].context.icons|
      ensures |ncas| == |before|
      ensures var icon := before[i].context.icons[j];
        Has(InfoIndex(before, i) + j, Hex(ncas[i].id) + (".nx." + icon.language + ".jpg"), icon.data)
    {
      hide Good, Complete, Storable, Order, Has, InfoIndex, Hex, NameOf, DataOf, InfoSources;
      SameCount();
      IconAt(i, j);
      SourceIsThere(InfoIndex(before, i) + j);
      IconNamed(i, j);
    }

    lemma IconAt(i: nat, j: nat)
      requires authoring && i < |before| - 1 && before[i].context.Nacp? && j < |before[i].context.icons|
      ensures InfoIndex(before, i) + j < |Order()| && Order()[InfoIndex(before, i) + j] == IconData(i, j)
    {
      hide Order, InfoIndex, InfoSources;
      InfoParts(i);
    }

    lemma IconNamed(i: nat, j: nat)
      requires i < |ncas| && ncas[i].context.Nacp? && j < |ncas[i].context.icons|
      ensures NameOf(IconData(i, j), ncas, ticket) ==
        Hex(ncas[i].id) + (".nx." + ncas[i].context.icons[j].language + ".jpg")
      ensures DataOf(IconData(i, j), ncas, xml, ticket) == ncas[i].context.icons[j].data
    {
    }

    /** Updates keep the records encodable. */
    lemma StillEncodable()
      requires Good() && RecordsRight(|before|) && Outcomes(|before|) && AllEncodable(original)
      ensures AllEncodable(records) && |records| == |original|
    {
      hide Outcome, Emission;
      forall r | 0 <= r < |records| ensures Encodable(records[r]) {
        assert Encodable(original[r]);
        if records[r] != original[r] {
          var a :| TouchedBy(records[r], ncas, a, |before| - 1);
          OutcomeShape(a);
        }
      }
    }

    lemma OutcomeShape(k: nat)
      requires Good() && Outcomes(|before|) && k < |before|
      ensures |ncas[k].id| == ID_SIZE && |ncas[k].hash| == HASH_SIZE && ncas[k].kind == before[k].kind
      ensures Emission(ncas[k]) == Emission(before[k].(changes := ChangesOf(k, records)))
    {
      GoodChange(k, records);
      assert Outcome(k, records) == Some(ncas[k]);
    }

    /** The records that a file's Meta NCA gives when it is decrypted and decoded. */
    function DecodedRecords(): seq<Record>
      requires |before| > 0
      reads this`front, this`body
    {
      var data := DataIn(File(), |before| - 1);
      if h.cnmt.at + h.cnmt.Size(|original|) <= |data| then h.cnmt.RecordsIn(data, |original|) else []
    }

    lemma DecodedAreRecords()
      requires Good() && Complete() && Storable() && |before| > 0
      requires HoldsRecords(h, before[|before| - 1], original) && HashesTell(h, original, records)
      ensures DecodedRecords() == records
    {
      hide GoodTitle, Emission, Hex, Outcome, ArchiveIs, RecordsRight, NameIn, DataIn, AllEncodable, HeaderBytes;
      hide HoldsRecords, HashesTell, MetaChanges, Outcomes;
      var m := |before| - 1;
      EntryOfNca(m);
      MetaEmission();
      RecordsStayEncodable();
      MetaCarriesRecords(h, before[m], original, records);
    }

    lemma MetaEmission()
      requires Good() && Outcomes(|before|) && |before| > 0
      ensures Emission(ncas[|before| - 1]) ==
        Emission(before[|before| - 1].(changes := MetaChanges(h, before[|before| - 1], original, records)))
    {
      hide GoodTitle, Emission, Outcomes, MetaChanges;
      GoodChange(|before| - 1, records);
      OutcomeShape(|before| - 1);
    }

    lemma RecordsStayEncodable()
      requires Good() && Complete() && |before| > 0 && HoldsRecords(h, before[|before| - 1], original)
      ensures AllEncodable(records) && |records| == |original|
    {
      hide GoodTitle, Outcomes, RecordsRight, ArchiveIs;
      StillEncodable();
    }

    /**
     * In a finished archive the XML spells the content ID of each NCA at its place,
     * and at the place for the hash that of the NCA's bytes exactly if the NCA was
     * changed or had the right hash before it was read; of an unchanged one it has
     * what initialising left there, which is zeros.
     */
    lemma FinishedXml(k: nat)
      requires Good() && Complete() && k < |before| && authoring
      ensures |ncas| == |before| && |ncas[k].id| == ID_SIZE
      ensures Spelled(xml, IdPlace(h.markup, ncas, k), ID_SIZE) == ncas[k].id
      ensures var hash, spelled := h.sha(Emission(ncas[k])), Spelled(xml, HashPlace(h.markup, ncas, k), HASH_SIZE);
        (spelled == hash <==> h.sha(before[k].clean) != hash || before[k].hash == hash) &&
        (h.sha(before[k].clean) == hash ==> spelled == before[k].hash)
    {
      hide ArchiveIs, RecordsRight, Xml, Emission, HeaderBytes, Spelled, IdPlace, HashPlace;
      GoodChange(k, records);
      OutcomeShape(k);
      assert Outcome(k, records) == Some(ncas[k]);
      XmlHashes(h, before[k], ChangesOf(k, records));
      XmlSpells(h.markup, ncas, k);
    }

    /**
     * A finished file is consistent in itself.  Read from its bytes, it has an entry
     * for every NCA; decrypted and decoded, that of the Meta NCA gives records among
     * which each other NCA entry has one with the content ID that the first 32 digits
     * of the entry's name spell and the hash of the entry's bytes.
     */
    lemma FinishedArchive(k: nat)
      requires Good() && Complete() && Storable() && k < |before| - 1
      requires HoldsRecords(h, before[|before| - 1], original) && HashesTell(h, original, records)
      ensures HasMagic(File()) && |before| <= CountIn(File())
      ensures ListsEntry(DecodedRecords(), NameIn(File(), k), h.sha(DataIn(File(), k)))
    {
      hide GoodTitle, Emission, Hex, Outcome, ArchiveIs, HoldsRecords, HashesTell, NameIn, DataIn, DecodedRecords;
      hide HasMagic, CountIn, HeaderBytes;
      DecodedAreRecords();
      EntryOfNca(k);
      EntryOfNca(|before| - 1);
      OutcomeShape(k);
      GoodChange(k, records);
      RecordOf(k);
    }

    lemma RecordOf(k: nat)
      requires RecordsRight(|before|) && k < |before| - 1 && |ncas| == |before| && |ncas[k].id| == ID_SIZE
      ensures ListsEntry(records, Hex(ncas[k].id) + ".nca", h.sha(Emission(before[k])))
    {
      hide Emission, Hex;
      EveryNcaRecorded(original, records, ncas, Hashes(), |before| - 1, k);
      var r :| 0 <= r < |records| && records[r].id == ncas[k].id && records[r].hash == Hashes()[k];
      NameTells(records[r], h.sha(Emission(before[k])));
    }

    /** The second pass but for the header. */
    method WriteAll() returns (ok: bool, ghost interrupted: bool)
      requires Good() && (authoring ==> XmlPossible(before, original)) && LaidOut()
      requires ncas == before && records == original && body == [] && pieces == [] && dataWritten == 0
      modifies this`ncas, this`records, this`xml, this`body, this`pieces, this`nspOffset, this`dataWritten
      modifies image`nameTable, image`Names
      ensures ok ==> ArchiveIs(Header(image.entries, image.nameTable), body, Order(), ncas, xml, ticket)
      ensures ok ==> |body| == image.fsSize && nspOffset == headerSize + |body| && dataWritten == |body|
      ensures ok ==> RecordsRight(|before|) && Outcomes(|before|)
      ensures ok ==> xml == if authoring then Xml(h.markup, ncas) else []
      ensures ok ==> |image.nameTable| == |old(image.nameTable)| && image.Valid()
      ensures !ok && !interrupted ==> SomeUnfit() && !SoundTitle()
    {
      hide GoodTitle, Plan, Progress, RecordsRight, Outcomes, Indices, NamesOf, ArchiveIs, Unfit, SoundTitle, XmlPossible;
      hide Image, HeaderBytes;
      SecondPassStarts();
      PlanInRange(before, authoring, ticket);
      assert image.Sizes == SizesOf(Order(), before, FirstXml(), ticket);
      ok, interrupted := PutAll();
      if ok {
        SecondPassEnds();
      }
    }

    /**
     * Both passes.  Unless it is cancelled or reading or patching fails, the job
     * fails only if the records do not go with the NCAs, which for a sound title
     * they always do, or the header does not fit into a block.
     */
    method Build() returns (success: bool, ghost interrupted: bool)
      requires Good() && Fresh()
      modifies this, image
      ensures success ==> Complete()
      ensures !success && !interrupted ==>
        (authoring && !XmlPossible(before, original)) || blockSize < image.HeaderSize() ||
        (SomeUnfit() && !SoundTitle())
    {
      hide GoodTitle, Plan, Planned, RecordsRight, Outcomes, Indices, ArchiveIs, Unfit, SoundTitle, XmlPossible;
      hide Image, HeaderBytes, Xml;
      interrupted := false;
      success := LayOut();
      if !success {
        return;
      }
      EntriesPlanned(Order());
      success, interrupted := WriteAll();
      if !success {
        return;
      }
      success := RewriteHeader();
    }

    /** Over the placeholder, with the names as they are by now. */
    method RewriteHeader() returns (ok: bool)
      requires image.Valid() && image.entries != [] && image.HeaderSize() <= blockSize
      modifies this`front, this`dataWritten
      ensures ok && front == HeaderBytes(image.entries, image.nameTable) && |front| == image.HeaderSize()
      ensures ByteChars(image.nameTable) && dataWritten == old(dataWritten) + |front|
    {
      TableText(image.entries, image.nameTable, image.fsSize, image.Names, image.Sizes);
      hide Image, HeaderBytes;
      var buf := new byte[blockSize];
      var size: nat;
      ok, size := image.WriteHeader(buf);
      if !ok {
        return;
      }
      front := buf[..size];
      dataWritten := dataWritten + size;
    }
  }

  /** The record has the content ID in an entry's name, and the hash of its bytes. */
  predicate NamesEntry(record: Record, name: string, hash: Hash)
  {
    |name| == 36 && Unhex(name[..32]) == record.id && name[32..] == ".nca" && record.hash == hash
  }

  lemma NameTells(record: Record, hash: Hash)
    requires |record.id| == ID_SIZE && record.hash == hash
    ensures NamesEntry(record, Hex(record.id) + ".nca", hash)
  {
    UnhexOfHex(record.id);
    assert (Hex(record.id) + ".nca")[..32] == Hex(record.id);
  }

  predicate ListsEntry(records: seq<Record>, name: string, hash: Hash)
  {
    exists r :: 0 <= r < |records| && NamesEntry(records[r], name, hash)
  }

  lemma UpdatedTwice<T>(s: seq<T>, i: nat, x: T, y: T)
    requires i < |s|
    ensures s[i := x][i := y] == s[i := y]
  {
  }

  lemma Sliced(s: seq<byte>, a: nat, b: nat, part: seq<byte>)
    requires a <= b <= |s| && |part| == b - a && forall k :: 0 <= k < b - a ==> part[k] == s[a + k]
    ensures part == s[a..b] && s[..a] + part == s[..b]
    ensures b == |s| ==> s[..b] == s
  {
  }

  lemma NextBlock(front: seq<byte>, s: seq<byte>, a: nat, b: nat, part: seq<byte>)
    requires a <= b <= |s| && part == s[a..b]
    ensures s[..a] + part == s[..b] && (front + s[..a]) + part == front + s[..b]
  {
    assert s[..a] + part == s[..b];
  }
}
