// The order of an NSP's entries, with the name, size and bytes of each.  The first
// pass lays the entries out and the second writes them; both are compared with this.
module NspLayout {
  import opened Options
  import opened Sequences
  import opened NcaPatch
  import opened PfsImage
  import opened NspModel
  import opened LittleEndian

  datatype Source =
    | NcaData(i: nat)
    | CnmtXml
    | InfoXml(i: nat)
    | IconData(i: nat, j: nat)
    | TicketData
    | CertData

  /** The bytes that go out for an NCA. */
  function Emission(nca: Nca): (r: seq<byte>)
    ensures |r| == |nca.clean|
  {
    var c := nca.changes;
    if c.dirty then Overlaid([c.header] + c.fsHeaders + c.regions, nca.clean) else nca.clean
  }

  // ----------------------------------------------------------------- order

  function NcaSources(n: nat): (r: seq<Source>)
    ensures |r| == n
  {
    seq(n, i requires 0 <= i < n => NcaData(i))
  }

  function Icons(i: nat, n: nat): (r: seq<Source>)
    ensures |r| == n
  {
    seq(n, j requires 0 <= j < n => IconData(i, j))
  }

  function InfoSources(context: Context, i: nat): seq<Source>
  {
    match context
    case NoContext => []
    case ProgramInfo(_) => [InfoXml(i)]
    case LegalInfo(_) => [InfoXml(i)]
    case Nacp(icons, _) => Icons(i, |icons|) + [InfoXml(i)]
  }

  /** The generated data of the first `k` NCAs. */
  function AllInfo(ncas: seq<Nca>, k: nat): seq<Source>
    requires k <= |ncas|
  {
    if k == 0 then [] else AllInfo(ncas, k - 1) + InfoSources(ncas[k - 1].context, k - 1)
  }

  function Plan(ncas: seq<Nca>, authoring: bool, ticket: Option<Ticket>): seq<Source>
  {
    NcaSources(|ncas|) +
    (if authoring && |ncas| > 0 then [CnmtXml] + AllInfo(ncas, |ncas| - 1) else []) +
    (if ticket.Some? then [TicketData, CertData] else [])
  }

  /** Where the generated data of NCA `i` starts. */
  function InfoIndex(ncas: seq<Nca>, i: nat): nat
    requires i <= |ncas|
  {
    |ncas| + 1 + |AllInfo(ncas, i)|
  }

  // ---------------------------------------------------- what an entry holds

  predicate InRange(src: Source, ncas: seq<Nca>, ticket: Option<Ticket>)
  {
    match src
    case NcaData(i) => i < |ncas|
    case CnmtXml => |ncas| > 0
    case InfoXml(i) => i < |ncas| && !ncas[i].context.NoContext?
    case IconData(i, j) => i < |ncas| && ncas[i].context.Nacp? && j < |ncas[i].context.icons|
    case TicketData => ticket.Some?
    case CertData => ticket.Some?
  }

  predicate AllInRange(plan: seq<Source>, ncas: seq<Nca>, ticket: Option<Ticket>)
  {
    forall k :: 0 <= k < |plan| ==> InRange(plan[k], ncas, ticket)
  }

  /** The NCA whose content ID starts the entry's name. */
  function Owner(src: Source, n: nat): nat
    requires n > 0 && (src.NcaData? || src.InfoXml? || src.IconData? ==> src.i < n)
    ensures Owner(src, n) < n
  {
    match src
    case NcaData(i) => i
    case InfoXml(i) => i
    case IconData(i, _) => i
    case _ => n - 1
  }

  function InfoSuffix(context: Context): string
  {
    match context
    case ProgramInfo(_) => ".programinfo.xml"
    case Nacp(_, _) => ".nacp.xml"
    case _ => ".legalinfo.xml"
  }

  /** What follows the content ID in the entry's name. */
  function Suffix(src: Source, ncas: seq<Nca>): string
    requires InRange(src, ncas, Some(Ticket("", [], [])))
  {
    match src
    case NcaData(i) => if ncas[i].kind == Meta then ".cnmt.nca" else ".nca"
    case CnmtXml => ".cnmt.xml"
    case InfoXml(i) => InfoSuffix(ncas[i].context)
    case IconData(i, j) => ".nx." + ncas[i].context.icons[j].language + ".jpg"
    case _ => ""
  }

  function NameOf(src: Source, ncas: seq<Nca>, ticket: Option<Ticket>): string
    requires InRange(src, ncas, ticket) && |ncas| > 0
  {
    match src
    case TicketData => ticket.value.rights + ".tik"
    case CertData => ticket.value.rights + ".cert"
    case _ => Hex(ncas[Owner(src, |ncas|)].id) + Suffix(src, ncas)
  }

  function DataOf(src: Source, ncas: seq<Nca>, xml: seq<byte>, ticket: Option<Ticket>): seq<byte>
    requires InRange(src, ncas, ticket)
  {
    match src
    case NcaData(i) => Emission(ncas[i])
    case CnmtXml => xml
    case InfoXml(i) => ncas[i].context.xml
    case IconData(i, j) => ncas[i].context.icons[j].data
    case TicketData => ticket.value.data
    case CertData => ticket.value.certs
  }

  function NamesOf(plan: seq<Source>, ncas: seq<Nca>, ticket: Option<Ticket>): (r: seq<string>)
    requires AllInRange(plan, ncas, ticket) && |ncas| > 0
    ensures |r| == |plan| && forall k :: 0 <= k < |r| ==> r[k] == NameOf(plan[k], ncas, ticket)
  {
    seq(|plan|, k requires 0 <= k < |plan| => NameOf(plan[k], ncas, ticket))
  }

  function SizesOf(plan: seq<Source>, ncas: seq<Nca>, xml: seq<byte>, ticket: Option<Ticket>): (r: seq<nat>)
    requires AllInRange(plan, ncas, ticket)
    ensures |r| == |plan| && forall k :: 0 <= k < |r| ==> r[k] == |DataOf(plan[k], ncas, xml, ticket)|
  {
    seq(|plan|, k requires 0 <= k < |plan| => |DataOf(plan[k], ncas, xml, ticket)|)
  }

  // ------------------------------------------------------------------ facts

  lemma NcaSourcesNext(n: nat)
    ensures NcaSources(n) + [NcaData(n)] == NcaSources(n + 1)
  {
  }

  lemma AllInfoStart(planned: seq<Source>, ncas: seq<Nca>)
    ensures planned + AllInfo(ncas, 0) == planned
  {
  }

  lemma AllInfoNext(planned: seq<Source>, ncas: seq<Nca>, i: nat)
    requires i < |ncas|
    ensures planned + AllInfo(ncas, i) + InfoSources(ncas[i].context, i) == planned + AllInfo(ncas, i + 1)
    ensures ncas[i].context.NoContext? ==> AllInfo(ncas, i + 1) == AllInfo(ncas, i)
    ensures |planned| == |ncas| + 1 ==> |planned + AllInfo(ncas, i)| == InfoIndex(ncas, i)
  {
  }

  lemma IconsNext(planned: seq<Source>, i: nat, n: nat)
    ensures planned + Icons(i, 0) == planned
    ensures planned + Icons(i, n) + [IconData(i, n)] == planned + Icons(i, n + 1)
    ensures planned + Icons(i, n) + [InfoXml(i)] == planned + (Icons(i, n) + [InfoXml(i)])
  {
    assert Icons(i, n) + [IconData(i, n)] == Icons(i, n + 1);
  }

  lemma InfoInRange(ncas: seq<Nca>, i: nat, ticket: Option<Ticket>)
    requires i < |ncas|
    ensures AllInRange(InfoSources(ncas[i].context, i), ncas, ticket)
  {
  }

  lemma {:induction false} AllInfoInRange(ncas: seq<Nca>, k: nat, ticket: Option<Ticket>)
    requires k <= |ncas|
    ensures AllInRange(AllInfo(ncas, k), ncas, ticket)
  {
    if k > 0 {
      AllInfoInRange(ncas, k - 1, ticket);
      InfoInRange(ncas, k - 1, ticket);
    }
  }

  lemma PlanInRange(ncas: seq<Nca>, authoring: bool, ticket: Option<Ticket>)
    ensures AllInRange(Plan(ncas, authoring, ticket), ncas, ticket)
  {
    if authoring && |ncas| > 0 {
      AllInfoInRange(ncas, |ncas| - 1, ticket);
    }
  }

  /** Ranges depend only on what never changes of an NCA. */
  lemma RangeSame(src: Source, a: seq<Nca>, b: seq<Nca>, ticket: Option<Ticket>)
    requires SameNcas(a, b) && InRange(src, a, ticket)
    ensures InRange(src, b, ticket) && Suffix(src, a) == Suffix(src, b)
  {
    if src.NcaData? || src.InfoXml? || src.IconData? {
      assert SameNca(a[src.i], b[src.i]);
    }
  }

  /** Overwriting the front of an entry's old name with the new content ID gives its new name. */
  lemma RenamedEntry(src: Source, a: seq<Nca>, b: seq<Nca>, ticket: Option<Ticket>)
    requires SameNcas(a, b) && |a| > 0 && InRange(src, a, ticket) && InRange(src, b, ticket)
    requires !src.TicketData? && !src.CertData?
    ensures var id := Hex(b[Owner(src, |b|)].id);
      |id| <= |NameOf(src, a, ticket)| && Renamed(NameOf(src, a, ticket), id) == NameOf(src, b, ticket)
  {
    RangeSame(src, a, b, ticket);
    assert SameNca(a[Owner(src, |a|)], b[Owner(src, |a|)]);
    var was, id := Hex(a[Owner(src, |a|)].id), Hex(b[Owner(src, |b|)].id);
    assert |was| == |id|;
    assert (was + Suffix(src, a))[|id|..] == Suffix(src, a);
  }

  /** The two passes agree on the size of every entry. */
  lemma SizesAgree(
    src: Source, a: seq<Nca>, b: seq<Nca>, xmlA: seq<byte>, xmlB: seq<byte>, ticket: Option<Ticket>)
    requires SameNcas(a, b) && InRange(src, a, ticket) && InRange(src, b, ticket) && |xmlA| == |xmlB|
    ensures |DataOf(src, a, xmlA, ticket)| == |DataOf(src, b, xmlB, ticket)|
  {
    if src.NcaData? || src.InfoXml? || src.IconData? {
      assert SameNca(a[src.i], b[src.i]);
    }
  }

  // ------------------------------------------------ progress of pass two

  /** The names while the first `d` entries have their new content IDs and the others their old ones. */
  predicate NamesAre(
    names: seq<string>, plan: seq<Source>, d: nat, before: seq<Nca>, ncas: seq<Nca>, ticket: Option<Ticket>)
  {
    |names| == |plan| && |before| > 0 && SameNcas(before, ncas) &&
    forall k :: 0 <= k < |plan| ==>
      InRange(plan[k], before, ticket) && InRange(plan[k], ncas, ticket) &&
      names[k] == NameOf(plan[k], if k < d then ncas else before, ticket)
  }

  /** What has been written: the first `d` entries of the plan. */
  predicate PiecesAre(
    pieces: seq<seq<byte>>, plan: seq<Source>, d: nat, ncas: seq<Nca>, xml: seq<byte>, ticket: Option<Ticket>)
  {
    |pieces| == d <= |plan| &&
    forall k :: 0 <= k < d ==> InRange(plan[k], ncas, ticket) && pieces[k] == DataOf(plan[k], ncas, xml, ticket)
  }

  lemma NamesRenamed(
    names: seq<string>, plan: seq<Source>, d: nat, before: seq<Nca>, ncas: seq<Nca>, ticket: Option<Ticket>)
    requires NamesAre(names, plan, d, before, ncas, ticket) && d < |plan| && !plan[d].TicketData? && !plan[d].CertData?
    ensures var id := Hex(ncas[Owner(plan[d], |ncas|)].id);
      |id| <= |names[d]| && NamesAre(names[d := Renamed(names[d], id)], plan, d + 1, before, ncas, ticket)
  {
    RenamedEntry(plan[d], before, ncas, ticket);
  }

  /** The new name is the old one where nothing of it has changed. */
  lemma NamesKept(
    names: seq<string>, plan: seq<Source>, d: nat, before: seq<Nca>, ncas: seq<Nca>, ticket: Option<Ticket>)
    requires NamesAre(names, plan, d, before, ncas, ticket) && d < |plan|
    requires plan[d].TicketData? || plan[d].CertData? ||
      ncas[Owner(plan[d], |ncas|)].id == before[Owner(plan[d], |ncas|)].id
    ensures NamesAre(names, plan, d + 1, before, ncas, ticket)
  {
    RangeSame(plan[d], before, ncas, ticket);
  }

  /** The plan starts with the NCAs. */
  predicate NcasFirst(plan: seq<Source>, n: nat)
  {
    n <= |plan| && forall k :: 0 <= k < n ==> plan[k] == NcaData(k)
  }

  lemma NamesNewNca(
    names: seq<string>, plan: seq<Source>, d: nat, before: seq<Nca>, ncas: seq<Nca>, nca: Nca, ticket: Option<Ticket>)
    requires NamesAre(names, plan, d, before, ncas, ticket) && NcasFirst(plan, |ncas|) && d < |ncas|
    requires SameNca(before[d], nca)
    ensures NamesAre(names, plan, d, before, ncas[d := nca], ticket)
  {
    var now := ncas[d := nca];
    assert SameNcas(ncas, now) by {
      assert forall i :: 0 <= i < |ncas| ==> SameNca(before[i], ncas[i]);
    }
    forall k | 0 <= k < |plan|
      ensures InRange(plan[k], now, ticket) && names[k] == NameOf(plan[k], if k < d then now else before, ticket)
    {
      RangeSame(plan[k], ncas, now, ticket);
    }
  }

  lemma PiecesNewNca(
    pieces: seq<seq<byte>>, plan: seq<Source>, d: nat, ncas: seq<Nca>, nca: Nca, xml: seq<byte>, ticket: Option<Ticket>)
    requires PiecesAre(pieces, plan, d, ncas, xml, ticket) && NcasFirst(plan, |ncas|) && d < |ncas|
    ensures PiecesAre(pieces, plan, d, ncas[d := nca], xml, ticket)
  {
  }

  /** NCA `i` out, with its new ID in its entry's name if it got one. */
  lemma NamesAfterNca(
    names: seq<string>, plan: seq<Source>, i: nat, before: seq<Nca>, ncas: seq<Nca>, nca: Nca, ticket: Option<Ticket>)
    requires NamesAre(names, plan, i, before, ncas, ticket) && NcasFirst(plan, |ncas|) && i < |ncas|
    requires SameNca(before[i], nca)
    ensures |Hex(nca.id)| <= |names[i]|
    ensures NamesAre(names[i := Renamed(names[i], Hex(nca.id))], plan, i + 1, before, ncas[i := nca], ticket)
    ensures nca.id == before[i].id ==> NamesAre(names, plan, i + 1, before, ncas[i := nca], ticket)
  {
    NamesNewNca(names, plan, i, before, ncas, nca, ticket);
    NamesRenamed(names, plan, i, before, ncas[i := nca], ticket);
    if nca.id == before[i].id {
      NamesKept(names, plan, i, before, ncas[i := nca], ticket);
    }
  }

  lemma PiecesAfterNca(
    pieces: seq<seq<byte>>, plan: seq<Source>, i: nat, ncas: seq<Nca>, nca: Nca, xml: seq<byte>, ticket: Option<Ticket>)
    requires PiecesAre(pieces, plan, i, ncas, xml, ticket) && NcasFirst(plan, |ncas|) && i < |ncas|
    ensures PiecesAre(pieces + [Emission(nca)], plan, i + 1, ncas[i := nca], xml, ticket)
  {
    PiecesNewNca(pieces, plan, i, ncas, nca, xml, ticket);
    PiecesPush(pieces, plan, i, ncas[i := nca], xml, ticket);
  }

  lemma PiecesNewXml(
    pieces: seq<seq<byte>>, plan: seq<Source>, ncas: seq<Nca>, xml: seq<byte>, other: seq<byte>, ticket: Option<Ticket>)
    requires PiecesAre(pieces, plan, |ncas|, ncas, xml, ticket) && NcasFirst(plan, |ncas|)
    ensures PiecesAre(pieces, plan, |ncas|, ncas, other, ticket)
  {
  }

  lemma PiecesPush(
    pieces: seq<seq<byte>>, plan: seq<Source>, d: nat, ncas: seq<Nca>, xml: seq<byte>, ticket: Option<Ticket>)
    requires PiecesAre(pieces, plan, d, ncas, xml, ticket) && d < |plan| && InRange(plan[d], ncas, ticket)
    ensures PiecesAre(pieces + [DataOf(plan[d], ncas, xml, ticket)], plan, d + 1, ncas, xml, ticket)
  {
  }

  // -------------------------------------------------- places in the plan

  lemma PlanStarts(ncas: seq<Nca>, authoring: bool, ticket: Option<Ticket>)
    ensures NcasFirst(Plan(ncas, authoring, ticket), |ncas|)
    ensures authoring && |ncas| > 0 ==>
      |Plan(ncas, authoring, ticket)| > |ncas| && Plan(ncas, authoring, ticket)[|ncas|] == CnmtXml
    ensures ticket.Some? ==>
      var plan := Plan(ncas, authoring, ticket);
      |plan| >= 2 && plan[|plan| - 2] == TicketData && plan[|plan| - 1] == CertData
  {
  }

  lemma {:induction false} AllInfoPrefix(ncas: seq<Nca>, i: nat, k: nat)
    requires i <= k <= |ncas|
    ensures AllInfo(ncas, i) <= AllInfo(ncas, k)
    decreases k
  {
    if i < k {
      AllInfoPrefix(ncas, i, k - 1);
    }
  }

  /** An NCA's generated data comes in its order from its index on. */
  lemma InfoPlace(ncas: seq<Nca>, ticket: Option<Ticket>, i: nat)
    requires i < |ncas| - 1
    ensures var plan, at, info := Plan(ncas, true, ticket), InfoIndex(ncas, i), InfoSources(ncas[i].context, i);
      at + |info| == InfoIndex(ncas, i + 1) <= |plan| && plan[at..at + |info|] == info
  {
    var info, front := InfoSources(ncas[i].context, i), AllInfo(ncas, i);
    AllInfoPrefix(ncas, i + 1, |ncas| - 1);
    SliceOfPrefix(front, info, AllInfo(ncas, |ncas| - 1));
    PlanTail(ncas, ticket, |front|, |front| + |info|);
  }

  lemma SliceOfPrefix<T>(front: seq<T>, part: seq<T>, all: seq<T>)
    requires front + part <= all
    ensures |front| + |part| <= |all| && all[|front|..|front| + |part|] == part
  {
    assert (front + part)[|front|..] == part;
  }

  lemma PlanTail(ncas: seq<Nca>, ticket: Option<Ticket>, a: nat, b: nat)
    requires |ncas| > 0 && a <= b <= |AllInfo(ncas, |ncas| - 1)|
    ensures var plan, n := Plan(ncas, true, ticket), |ncas|;
      n + 1 + b <= |plan| && plan[n + 1 + a..n + 1 + b] == AllInfo(ncas, n - 1)[a..b]
  {
    var all := AllInfo(ncas, |ncas| - 1);
    var middle := NcaSources(|ncas|) + ([CnmtXml] + all);
    assert middle[|ncas| + 1 + a..|ncas| + 1 + b] == all[a..b];
  }

  lemma PlanEnds(ncas: seq<Nca>, ticket: Option<Ticket>)
    requires |ncas| > 0
    ensures |Plan(ncas, true, ticket)| == InfoIndex(ncas, |ncas| - 1) + (if ticket.Some? then 2 else 0)
    ensures |Plan(ncas, false, ticket)| == |ncas| + (if ticket.Some? then 2 else 0)
  {
  }

  // ------------------------------------------------------ where data lies

  /** Data written one after the other lies where the sizes say. */
  lemma {:induction false} DataAtOffset(pieces: seq<seq<byte>>, sizes: seq<nat>, k: nat)
    requires |pieces| == |sizes| && (forall j :: 0 <= j < |sizes| ==> |pieces[j]| == sizes[j]) && k < |pieces|
    ensures Sum(sizes[..k]) + sizes[k] <= |Concat(pieces)|
    ensures Concat(pieces)[Sum(sizes[..k])..Sum(sizes[..k]) + sizes[k]] == pieces[k]
    decreases |pieces|
  {
    var n := |pieces| - 1;
    assert pieces == pieces[..n] + [pieces[n]];
    ConcatPush(pieces[..n], pieces[n]);
    if k == n {
      TotalLength(pieces[..n], sizes[..n]);
    } else {
      DataAtOffset(pieces[..n], sizes[..n], k);
      assert sizes[..n][..k] == sizes[..k];
      var at := Sum(sizes[..k]);
      var front := Concat(pieces[..n]);
      assert Concat(pieces)[at..at + sizes[k]] == front[at..at + sizes[k]];
    }
  }

  lemma {:induction false} TotalLength(pieces: seq<seq<byte>>, sizes: seq<nat>)
    requires |pieces| == |sizes| && forall j :: 0 <= j < |sizes| ==> |pieces[j]| == sizes[j]
    ensures |Concat(pieces)| == Sum(sizes)
  {
    if pieces != [] {
      var n := |pieces| - 1;
      assert pieces == pieces[..n] + [pieces[n]];
      ConcatPush(pieces[..n], pieces[n]);
      TotalLength(pieces[..n], sizes[..n]);
    }
  }

  // ---------------------------------------------------------- the archive

  datatype Header = Header(entries: seq<Entry>, nameTable: string)

  /** Entry `k` is found under its name, and at its offset lie its bytes. */
  predicate EntryIs(
    header: Header, body: seq<byte>, src: Source, k: nat, ncas: seq<Nca>, xml: seq<byte>, ticket: Option<Ticket>)
  {
    |ncas| > 0 && InRange(src, ncas, ticket) && k < |header.entries| &&
    header.entries[k].nameOffset <= |header.nameTable| &&
    (var item := ReadItem(header.entries, header.nameTable, k);
     item.name == NameOf(src, ncas, ticket) && item.offset + item.size <= |body| &&
     body[item.offset..item.offset + item.size] == DataOf(src, ncas, xml, ticket))
  }

  /** A file whose header and body agree on every entry. */
  predicate ArchiveIs(
    header: Header, body: seq<byte>, plan: seq<Source>, ncas: seq<Nca>, xml: seq<byte>, ticket: Option<Ticket>)
  {
    |header.entries| == |plan| && forall k :: 0 <= k < |plan| ==> EntryIs(header, body, plan[k], k, ncas, xml, ticket)
  }

  predicate SizesAre(pieces: seq<seq<byte>>, sizes: seq<nat>)
  {
    |pieces| == |sizes| && forall k :: 0 <= k < |sizes| ==> |pieces[k]| == sizes[k]
  }

  /** The sizes laid out before the first byte went out are those of what went out. */
  lemma PassesAgree(
    pieces: seq<seq<byte>>, plan: seq<Source>, before: seq<Nca>, ncas: seq<Nca>, xmlA: seq<byte>, xmlB: seq<byte>,
    ticket: Option<Ticket>)
    requires SameNcas(before, ncas) && |xmlA| == |xmlB| && AllInRange(plan, before, ticket)
    requires PiecesAre(pieces, plan, |plan|, ncas, xmlB, ticket)
    ensures SizesAre(pieces, SizesOf(plan, before, xmlA, ticket))
  {
    forall k | 0 <= k < |plan| ensures |pieces[k]| == |DataOf(plan[k], before, xmlA, ticket)| {
      SizesAgree(plan[k], before, ncas, xmlA, xmlB, ticket);
    }
  }

  /** Running sums of the sizes, new names and pieces in order make a correct archive. */
  lemma ArchiveHolds(
    entries: seq<Entry>, table: string, fsSize: nat, names: seq<string>, sizes: seq<nat>, pieces: seq<seq<byte>>,
    plan: seq<Source>, before: seq<Nca>, ncas: seq<Nca>, xml: seq<byte>, ticket: Option<Ticket>)
    requires Image(entries, table, fsSize, names, sizes) && SizesAre(pieces, sizes)
    requires NamesAre(names, plan, |plan|, before, ncas, ticket) && PiecesAre(pieces, plan, |plan|, ncas, xml, ticket)
    ensures ArchiveIs(Header(entries, table), Concat(pieces), plan, ncas, xml, ticket) && |Concat(pieces)| == fsSize
  {
    hide Concat, NameOf, DataOf, ReadItem, Table, Sum;
    TotalLength(pieces, sizes);
    forall k | 0 <= k < |plan| ensures EntryIs(Header(entries, table), Concat(pieces), plan[k], k, ncas, xml, ticket) {
      ReadsBack(entries, table, fsSize, names, sizes, k);
      DataAtOffset(pieces, sizes, k);
    }
  }
}
