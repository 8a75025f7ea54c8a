// Giving every content of a title its place among the NCA contexts: the Meta NCA
// last, so that it goes out after everything its records describe.
module NspContexts {
  import opened Options
  import opened Sequences
  import opened NcaPatch
  import opened PfsImage
  import opened NspModel
  import opened NspRecords
  import opened NspBuilder

  /** A content of the title, as the title database lists it. */
  datatype Content = Content(kind: Kind, size: nat, idOffset: nat, id: Id)

  /** The contents that are not Meta NCAs, in their order. */
  function Others(contents: seq<Content>): (r: seq<Content>)
    ensures |r| <= |contents|
  {
    if contents == [] then []
    else
      var n := |contents| - 1;
      Others(contents[..n]) + (if contents[n].kind == Meta then [] else [contents[n]])
  }

  lemma {:induction false} OthersAre(contents: seq<Content>)
    ensures forall c :: c in Others(contents) <==> c in contents && c.kind != Meta
  {
    if contents != [] {
      var n := |contents| - 1;
      OthersAre(contents[..n]);
      assert contents == contents[..n] + [contents[n]];
    }
  }

  /** One after the other, each on its own. */
  lemma {:induction false} OthersInOrder(a: seq<Content>, b: seq<Content>)
    ensures Others(a + b) == Others(a) + Others(b)
    decreases |b|
  {
    if b == [] {
      assert a + b == a && Others([]) == [];
    } else {
      hide Others;
      var n := |b| - 1;
      OthersInOrder(a, b[..n]);
      OthersPush(a + b[..n], b[n]);
      OthersPush(b[..n], b[n]);
      Pushed(a, b);
      Regrouped(Others(a), Others(b[..n]), if b[n].kind == Meta then [] else [b[n]]);
    }
  }

  lemma Regrouped(a: seq<Content>, b: seq<Content>, c: seq<Content>)
    ensures a + b + c == a + (b + c)
  {
  }

  lemma Pushed(a: seq<Content>, b: seq<Content>)
    requires b != []
    ensures a + b[..|b| - 1] + [b[|b| - 1]] == a + b && b[..|b| - 1] + [b[|b| - 1]] == b
  {
  }

  lemma OthersPush(contents: seq<Content>, c: Content)
    ensures Others(contents + [c]) == Others(contents) + if c.kind == Meta then [] else [c]
  {
    assert (contents + [c])[..|contents|] == contents;
  }

  function Metas(contents: seq<Content>): nat
  {
    if contents == [] then 0
    else Metas(contents[..|contents| - 1]) + (if contents[|contents| - 1].kind == Meta then 1 else 0)
  }

  lemma {:induction false} EveryContentCounted(contents: seq<Content>)
    ensures |Others(contents)| + Metas(contents) == |contents|
  {
    if contents != [] {
      EveryContentCounted(contents[..|contents| - 1]);
    }
  }

  lemma {:induction false} OthersFit(contents: seq<Content>)
    ensures Metas(contents) > 0 ==> |Others(contents)| < |contents|
  {
    EveryContentCounted(contents);
  }

  lemma {:induction false} MetaCounted(contents: seq<Content>, m: nat)
    requires m < |contents| && contents[m].kind == Meta
    ensures Metas(contents) > 0
  {
    if m < |contents| - 1 {
      MetaCounted(contents[..|contents| - 1], m);
    }
  }

  /** The first content of the kind and with the ID offset; the number of contents if there is none. */
  method Find(contents: seq<Content>, kind: Kind, idOffset: nat) returns (m: nat)
    ensures m <= |contents|
    ensures m < |contents| ==> contents[m].kind == kind && contents[m].idOffset == idOffset
    ensures forall i :: 0 <= i < m ==> contents[i].kind != kind || contents[i].idOffset != idOffset
  {
    m := 0;
    while m < |contents| && !(contents[m].kind == kind && contents[m].idOffset == idOffset)
      invariant m <= |contents|
      invariant forall i :: 0 <= i < m ==> contents[i].kind != kind || contents[i].idOffset != idOffset
    {
      m := m + 1;
    }
  }

  function Made(make: Content -> Nca, contents: seq<Content>): (r: seq<Nca>)
    ensures |r| == |contents| && forall i :: 0 <= i < |r| ==> r[i] == make(contents[i])
  {
    seq(|contents|, i requires 0 <= i < |contents| => make(contents[i]))
  }

  /** A place that has not been filled: all its bytes are zero, which is the code of a Meta NCA. */
  function Blank(): Nca { Nca(Meta, 0, [], [], [], Changes(false, Patch(0, []), [], []), NoContext, 0) }

  predicate IsMeta(c: Content) { c.kind == Meta && c.idOffset == 0 }

  /**
   * `make` reads and patches one NCA, which may fail.  All contents but the Meta
   * NCAs are given places in their order; the first Meta NCA with ID offset 0 gets
   * the last one.  Places in between stay blank, one for each further Meta NCA.
   */
  method FillContexts(contents: seq<Content>, make: Content -> Nca) returns (ok: bool, ncas: seq<Nca>)
    requires contents != []
    ensures ok ==> |ncas| == |contents| && |ncas| == |Others(contents)| + Metas(contents) && Metas(contents) > 0
    ensures ok ==> ncas[..|Others(contents)|] == Made(make, Others(contents))
    ensures ok ==> forall i :: |Others(contents)| <= i < |ncas| - 1 ==> ncas[i] == Blank()
    ensures ok ==> exists m ::
      0 <= m < |contents| && IsMeta(contents[m]) && ncas[|ncas| - 1] == make(contents[m]) &&
      forall i :: 0 <= i < m ==> !IsMeta(contents[i])
  {
    hide Others, Made;
    var n := |contents|;
    ncas := seq(n, i => Blank());
    var meta := Find(contents, Meta, 0);
    ok := *;
    if meta == n || !ok {
      return false, ncas;
    }
    ncas := ncas[n - 1 := make(contents[meta])];
    var j := 0;
    OthersNone(contents, make);
    for i := 0 to n
      invariant |ncas| == n && j == |Others(contents[..i])| && j < n
      invariant ncas[..j] == Made(make, Others(contents[..i]))
      invariant forall k :: j <= k < n - 1 ==> ncas[k] == Blank()
      invariant ncas[n - 1] == make(contents[meta])
    {
      OthersNext(contents, i, make);
      if contents[i].kind != Meta {
        ok := *;
        if !ok {
          return false, ncas;
        }
        PlaceLeft(contents, meta, i);
        ncas := Placed(ncas, j, make(contents[i]));
        j := j + 1;
      }
    }
    assert contents[..n] == contents;
    EveryContentCounted(contents);
    MetaCounted(contents, meta);
    return true, ncas;
  }

  function Placed(ncas: seq<Nca>, j: nat, nca: Nca): (r: seq<Nca>)
    requires j < |ncas|
    ensures |r| == |ncas| && r[..j + 1] == ncas[..j] + [nca] && forall k :: j < k < |r| ==> r[k] == ncas[k]
  {
    ncas[j := nca]
  }

  lemma OthersNone(contents: seq<Content>, make: Content -> Nca)
    ensures Others(contents[..0]) == [] && Made(make, Others(contents[..0])) == []
  {
  }

  lemma OthersNext(contents: seq<Content>, i: nat, make: Content -> Nca)
    requires i < |contents|
    ensures var before, after := Others(contents[..i]), Others(contents[..i + 1]);
      if contents[i].kind == Meta then after == before
      else |after| == |before| + 1 && Made(make, after) == Made(make, before) + [make(contents[i])]
  {
    hide Made;
    assert contents[..i + 1][..i] == contents[..i];
    MadePush(make, Others(contents[..i]), contents[i]);
  }

  lemma MadePush(make: Content -> Nca, contents: seq<Content>, c: Content)
    ensures Made(make, contents + [c]) == Made(make, contents) + [make(c)]
  {
  }

  /** A content that is not the Meta NCA never takes the last place. */
  lemma PlaceLeft(contents: seq<Content>, m: nat, i: nat)
    requires m < |contents| && contents[m].kind == Meta && i < |contents| && contents[i].kind != Meta
    ensures |Others(contents[..i])| < |contents| - 1
  {
    if i > m {
      MetaCounted(contents[..i], m);
    }
    OthersFit(contents[..i]);
  }

  // -------------------------------------------------- into the builder

  /** Making an NCA reads what the title database says of it, and gets whatever else the builder needs. */
  predicate MadeWell(make: Content -> Nca, contents: seq<Content>)
  {
    forall c :: c in contents ==>
      make(c).kind == c.kind && make(c).idOffset == c.idOffset && make(c).id == c.id && |make(c).clean| == c.size &&
      GoodNca(make(c))
  }

  predicate SameKey(a: Content, b: Content) { a.kind == b.kind && a.size == b.size && a.idOffset == b.idOffset }

  /** Different contents other than Meta NCAs differ in type, size or ID offset. */
  predicate Distinct(contents: seq<Content>)
  {
    forall a, b :: 0 <= a < b < |contents| && contents[a].kind != Meta && contents[b].kind != Meta ==>
      !SameKey(contents[a], contents[b])
  }

  /** The content has at most one record, and it is the same one by ID and by type, size and ID offset. */
  predicate HasOneRecord(records: seq<Record>, c: Content)
  {
    (forall r :: 0 <= r < |records| ==> (records[r].id == c.id <==> IsRecordOf(records[r], c))) &&
    forall q, r :: 0 <= q < r < |records| && IsRecordOf(records[q], c) ==> !IsRecordOf(records[r], c)
  }

  predicate IsRecordOf(r: Record, c: Content) { r.kind == c.kind && r.size == c.size && r.idOffset == c.idOffset }

  lemma {:induction false} OthersDistinct(contents: seq<Content>)
    requires Distinct(contents)
    ensures Distinct(Others(contents))
  {
    if contents != [] {
      var n := |contents| - 1;
      OthersDistinct(contents[..n]);
      OthersAre(contents[..n]);
      forall c | c in Others(contents[..n]) && contents[n].kind != Meta ensures !SameKey(c, contents[n]) {
        var i :| 0 <= i < n && contents[..n][i] == c;
        assert contents[i] == c;
      }
    }
  }

  /**
   * The contexts of a title with a single Meta NCA are what the builder asks for, if
   * its contents differ from each other and go with the records.
   */
  lemma {:induction false} FilledIsGood(
    h: Helpers, contents: seq<Content>, make: Content -> Nca, m: nat, ncas: seq<Nca>, records: seq<Record>,
    ticket: Option<Ticket>)
    requires m < |contents| && IsMeta(contents[m]) && Metas(contents) == 1
    requires |ncas| == |contents| && ncas[..|Others(contents)|] == Made(make, Others(contents))
    requires ncas[|ncas| - 1] == make(contents[m])
    requires MadeWell(make, contents) && Distinct(contents)
    requires forall c :: c in contents && c.kind != Meta ==> HasOneRecord(records, c)
    requires (forall data: seq<byte> :: |h.sha(data)| == HASH_SIZE) && GoodPatches(h, ncas[|ncas| - 1].clean)
    requires ticket.Some? ==> IsText(ticket.value.rights)
    ensures GoodTitle(h, ncas, records, ticket)
  {
    var others := Others(contents);
    EveryContentCounted(contents);
    OthersDistinct(contents);
    OthersAre(contents);
    forall i | 0 <= i < |ncas| - 1
      ensures others[i] in contents && ncas[i] == make(others[i]) && ncas[i].kind != Meta && OneRecord(records, ncas[i])
    {
      assert ncas[..|others|][i] == ncas[i];
      assert others[i] in contents && HasOneRecord(records, others[i]);
      OneRecordOf(records, others[i], make(others[i]));
    }
    forall a, b | 0 <= a < b < |ncas| - 1 ensures !SameTriple(ncas[a], ncas[b]) {
      assert !SameKey(others[a], others[b]);
    }
  }

  lemma OneRecordOf(records: seq<Record>, c: Content, nca: Nca)
    requires HasOneRecord(records, c)
    requires nca.kind == c.kind && nca.idOffset == c.idOffset && nca.id == c.id && |nca.clean| == c.size
    ensures OneRecord(records, nca)
  {
    forall r | 0 <= r < |records| ensures HasTriple(records[r], nca) <==> IsRecordOf(records[r], c) {
    }
  }

  /** With a further Meta NCA there is a blank place before the last one, which the builder refuses when its turn comes. */
  lemma FurtherMetaIsRefused(contents: seq<Content>, ncas: seq<Nca>)
    requires Metas(contents) > 1 && |ncas| == |contents|
    requires forall i :: |Others(contents)| <= i < |ncas| - 1 ==> ncas[i] == Blank()
    ensures |Others(contents)| < |ncas| - 1
    ensures var blank := ncas[|Others(contents)|]; blank.kind == Meta && blank.id == [] && blank.clean == []
  {
    EveryContentCounted(contents);
  }
}
