// The content records of the Meta NCA: how they are checked and updated while the
// NCAs go out, and what they say about the emitted bytes afterwards.
module NspRecords {
  import opened Options
  import opened NspModel

  predicate HasTriple(r: Record, nca: Nca)
  {
    r.size == |nca.clean| && r.kind == nca.kind && r.idOffset == nca.idOffset
  }

  predicate SameTriple(a: Nca, b: Nca)
  {
    |a.clean| == |b.clean| && a.kind == b.kind && a.idOffset == b.idOffset
  }

  /** The first record with the content ID; the number of records if there is none. */
  function FindId(records: seq<Record>, id: Id): (r: nat)
    ensures r <= |records| && (r < |records| ==> records[r].id == id)
    ensures forall i :: 0 <= i < r ==> records[i].id != id
  {
    if records == [] || records[0].id == id then 0 else 1 + FindId(records[1..], id)
  }

  /** The first record with the NCA's size, type and ID offset. */
  function FindTriple(records: seq<Record>, nca: Nca): (r: nat)
    ensures r <= |records| && (r < |records| ==> HasTriple(records[r], nca))
    ensures forall i :: 0 <= i < r ==> !HasTriple(records[i], nca)
  {
    if records == [] || HasTriple(records[0], nca) then 0 else 1 + FindTriple(records[1..], nca)
  }

  /** The check of a clean NCA against its record; Meta NCAs have none. */
  predicate Verified(records: seq<Record>, nca: Nca, hash: Hash)
  {
    nca.kind == Meta ||
    (var r := FindId(records, nca.id); r < |records| && records[r].hash == hash)
  }

  function Updated(records: seq<Record>, nca: Nca): Option<seq<Record>>
  {
    if nca.kind == Meta then Some(records)
    else
      var r := FindTriple(records, nca);
      if r < |records| then Some(records[r := records[r].(id := nca.id, hash := nca.hash)]) else None
  }

  /** Every NCA must be referenced by a record, and there must be enough records. */
  predicate XmlPossible(ncas: seq<Nca>, records: seq<Record>)
  {
    0 < |ncas| <= |records| + 1 &&
    forall i :: 0 <= i < |ncas| && ncas[i].kind != Meta ==> FindId(records, ncas[i].id) < |records|
  }

  // --------------------------------------------- records and emitted bytes

  /** The one record of the NCA's size, type and ID offset is also the one with its ID. */
  ghost predicate OneRecord(records: seq<Record>, nca: Nca)
  {
    (forall r :: 0 <= r < |records| ==> (records[r].id == nca.id <==> HasTriple(records[r], nca))) &&
    Unique(records, nca)
  }

  predicate Unique(records: seq<Record>, nca: Nca)
  {
    forall q, r ::
      0 <= q < |records| && 0 <= r < |records| && HasTriple(records[q], nca) && HasTriple(records[r], nca) ==> q == r
  }

  /** What the title says before the dump of its first `n` NCAs, which leave out the Meta NCA. */
  ghost predicate Matches(records: seq<Record>, ncas: seq<Nca>, n: nat)
  {
    n <= |ncas| &&
    (forall a, b :: 0 <= a < b < n ==> !SameTriple(ncas[a], ncas[b])) &&
    (forall k :: 0 <= k < n ==> ncas[k].kind != Meta && OneRecord(records, ncas[k]))
  }

  /** Updates change a record's ID and hash only. */
  predicate SameKeys(original: seq<Record>, records: seq<Record>)
  {
    |records| == |original| && forall r :: 0 <= r < |records| ==>
      records[r].size == original[r].size && records[r].kind == original[r].kind &&
      records[r].idOffset == original[r].idOffset
  }

  /** A record as NCA `a`, one of the first `n`, left it. */
  predicate TouchedBy(r: Record, ncas: seq<Nca>, a: int, n: nat)
  {
    0 <= a < n && a < |ncas| && HasTriple(r, ncas[a]) && r.id == ncas[a].id && r.hash == ncas[a].hash
  }

  ghost predicate Touched(r: Record, ncas: seq<Nca>, n: nat) { exists a :: TouchedBy(r, ncas, a, n) }

  predicate Belongs(r: Record, nca: Nca, hash: Hash) { r.id == nca.id && r.hash == hash }

  predicate OfEarlier(r: Record, ncas: seq<Nca>, a: int, k: nat)
  {
    0 <= a <= k && a < |ncas| && HasTriple(r, ncas[a])
  }

  ghost predicate ListedAt(records: seq<Record>, ncas: seq<Nca>, k: nat, hash: Hash, r: int)
    requires k < |ncas|
  {
    0 <= r < |records| && Belongs(records[r], ncas[k], hash) && exists a :: OfEarlier(records[r], ncas, a, k)
  }

  /** Some record has the NCA's ID and this hash. */
  ghost predicate Listed(records: seq<Record>, ncas: seq<Nca>, k: nat, hash: Hash)
    requires k < |ncas|
  {
    exists r :: ListedAt(records, ncas, k, hash, r)
  }

  predicate TakenId(ncas: seq<Nca>, k: nat, a: int)
    requires k < |ncas|
  {
    0 <= a < k && ncas[a].id == ncas[k].id
  }

  /** The record of the NCA's own size, type and ID offset is right, unless an earlier NCA was given the same ID. */
  ghost predicate Exact(records: seq<Record>, ncas: seq<Nca>, k: nat, hash: Hash)
    requires k < |ncas|
  {
    (forall r :: 0 <= r < |records| && HasTriple(records[r], ncas[k]) ==> Belongs(records[r], ncas[k], hash)) ||
    exists a :: TakenId(ncas, k, a)
  }

  ghost predicate AllListed(records: seq<Record>, ncas: seq<Nca>, hashes: seq<Hash>, n: nat)
    requires n <= |ncas| && n <= |hashes|
  {
    forall k :: 0 <= k < n ==> Listed(records, ncas, k, hashes[k])
  }

  ghost predicate AllExact(records: seq<Record>, ncas: seq<Nca>, hashes: seq<Hash>, n: nat)
    requires n <= |ncas| && n <= |hashes|
  {
    forall k :: 0 <= k < n ==> Exact(records, ncas, k, hashes[k])
  }

  ghost predicate OnlyTouched(original: seq<Record>, records: seq<Record>, ncas: seq<Nca>, n: nat)
  {
    SameKeys(original, records) &&
    forall r :: 0 <= r < |records| ==> records[r] == original[r] || Touched(records[r], ncas, n)
  }

  /** What holds of the records once the first `n` NCAs, whose bytes have these hashes, have gone out. */
  ghost predicate Consistent(original: seq<Record>, records: seq<Record>, ncas: seq<Nca>, hashes: seq<Hash>, n: nat)
  {
    n <= |ncas| && n <= |hashes| && OnlyTouched(original, records, ncas, n) &&
    AllListed(records, ncas, hashes, n) && AllExact(records, ncas, hashes, n)
  }

  // ----------------------------------------------------- an unchanged NCA

  lemma VerifiedIsListed(original: seq<Record>, records: seq<Record>, ncas: seq<Nca>, n: nat, hash: Hash)
    requires n < |ncas| && ncas[n].kind != Meta && Verified(records, ncas[n], hash)
    requires OnlyTouched(original, records, ncas, n) && OneRecord(original, ncas[n])
    ensures Listed(records, ncas, n, hash)
  {
    var r := FindId(records, ncas[n].id);
    if records[r] == original[r] {
      assert OfEarlier(records[r], ncas, n, n);
    } else {
      var a :| TouchedBy(records[r], ncas, a, n);
      assert OfEarlier(records[r], ncas, a, n);
    }
    assert ListedAt(records, ncas, n, hash, r);
  }

  lemma VerifiedIsExact(original: seq<Record>, records: seq<Record>, ncas: seq<Nca>, n: nat, hash: Hash)
    requires n < |ncas| && ncas[n].kind != Meta && Verified(records, ncas[n], hash)
    requires OnlyTouched(original, records, ncas, n) && OneRecord(original, ncas[n])
    ensures Exact(records, ncas, n, hash)
  {
    var q := FindId(records, ncas[n].id);
    if records[q] == original[q] {
      forall r | 0 <= r < |records| && HasTriple(records[r], ncas[n]) ensures Belongs(records[r], ncas[n], hash) {
        assert HasTriple(original[r], ncas[n]) && HasTriple(original[q], ncas[n]);
      }
    } else {
      var a :| TouchedBy(records[q], ncas, a, n);
      assert TakenId(ncas, n, a);
    }
  }

  lemma TouchedLater(r: Record, ncas: seq<Nca>, n: nat)
    requires Touched(r, ncas, n)
    ensures Touched(r, ncas, n + 1)
  {
    var a :| TouchedBy(r, ncas, a, n);
    assert TouchedBy(r, ncas, a, n + 1);
  }

  /** An NCA that went out as it was read only has to pass the check. */
  lemma UnchangedNca(original: seq<Record>, records: seq<Record>, ncas: seq<Nca>, hashes: seq<Hash>, n: nat)
    requires Consistent(original, records, ncas, hashes, n)
    requires n < |ncas| && n < |hashes| && ncas[n].kind != Meta && Verified(records, ncas[n], hashes[n])
    requires OneRecord(original, ncas[n])
    ensures Consistent(original, records, ncas, hashes, n + 1)
  {
    VerifiedIsListed(original, records, ncas, n, hashes[n]);
    VerifiedIsExact(original, records, ncas, n, hashes[n]);
    forall r | 0 <= r < |records| && records[r] != original[r] ensures Touched(records[r], ncas, n + 1) {
      TouchedLater(records[r], ncas, n);
    }
  }

  // ------------------------------------------------------- a changed NCA

  /** The NCA with the ID and hash of what was emitted for it. */
  function Rehashed(nca: Nca, hash: Hash): Nca
    requires |hash| >= ID_SIZE
  {
    nca.(id := hash[..ID_SIZE], hash := hash)
  }

  lemma OtherRecord(records: seq<Record>, ncas: seq<Nca>, n: nat, q: nat, a: nat, r: nat)
    requires a < n < |ncas| && q < |records| && r < |records| && !SameTriple(ncas[a], ncas[n])
    requires HasTriple(records[q], ncas[a]) && HasTriple(records[r], ncas[n])
    ensures q != r
  {
  }

  lemma ChangedListed(records: seq<Record>, ncas: seq<Nca>, n: nat, nca: Nca, r: nat, record: Record, k: nat, hash: Hash)
    requires k < n < |ncas| && r < |records| && HasTriple(records[r], ncas[n])
    requires forall a :: 0 <= a < n ==> !SameTriple(ncas[a], ncas[n])
    requires Listed(records, ncas, k, hash)
    ensures Listed(records[r := record], ncas[n := nca], k, hash)
  {
    var q :| ListedAt(records, ncas, k, hash, q);
    var a :| OfEarlier(records[q], ncas, a, k);
    OtherRecord(records, ncas, n, q, a, r);
    assert OfEarlier(records[r := record][q], ncas[n := nca], a, k);
    assert ListedAt(records[r := record], ncas[n := nca], k, hash, q);
  }

  lemma ChangedExact(records: seq<Record>, ncas: seq<Nca>, n: nat, nca: Nca, r: nat, record: Record, k: nat, hash: Hash)
    requires k < n < |ncas| && r < |records| && HasTriple(records[r], ncas[n]) && HasTriple(record, ncas[n])
    requires forall a :: 0 <= a < n ==> !SameTriple(ncas[a], ncas[n])
    requires Exact(records, ncas, k, hash)
    ensures Exact(records[r := record], ncas[n := nca], k, hash)
  {
    if a :| TakenId(ncas, k, a) {
      assert TakenId(ncas[n := nca], k, a);
    } else {
      var now := records[r := record];
      forall q | 0 <= q < |now| && HasTriple(now[q], ncas[k]) ensures Belongs(now[q], ncas[k], hash) {
        OtherRecord(now, ncas, n, q, k, r);
      }
    }
  }

  lemma ChangedTouched(
    original: seq<Record>, records: seq<Record>, ncas: seq<Nca>, n: nat, nca: Nca, r: nat, record: Record)
    requires OnlyTouched(original, records, ncas, n) && n < |ncas| && r < |records|
    requires HasTriple(record, nca) && Belongs(record, nca, nca.hash) && HasTriple(records[r], nca)
    ensures OnlyTouched(original, records[r := record], ncas[n := nca], n + 1)
  {
    var now := records[r := record];
    forall q | 0 <= q < |records| && now[q] != original[q] ensures Touched(now[q], ncas[n := nca], n + 1) {
      if q == r {
        assert TouchedBy(now[q], ncas[n := nca], n, n + 1);
      } else {
        var a :| TouchedBy(records[q], ncas, a, n);
        assert TouchedBy(now[q], ncas[n := nca], a, n + 1);
      }
    }
  }

  /** An NCA that was changed gets its new ID and hash into its own record and disturbs no other. */
  lemma ChangedNca(original: seq<Record>, records: seq<Record>, ncas: seq<Nca>, hashes: seq<Hash>, n: nat, nca: Nca)
    requires Consistent(original, records, ncas, hashes, n)
    requires n < |ncas| && n < |hashes| && |hashes[n]| >= ID_SIZE && nca == Rehashed(ncas[n], hashes[n])
    requires nca.kind != Meta && Updated(records, nca).Some? && Unique(original, nca)
    requires forall a :: 0 <= a < n ==> !SameTriple(ncas[a], ncas[n])
    ensures Consistent(original, Updated(records, nca).value, ncas[n := nca], hashes, n + 1)
  {
    var r := FindTriple(records, nca);
    var record := records[r].(id := nca.id, hash := nca.hash);
    ChangedTouched(original, records, ncas, n, nca, r, record);
    forall k | 0 <= k < n
      ensures Listed(records[r := record], ncas[n := nca], k, hashes[k])
      ensures Exact(records[r := record], ncas[n := nca], k, hashes[k])
    {
      ChangedListed(records, ncas, n, nca, r, record, k, hashes[k]);
      ChangedExact(records, ncas, n, nca, r, record, k, hashes[k]);
    }
    OwnRecord(original, records, ncas, n, nca, r, hashes[n]);
  }

  lemma OwnRecord(
    original: seq<Record>, records: seq<Record>, ncas: seq<Nca>, n: nat, nca: Nca, r: nat, hash: Hash)
    requires SameKeys(original, records) && Unique(original, nca) && n < |ncas| && r < |records|
    requires HasTriple(records[r], nca) && nca.hash == hash
    ensures var now := records[r := records[r].(id := nca.id, hash := nca.hash)];
      Listed(now, ncas[n := nca], n, hash) && Exact(now, ncas[n := nca], n, hash)
  {
    var now := records[r := records[r].(id := nca.id, hash := nca.hash)];
    assert OfEarlier(now[r], ncas[n := nca], n, n);
    assert ListedAt(now, ncas[n := nca], n, hash, r);
    forall q | 0 <= q < |now| && HasTriple(now[q], nca) ensures Belongs(now[q], nca, hash) {
      assert HasTriple(original[q], nca) && HasTriple(original[r], nca);
    }
  }

  // ------------------------------------------------------- the Meta NCA

  /** The NCAs before it decide; what happens to the last one afterwards does not matter. */
  lemma MetaNca(original: seq<Record>, records: seq<Record>, ncas: seq<Nca>, hashes: seq<Hash>, n: nat, nca: Nca)
    requires Consistent(original, records, ncas, hashes, n) && n + 1 == |ncas|
    ensures Consistent(original, records, ncas[n := nca], hashes, n)
  {
    var now := ncas[n := nca];
    forall r | 0 <= r < |records| && records[r] != original[r] ensures Touched(records[r], now, n) {
      var a :| TouchedBy(records[r], ncas, a, n);
      assert TouchedBy(records[r], now, a, n);
    }
    forall k | 0 <= k < n ensures Listed(records, now, k, hashes[k]) && Exact(records, now, k, hashes[k]) {
      MetaListed(records, ncas, n, nca, k, hashes[k]);
      MetaExact(records, ncas, n, nca, k, hashes[k]);
    }
  }

  lemma MetaListed(records: seq<Record>, ncas: seq<Nca>, n: nat, nca: Nca, k: nat, hash: Hash)
    requires k < n < |ncas| && Listed(records, ncas, k, hash)
    ensures Listed(records, ncas[n := nca], k, hash)
  {
    var r :| ListedAt(records, ncas, k, hash, r);
    var a :| OfEarlier(records[r], ncas, a, k);
    assert OfEarlier(records[r], ncas[n := nca], a, k);
    assert ListedAt(records, ncas[n := nca], k, hash, r);
  }

  lemma MetaExact(records: seq<Record>, ncas: seq<Nca>, n: nat, nca: Nca, k: nat, hash: Hash)
    requires k < n < |ncas| && Exact(records, ncas, k, hash)
    ensures Exact(records, ncas[n := nca], k, hash)
  {
    if a :| TakenId(ncas, k, a) {
      assert TakenId(ncas[n := nca], k, a);
    }
  }

  // -------------------------------------------------------- what it means

  /** For every NCA there is a record with its ID and the hash of the bytes that went out for it. */
  lemma EveryNcaRecorded(
    original: seq<Record>, records: seq<Record>, ncas: seq<Nca>, hashes: seq<Hash>, n: nat, k: nat)
    requires Consistent(original, records, ncas, hashes, n) && k < n
    ensures exists r :: 0 <= r < |records| && records[r].id == ncas[k].id && records[r].hash == hashes[k]
  {
    var r :| ListedAt(records, ncas, k, hashes[k], r);
    assert records[r].id == ncas[k].id;
  }

  /**
   * If the NCAs end up with different IDs, which a look at the archive's names
   * tells, the record of each NCA's own size, type and ID offset is the right one.
   */
  lemma EveryRecordRight(
    original: seq<Record>, records: seq<Record>, ncas: seq<Nca>, hashes: seq<Hash>, n: nat, k: nat, r: nat)
    requires Consistent(original, records, ncas, hashes, n) && k < n
    requires forall a, b :: 0 <= a < b < n ==> ncas[a].id != ncas[b].id
    requires r < |records| && HasTriple(records[r], ncas[k])
    ensures records[r].id == ncas[k].id && records[r].hash == hashes[k]
  {
    assert Exact(records, ncas, k, hashes[k]);
    assert Belongs(records[r], ncas[k], hashes[k]);
  }

  /** Records that name every emitted NCA also do for generating the XML again. */
  lemma XmlStillPossible(
    original: seq<Record>, records: seq<Record>, before: seq<Nca>, ncas: seq<Nca>, hashes: seq<Hash>, n: nat)
    requires Consistent(original, records, ncas, hashes, n) && |ncas| == |before| == n + 1 && ncas[n].kind == Meta
    requires XmlPossible(before, original)
    ensures XmlPossible(ncas, records)
  {
    forall i | 0 <= i < |ncas| && ncas[i].kind != Meta ensures FindId(records, ncas[i].id) < |records| {
      EveryNcaRecorded(original, records, ncas, hashes, n, i);
    }
  }
}
