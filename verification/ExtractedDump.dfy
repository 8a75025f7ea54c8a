// Dumps that put every entry of a file system into a file of its own: the
// extracted hash file system, partition file system and RomFS dumps.  The
// reader closes one output file and opens the next while the writer runs.
module ExtractedDump {
  import opened Options
  import opened Sequences
  import opened DumpMachine
  import opened DumpInvariants
  import opened DumpTheorems
  import opened DumpPrograms

  datatype Entry = Entry(path: Path, data: seq<byte>)

  /** What the device holds once every entry has been saved, in order. */
  function Saved(disk: map<Path, seq<byte>>, entries: seq<Entry>): map<Path, seq<byte>>
    decreases |entries|
  {
    if entries == [] then disk else Saved(disk[entries[0].path := entries[0].data], entries[1..])
  }

  function AllData(entries: seq<Entry>): seq<byte>
  {
    if entries == [] then [] else entries[0].data + AllData(entries[1..])
  }

  /** Getting to the next output file; over USB the host is told about it instead. */
  function SwitchOps(usb: bool, path: Path): seq<Op>
  {
    if usb then [Poll, Lookup, Drain, Open(path)] else [Poll, Drain, Close, Lookup, Open(path)]
  }

  function EntryOps(usb: bool, e: Entry, block: nat, b: Buffer): seq<Op>
    requires 0 < block
  {
    SwitchOps(usb, e.path) + (Blocks(PLAIN, e.data, 0, block, b) + [Check])
  }

  /** The loop over the entries; the RomFS loop tests first whether anything is left to write. */
  function EntriesOps(usb: bool, stops: bool, entries: seq<Entry>, block: nat, b: Buffer): seq<Op>
    requires 0 < block
    decreases |entries|
  {
    if entries == [] then []
    else
      StopOps(stops) +
      (EntryOps(usb, entries[0], block, b) +
       EntriesOps(usb, stops, entries[1..], block, NextBuffer(|entries[0].data|, block, b)))
  }

  function StopOps(stops: bool): seq<Op> { if stops then [StopIfWritten] else [] }

  function EndOps(usb: bool): seq<Op> { if usb then [FinalDrain] else [FinalDrain, Close] }

  datatype Job = Job(entries: seq<Entry>, stops: bool, block: nat, usb: bool, before: map<Path, seq<byte>>)

  function ExtractedConfig(job: Job, wake: Wake): Config
    requires 0 < job.block
  {
    Config(EntriesOps(job.usb, job.stops, job.entries, job.block, First) + EndOps(job.usb), EndOps(job.usb),
           |AllData(job.entries)|, job.usb, wake, None, job.before, 0)
  }

  // ------------------------------------------------------ counting the blocks

  /** How many blocks the entries take. */
  function BlocksIn(entries: seq<Entry>, block: nat): nat
    requires 0 < block
  {
    if entries == [] then 0 else BlockCount(|entries[0].data|, block) + BlocksIn(entries[1..], block)
  }

  function ButLast<T>(s: seq<T>): seq<T> { if s == [] then s else s[..|s| - 1] }

  /**
   * Starting with `published` blocks handed over, every file is opened while the
   * waits can still be relied on.
   */
  predicate Fits(wake: Wake, published: nat, entries: seq<Entry>, block: nat)
    requires 0 < block
  {
    entries == [] || Settles(wake, published + BlocksIn(ButLast(entries), block))
  }

  lemma {:induction false} BlocksInAppend(a: seq<Entry>, b: seq<Entry>, block: nat)
    requires 0 < block
    ensures BlocksIn(a + b, block) == BlocksIn(a, block) + BlocksIn(b, block)
  {
    if a == [] {
      assert a + b == b;
    } else {
      assert (a + b)[0] == a[0] && (a + b)[1..] == a[1..] + b;
      BlocksInAppend(a[1..], b, block);
    }
  }

  lemma ButLastIsLess(a: seq<Entry>, block: nat)
    requires 0 < block
    ensures BlocksIn(ButLast(a), block) <= BlocksIn(a, block)
  {
    hide BlocksIn;
    if a != [] {
      assert a == ButLast(a) + [a[|a| - 1]];
      BlocksInAppend(ButLast(a), [a[|a| - 1]], block);
    }
  }

  /** What fits as a whole fits part by part. */
  lemma FitsAppend(wake: Wake, published: nat, a: seq<Entry>, b: seq<Entry>, block: nat)
    requires 0 < block && Fits(wake, published, a + b, block)
    ensures Fits(wake, published, a, block) && Fits(wake, published + BlocksIn(a, block), b, block)
  {
    hide BlocksIn, ButLast;
    ButLastAppend(a, b);
    if b == [] {
      NoBlocksIn(block);
    } else {
      BlocksInAppend(a, ButLast(b), block);
      ButLastIsLess(a, block);
    }
  }

  lemma ButLastAppend<T>(a: seq<T>, b: seq<T>)
    ensures if b == [] then a + b == a else ButLast(a + b) == a + ButLast(b)
  {
  }

  lemma NoBlocksIn(block: nat)
    requires 0 < block
    ensures BlocksIn([], block) == 0
  {
  }

  lemma OneEntry(e: Entry, block: nat)
    requires 0 < block
    ensures BlocksIn([e], block) == BlockCount(|e.data|, block) && AllData([e]) == e.data
  {
    assert [e][1..] == [] && e.data + [] == e.data;
  }

  lemma EntryPublishes(usb: bool, e: Entry, block: nat, b: Buffer)
    requires 0 < block
    ensures Publishes(EntryOps(usb, e, block, b)) == BlocksIn([e], block)
  {
    var switch, blocks := SwitchOps(usb, e.path), Blocks(PLAIN, e.data, 0, block, b);
    OneEntry(e, block);
    BlocksPublish(PLAIN, e.data, 0, block, b);
    assert [Check][1..] == [];
    PublishesAppend(blocks, [Check]);
    SwitchPublishes(usb, e.path);
    PublishesAppend(switch, blocks + [Check]);
  }

  lemma SwitchPublishes(usb: bool, path: Path)
    ensures Publishes(SwitchOps(usb, path)) == 0
  {
    assert forall i :: 0 <= i < |SwitchOps(usb, path)| ==> !SwitchOps(usb, path)[i].Publish?;
    NonePublished(SwitchOps(usb, path));
  }

  lemma {:induction false} NonePublished(ops: seq<Op>)
    requires forall i :: 0 <= i < |ops| ==> !ops[i].Publish?
    ensures Publishes(ops) == 0
  {
    if ops != [] {
      NonePublished(ops[1..]);
    }
  }

  // ------------------------------------------------------------ sequential run

  lemma SwitchRun(c: Config, g: Ref, usb: bool, path: Path)
    requires Frees(c.wake, g)
    ensures SafeFrom(c, g, SwitchOps(usb, path)) && Owed(SwitchOps(usb, path)) == 0
    ensures RefRun(c, g, SwitchOps(usb, path)) ==
            Ref(g.work, g.published, None, true, Output(Some(path), g.output.disk[path := []]))
  {
    if usb {
      SwitchRunUsb(c, g, path);
    } else {
      SwitchRunFile(c, g, path);
    }
  }

  lemma SwitchRunUsb(c: Config, g: Ref, path: Path)
    requires Frees(c.wake, g)
    ensures SafeFrom(c, g, SwitchOps(true, path)) && Owed(SwitchOps(true, path)) == 0
    ensures RefRun(c, g, SwitchOps(true, path)) ==
            Ref(g.work, g.published, None, true, Output(Some(path), g.output.disk[path := []]))
  {
    hide SafeFrom, RefRun, Owed, Frees;
    assert [Poll, Lookup, Drain, Open(path)] == [Poll] + ([Lookup] + ([Drain] + [Open(path)]));
    Cons(c, g, Poll, [Lookup] + ([Drain] + [Open(path)]));
    Cons(c, g, Lookup, [Drain] + [Open(path)]);
    Drained(c, g, [Open(path)]);
    Opened(c, g.(live := None, passed := true), path);
  }

  lemma SwitchRunFile(c: Config, g: Ref, path: Path)
    requires Frees(c.wake, g)
    ensures SafeFrom(c, g, SwitchOps(false, path)) && Owed(SwitchOps(false, path)) == 0
    ensures RefRun(c, g, SwitchOps(false, path)) ==
            Ref(g.work, g.published, None, true, Output(Some(path), g.output.disk[path := []]))
  {
    hide SafeFrom, RefRun, Owed, Frees;
    assert [Poll, Drain, Close, Lookup, Open(path)] == [Poll] + ([Drain] + ([Close] + ([Lookup] + [Open(path)])));
    var free := g.(live := None, passed := true);
    var closed := free.(output := g.output.(file := None));
    Cons(c, g, Poll, [Drain] + ([Close] + ([Lookup] + [Open(path)])));
    Drained(c, g, [Close] + ([Lookup] + [Open(path)]));
    Cons(c, free, Close, [Lookup] + [Open(path)]);
    Cons(c, closed, Lookup, [Open(path)]);
    Opened(c, closed, path);
  }

  lemma Drained(c: Config, g: Ref, rest: seq<Op>)
    requires Frees(c.wake, g)
    ensures RefRun(c, g, [Drain] + rest) == RefRun(c, g.(live := None, passed := true), rest)
    ensures SafeFrom(c, g, [Drain] + rest) <==> SafeFrom(c, g.(live := None, passed := true), rest)
    ensures Owed([Drain] + rest) == Owed(rest)
  {
    Cons(c, g, Drain, rest);
  }

  lemma Opened(c: Config, g: Ref, path: Path)
    requires g.live.None?
    ensures SafeFrom(c, g, [Open(path)]) && Owed([Open(path)]) == 0
    ensures RefRun(c, g, [Open(path)]) ==
            Ref(g.work, g.published, None, g.passed, Output(Some(path), g.output.disk[path := []]))
  {
    assert [Open(path)] + [] == [Open(path)];
    Cons(c, g, Open(path), []);
  }

  /** Running `ops` from `g` is safe and adds the files `entries` to the output, in order. */
  ghost predicate Saves(c: Config, g: Ref, ops: seq<Op>, entries: seq<Entry>)
  {
    var h := RefRun(c, g, ops);
    SafeFrom(c, g, ops) && Owed(ops) == |AllData(entries)| &&
    h.output.disk == Saved(g.output.disk, entries) &&
    Concat(h.published) == Concat(g.published) + AllData(entries)
  }

  lemma {:induction false} SavedAppend(disk: map<Path, seq<byte>>, a: seq<Entry>, b: seq<Entry>)
    ensures Saved(disk, a + b) == Saved(Saved(disk, a), b)
    ensures AllData(a + b) == AllData(a) + AllData(b)
    decreases |a|
  {
    if a == [] {
      assert a + b == b;
    } else {
      assert (a + b)[0] == a[0] && (a + b)[1..] == a[1..] + b;
      SavedAppend(disk[a[0].path := a[0].data], a[1..], b);
    }
  }

  lemma SavesTwice(c: Config, g: Ref, a: seq<Op>, b: seq<Op>, x: seq<Entry>, y: seq<Entry>)
    requires Saves(c, g, a, x) && Saves(c, RefRun(c, g, a), b, y)
    ensures Saves(c, g, a + b, x + y)
    ensures RefRun(c, g, a + b) == RefRun(c, RefRun(c, g, a), b)
  {
    RefRunAppend(c, g, a, b);
    SafeAppend(c, g, a, b);
    OwedAppend(a, b);
    SavedAppend(g.output.disk, x, y);
    hide SafeFrom, Owed, RefRun, AllData, Saved, Concat;
    assert (Concat(g.published) + AllData(x)) + AllData(y) == Concat(g.published) + AllData(x + y);
  }

  /** Saving one entry, whatever the slot may hold at the start. */
  lemma EntryRun(c: Config, g: Ref, usb: bool, e: Entry, block: nat, b: Buffer)
    requires Frees(c.wake, g) && 0 < block
    ensures Saves(c, g, EntryOps(usb, e, block, b), [e])
    ensures |RefRun(c, g, EntryOps(usb, e, block, b)).published| == |g.published| + BlocksIn([e], block)
    ensures e.data == [] ==> RefRun(c, g, EntryOps(usb, e, block, b)).live.None?
  {
    var switch, blocks := SwitchOps(usb, e.path), Blocks(PLAIN, e.data, 0, block, b);
    SwitchRun(c, g, usb, e.path);
    var h := RefRun(c, g, switch);
    BlocksRun(c, h, PLAIN, e.data, 0, block, b);
    CheckRun(c, h, blocks);
    RefRunAppend(c, g, switch, blocks + [Check]);
    SafeAppend(c, g, switch, blocks + [Check]);
    OwedAppend(switch, blocks + [Check]);
    assert e.data[0..] == e.data;
    EntrySaved(g.output.disk, e);
    OneEntry(e, block);
    EntryPublishes(usb, e, block, b);
    PublishedCount(c, g, EntryOps(usb, e, block, b));
  }

  /** A test that does not make the reader leave changes nothing. */
  lemma CheckRun(c: Config, g: Ref, ops: seq<Op>)
    requires SafeFrom(c, g, ops)
    ensures SafeFrom(c, g, ops + [Check]) && RefRun(c, g, ops + [Check]) == RefRun(c, g, ops)
    ensures Owed(ops + [Check]) == Owed(ops)
  {
    RefRunAppend(c, g, ops, [Check]);
    SafeAppend(c, g, ops, [Check]);
    OwedAppend(ops, [Check]);
    assert [Check] + [] == [Check];
    Cons(c, RefRun(c, g, ops), Check, []);
  }

  lemma EntrySaved(disk: map<Path, seq<byte>>, e: Entry)
    ensures Append(Output(Some(e.path), disk[e.path := []]), e.data).disk == Saved(disk, [e])
  {
    assert [] + e.data == e.data;
    assert Saved(disk, [e]) == Saved(disk[e.path := e.data], []);
  }

  lemma {:induction false} EntriesRun(c: Config, g: Ref, usb: bool, stops: bool, entries: seq<Entry>, block: nat, b: Buffer)
    requires 0 < block && Fits(c.wake, |g.published|, entries, block)
    ensures Saves(c, g, EntriesOps(usb, stops, entries, block, b), entries)
    ensures |RefRun(c, g, EntriesOps(usb, stops, entries, block, b)).published| == |g.published| + BlocksIn(entries, block)
    decreases |entries|
  {
    hide Saves, SafeFrom, RefRun, EntryOps, EntriesOps, NextBuffer, BlocksIn, StopOps, Settles;
    if entries == [] {
      NoEntriesRun(c, g, usb, stops, block, b);
    } else {
      var e, next := entries[0], NextBuffer(|entries[0].data|, block, b);
      assert entries == [e] + entries[1..];
      FitsAppend(c.wake, |g.published|, [e], entries[1..], block);
      FitsFirst(c.wake, |g.published|, entries, block);
      EntryRun(c, g, usb, e, block, b);
      EntriesRun(c, RefRun(c, g, EntryOps(usb, e, block, b)), usb, stops, entries[1..], block, next);
      FirstRun(c, g, usb, stops, entries, block, b);
    }
  }

  lemma NoEntriesRun(c: Config, g: Ref, usb: bool, stops: bool, block: nat, b: Buffer)
    requires 0 < block
    ensures Saves(c, g, EntriesOps(usb, stops, [], block, b), [])
    ensures |RefRun(c, g, EntriesOps(usb, stops, [], block, b)).published| == |g.published| + BlocksIn([], block)
  {
    assert Concat(g.published) + [] == Concat(g.published);
  }

  lemma FitsFirst(wake: Wake, published: nat, entries: seq<Entry>, block: nat)
    requires 0 < block && Fits(wake, published, entries, block) && entries != []
    ensures Settles(wake, published)
  {
    hide BlocksIn;
  }

  /** The first entry and the others. */
  lemma FirstRun(c: Config, g: Ref, usb: bool, stops: bool, entries: seq<Entry>, block: nat, b: Buffer)
    requires 0 < block && entries != []
    requires var entry := EntryOps(usb, entries[0], block, b);
      var rest := EntriesOps(usb, stops, entries[1..], block, NextBuffer(|entries[0].data|, block, b));
      var g1 := RefRun(c, g, entry);
      Saves(c, g, entry, [entries[0]]) && Saves(c, g1, rest, entries[1..]) &&
      |g1.published| == |g.published| + BlocksIn([entries[0]], block) &&
      |RefRun(c, g1, rest).published| == |g1.published| + BlocksIn(entries[1..], block)
    ensures Saves(c, g, EntriesOps(usb, stops, entries, block, b), entries)
    ensures |RefRun(c, g, EntriesOps(usb, stops, entries, block, b)).published| == |g.published| + BlocksIn(entries, block)
  {
    var e := entries[0];
    var stop, entry := StopOps(stops), EntryOps(usb, e, block, b);
    var rest := EntriesOps(usb, stops, entries[1..], block, NextBuffer(|e.data|, block, b));
    assert EntriesOps(usb, stops, entries, block, b) == stop + (entry + rest);
    hide Saves, SafeFrom, RefRun, EntryOps, EntriesOps, NextBuffer, BlocksIn, StopOps;
    assert entries == [e] + entries[1..];
    BlocksInAppend([e], entries[1..], block);
    StopRun(c, g, stops);
    SavesTwice(c, g, entry, rest, [e], entries[1..]);
    SavesTwice(c, g, stop, entry + rest, [], entries);
    assert [] + entries == entries;
  }

  lemma StopRun(c: Config, g: Ref, stops: bool)
    ensures Saves(c, g, StopOps(stops), []) && RefRun(c, g, StopOps(stops)) == g
  {
    assert [StopIfWritten][1..] == [];
    assert Concat(g.published) + [] == Concat(g.published);
  }

  lemma EndRun(c: Config, g: Ref)
    ensures Saves(c, g, EndOps(c.usb), [])
    ensures RefRun(c, g, EndOps(c.usb)).published == g.published && RefRun(c, g, EndOps(c.usb)).passed
  {
    assert [FinalDrain, Close] == [FinalDrain] + ([Close] + []);
    assert [FinalDrain] == [FinalDrain] + [];
    Cons(c, g, FinalDrain, []);
    Cons(c, g, FinalDrain, [Close] + []);
    Cons(c, RefStep(c, g, FinalDrain), Close, []);
    assert Concat(g.published) + [] == Concat(g.published);
  }

  /** Wherever the loop is left, the end of the function is a safe way out. */
  lemma {:induction false} EndIsSafe(c: Config, g: Ref, ops: seq<Op>)
    requires c.epilogue == EndOps(c.usb)
    ensures StopsSafe(c, g, ops + c.epilogue)
    decreases |ops|
  {
    if ops == [] {
      assert ops + c.epilogue == c.epilogue;
      NoStopIsSafe(c, g, c.epilogue);
    } else {
      assert (ops + c.epilogue)[0] == ops[0] && (ops + c.epilogue)[1..] == ops[1..] + c.epilogue;
      EndIsSafe(c, RefStep(c, g, ops[0]), ops[1..]);
      EndRun(c, g);
    }
  }

  lemma ExtractedRuns(job: Job, wake: Wake)
    requires 0 < job.block && Fits(wake, 0, job.entries, job.block)
    ensures var c := ExtractedConfig(job, wake);
      WellFormed(c) && Saves(c, RefInit(c), c.program, job.entries)
  {
    var c := ExtractedConfig(job, wake);
    var loop := EntriesOps(job.usb, job.stops, job.entries, job.block, First);
    EntriesRun(c, RefInit(c), job.usb, job.stops, job.entries, job.block, First);
    EndRun(c, RefRun(c, RefInit(c), loop));
    SavesTwice(c, RefInit(c), loop, EndOps(job.usb), job.entries, []);
    assert job.entries + [] == job.entries;
    EndIsSafe(c, RefInit(c), loop);
  }

  lemma EntryNeverStops(usb: bool, e: Entry, block: nat, b: Buffer)
    requires 0 < block
    ensures NoStop(EntryOps(usb, e, block, b))
  {
    BlocksAreLocal(PLAIN, e.data, 0, block, b);
  }

  lemma {:induction false} EntriesNeverStop(usb: bool, entries: seq<Entry>, block: nat, b: Buffer)
    requires 0 < block
    ensures NoStop(EntriesOps(usb, false, entries, block, b))
    decreases |entries|
  {
    if entries != [] {
      EntryNeverStops(usb, entries[0], block, b);
      EntriesNeverStop(usb, entries[1..], block, NextBuffer(|entries[0].data|, block, b));
    }
  }

  /**
   * A successful extracted dump has put every entry, empty ones included, into its
   * own file, each with exactly its own data: with fused wakes always, with late
   * ones if all entries but the last hold at most one block together, and with
   * spurious ones if all but the last are empty.
   */
  lemma EveryEntrySaved(job: Job, wake: Wake, run: seq<Event>)
    requires 0 < job.block && !job.stops && Fits(wake, 0, job.entries, job.block)
    requires Exec(ExtractedConfig(job, wake), run).Some?
    requires Exec(ExtractedConfig(job, wake), run).value.supervisor == Ended(true)
    ensures Exec(ExtractedConfig(job, wake), run).value.output.disk == Saved(job.before, job.entries)
  {
    ExtractedRuns(job, wake);
    EntriesNeverStop(job.usb, job.entries, job.block, First);
    SuccessRunsAll(ExtractedConfig(job, wake), run);
  }

  predicate DistinctPaths(entries: seq<Entry>)
  {
    forall i, j :: 0 <= i < j < |entries| ==> entries[i].path != entries[j].path
  }

  /** What `Saved` means for entries with paths of their own: file i is entry i, nothing else changes. */
  lemma {:induction false} SavedIsEach(disk: map<Path, seq<byte>>, entries: seq<Entry>)
    requires DistinctPaths(entries)
    ensures forall i :: 0 <= i < |entries| ==>
      entries[i].path in Saved(disk, entries) && Saved(disk, entries)[entries[i].path] == entries[i].data
    ensures forall p :: (forall i :: 0 <= i < |entries| ==> entries[i].path != p) ==>
      (p in Saved(disk, entries) <==> p in disk) && (p in disk ==> Saved(disk, entries)[p] == disk[p])
    decreases |entries|
  {
    if entries != [] {
      var rest := entries[1..];
      SavedIsEach(disk[entries[0].path := entries[0].data], rest);
      forall i | 0 <= i < |entries|
        ensures entries[i].path in Saved(disk, entries) && Saved(disk, entries)[entries[i].path] == entries[i].data
      {
        if i == 0 {
          assert forall j :: 0 <= j < |rest| ==> rest[j].path == entries[j + 1].path;
        } else {
          assert rest[i - 1] == entries[i];
        }
      }
      forall p | forall i :: 0 <= i < |entries| ==> entries[i].path != p
        ensures (p in Saved(disk, entries) <==> p in disk) && (p in disk ==> Saved(disk, entries)[p] == disk[p])
      {
        assert entries[0].path != p;
        assert forall j :: 0 <= j < |rest| ==> rest[j] == entries[j + 1];
      }
    }
  }

  // ------------------------------------------------- leaving the loop early

  /** A StopIfWritten behind the first one and a stop-free entry is in the rest of the loop. */
  lemma StopIsFurtherOn(entry: seq<Op>, rest: seq<Op>, i: nat)
    requires NoStop(entry) && 0 < i < 1 + |entry| + |rest| && ([StopIfWritten] + (entry + rest))[i].StopIfWritten?
    ensures 1 + |entry| <= i && rest[i - 1 - |entry|].StopIfWritten?
    ensures ([StopIfWritten] + (entry + rest))[..i + 1] == [StopIfWritten] + (entry + rest[..i - |entry|])
  {
    if i < 1 + |entry| {
      assert false;
    }
  }

  /** A StopIfWritten in the loop stands in front of an entry. */
  lemma {:induction false} StopIsAtEntry(usb: bool, entries: seq<Entry>, block: nat, b: Buffer, i: nat) returns (k: nat)
    requires 0 < block && i < |EntriesOps(usb, true, entries, block, b)|
    requires EntriesOps(usb, true, entries, block, b)[i].StopIfWritten?
    ensures k < |entries|
    ensures EntriesOps(usb, true, entries, block, b)[..i + 1] ==
            EntriesOps(usb, true, entries[..k], block, b) + [StopIfWritten]
    decreases |entries|
  {
    var e, next := entries[0], NextBuffer(|entries[0].data|, block, b);
    var entry, rest := EntryOps(usb, e, block, b), EntriesOps(usb, true, entries[1..], block, next);
    if i == 0 {
      k := 0;
    } else {
      EntryNeverStops(usb, e, block, b);
      StopIsFurtherOn(entry, rest, i);
      var m := StopIsAtEntry(usb, entries[1..], block, next, i - 1 - |entry|);
      k := m + 1;
      assert entries[..k][0] == e && entries[..k][1..] == entries[1..][..m];
      Regroup(entry, EntriesOps(usb, true, entries[1..][..m], block, next));
    }
  }

  lemma Regroup(entry: seq<Op>, before: seq<Op>)
    ensures [StopIfWritten] + (entry + (before + [StopIfWritten])) == [StopIfWritten] + (entry + before) + [StopIfWritten]
  {
  }

  /** What the reader had done when it left the loop before entry `k`. */
  lemma StoppedOutcome(c: Config, job: Job, wake: Wake, k: nat)
    requires 0 < job.block && Fits(wake, 0, job.entries, job.block) && job.stops && k < |job.entries|
    requires c == ExtractedConfig(job, wake)
    ensures Saves(c, RefInit(c),
                  EntriesOps(job.usb, true, job.entries[..k], job.block, First) + [StopIfWritten] + EndOps(job.usb),
                  job.entries[..k])
  {
    var loop := EntriesOps(job.usb, true, job.entries[..k], job.block, First);
    var g := RefRun(c, RefInit(c), loop);
    assert job.entries == job.entries[..k] + job.entries[k..];
    FitsAppend(wake, 0, job.entries[..k], job.entries[k..], job.block);
    EntriesRun(c, RefInit(c), job.usb, true, job.entries[..k], job.block, First);
    StopRun(c, g, true);
    SavesTwice(c, RefInit(c), loop, [StopIfWritten], job.entries[..k], []);
    EndRun(c, g);
    assert job.entries[..k] + [] == job.entries[..k];
    SavesTwice(c, RefInit(c), loop + [StopIfWritten], EndOps(job.usb), job.entries[..k], []);
  }

  lemma {:induction false} NothingLeft(entries: seq<Entry>)
    requires |AllData(entries)| == 0
    ensures forall i :: 0 <= i < |entries| ==> entries[i].data == []
  {
    if entries != [] {
      NothingLeft(entries[1..]);
      assert forall i :: 1 <= i < |entries| ==> entries[i] == entries[1..][i - 1];
    }
  }

  /** What a reader that left its loop early had done. */
  lemma StoppedDone(job: Job, wake: Wake, r: ReaderState, i: int) returns (k: nat)
    requires 0 < job.block && job.stops && r.todo == []
    requires StoppedAt(ExtractedConfig(job, wake), r, |AllData(job.entries)|, i)
    ensures k < |job.entries|
    ensures r.done == EntriesOps(job.usb, true, job.entries[..k], job.block, First) + [StopIfWritten] + EndOps(job.usb)
  {
    var c := ExtractedConfig(job, wake);
    var loop := EntriesOps(job.usb, true, job.entries, job.block, First);
    assert i < |loop| by {
      if i >= |loop| {
        assert false;
      }
    }
    k := StopIsAtEntry(job.usb, job.entries, job.block, First, i);
    assert c.program[..i + 1] == loop[..i + 1];
    assert r.done == r.done + r.todo;
  }

  /**
   * The loop that stops once everything has been written, as the RomFS dump
   * does: a successful dump has saved a first part of the entries, and only
   * empty entries are left out.
   */
  lemma NonEmptyEntriesSaved(job: Job, wake: Wake, run: seq<Event>) returns (k: nat)
    requires 0 < job.block && job.stops && Fits(wake, 0, job.entries, job.block)
    requires Exec(ExtractedConfig(job, wake), run).Some?
    requires Exec(ExtractedConfig(job, wake), run).value.supervisor == Ended(true)
    ensures k <= |job.entries|
    ensures Exec(ExtractedConfig(job, wake), run).value.output.disk == Saved(job.before, job.entries[..k])
    ensures forall i :: k <= i < |job.entries| ==> job.entries[i].data == []
  {
    var c := ExtractedConfig(job, wake);
    var r := Exec(c, run).value.reader;
    ExtractedRuns(job, wake);
    SuccessIsExact(c, run);
    if r.done == c.program {
      k := |job.entries|;
      assert job.entries[..k] == job.entries;
    } else {
      var i :| StoppedAt(c, r, c.total, i);
      k := StoppedDone(job, wake, r, i);
      StoppedOutcome(c, job, wake, k);
      OnlyEmptyLeft(c, job, wake, run, k);
    }
  }

  /** Everything was written, so what the reader skipped held no bytes. */
  lemma OnlyEmptyLeft(c: Config, job: Job, wake: Wake, run: seq<Event>, k: nat)
    requires 0 < job.block && Fits(wake, 0, job.entries, job.block) && k < |job.entries|
    requires c == ExtractedConfig(job, wake) && Exec(c, run).Some?
    requires Saves(c, RefInit(c), Exec(c, run).value.reader.done, job.entries[..k])
    requires Exec(c, run).value.writer.emitted == RefRun(c, RefInit(c), Exec(c, run).value.reader.done).published
    requires Exec(c, run).value.writer.written == c.total
    ensures forall i :: k <= i < |job.entries| ==> job.entries[i].data == []
  {
    ExtractedRuns(job, wake);
    RunSound(c, run);
    WrittenLength(c, Exec(c, run).value);
    RestIsEmpty(job, k);
  }

  lemma WrittenLength(c: Config, s: State)
    requires Inv(c, s)
    ensures s.writer.written == |Concat(s.writer.emitted)|
  {
    BytesIsLength(s.writer.emitted);
  }

  lemma RestIsEmpty(job: Job, k: nat)
    requires k <= |job.entries| && |AllData(job.entries[..k])| == |AllData(job.entries)|
    ensures forall i :: k <= i < |job.entries| ==> job.entries[i].data == []
  {
    SavedAppend(job.before, job.entries[..k], job.entries[k..]);
    assert job.entries[..k] + job.entries[k..] == job.entries;
    NothingLeft(job.entries[k..]);
    assert forall i :: k <= i < |job.entries| ==> job.entries[i] == job.entries[k..][i - k];
  }
}
