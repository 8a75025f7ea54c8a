// What the order of release and wake costs, exactly.  The code releases the mutex
// before it wakes the other thread, and it waits once and not in a loop.  So with
// enough blocks a reader can pass its wait with the previous block still in the
// slot, and this module says for every dump how many are enough.
module LateWakes {
  import opened Options
  import opened Sequences
  import opened DumpMachine
  import opened DumpInvariants
  import opened AnyReader
  import opened DumpTheorems
  import opened DumpPrograms
  import opened DumpSchedules
  import opened ExtractedDump
  import RawDump

  // ------------------------------------------------------- counting blocks

  /** A loop takes as many turns as there are blocks, the last of them perhaps cut short. */
  lemma {:induction false} BlockCountBounds(left: nat, block: nat, n: nat)
    requires 0 < block
    ensures BlockCount(left, block) <= n <==> left <= n * block
    decreases left
  {
    if left > 0 {
      if n == 0 {
        assert n * block == 0;
      } else {
        assert n * block == (n - 1) * block + block;
        BlockCountBounds(left - BlockSize(left, block), block, n - 1);
        assert 0 <= (n - 1) * block;
      }
    }
  }

  /** At most one of the entries holds any data. */
  predicate OneFilled(entries: seq<Entry>)
  {
    forall i, j :: 0 <= i < j < |entries| ==> entries[i].data == [] || entries[j].data == []
  }

  /** What it means for entries to take no block, or only one. */
  lemma {:induction false} AtMostOneBlock(entries: seq<Entry>, block: nat)
    requires 0 < block
    ensures BlocksIn(entries, block) == 0 <==> forall i :: 0 <= i < |entries| ==> entries[i].data == []
    ensures BlocksIn(entries, block) <= 1 <==> OneFilled(entries) && |AllData(entries)| <= block
  {
    if entries != [] {
      var e, rest := entries[0], entries[1..];
      assert entries == [e] + rest;
      AtMostOneBlock(rest, block);
      BlockCountBounds(|e.data|, block, 0);
      BlockCountBounds(|e.data|, block, 1);
      FilledFrom(e, rest);
      if BlocksIn(rest, block) == 0 {
        EmptyData(rest);
      } else {
        SomeData(rest, block);
      }
    }
  }

  lemma FilledFrom(e: Entry, rest: seq<Entry>)
    ensures OneFilled([e] + rest) <==>
      OneFilled(rest) && (e.data == [] || forall i :: 0 <= i < |rest| ==> rest[i].data == [])
    ensures (forall i :: 0 <= i < |[e] + rest| ==> ([e] + rest)[i].data == []) <==>
      e.data == [] && forall i :: 0 <= i < |rest| ==> rest[i].data == []
  {
    var all := [e] + rest;
    assert all[0] == e && forall i :: 0 <= i < |rest| ==> all[i + 1] == rest[i];
    if OneFilled(all) {
      forall i, j | 0 <= i < j < |rest| ensures rest[i].data == [] || rest[j].data == [] {
        assert all[i + 1] == rest[i] && all[j + 1] == rest[j];
      }
      forall i | 0 <= i < |rest| && e.data != [] ensures rest[i].data == [] {
        assert all[i + 1] == rest[i];
      }
    }
    if forall i :: 0 <= i < |all| ==> all[i].data == [] {
      forall i | 0 <= i < |rest| ensures rest[i].data == [] {
        assert all[i + 1] == rest[i];
      }
    }
  }

  lemma {:induction false} EmptyData(entries: seq<Entry>)
    requires forall i :: 0 <= i < |entries| ==> entries[i].data == []
    ensures AllData(entries) == []
  {
    if entries != [] {
      EmptyData(entries[1..]);
    }
  }

  /** What a turn of the loop does before it gets to the mailbox. */
  function BlockFront(t: Treatment, data: seq<byte>, offset: nat, size: nat, b: Buffer): seq<Op>
    requires offset + size <= |data|
  {
    [Poll] + ([Load(b, data[offset..offset + size])] + (WipeOps(t, offset, b) + SumOps(t, b)))
  }

  lemma BlockParts(t: Treatment, data: seq<byte>, offset: nat, size: nat, b: Buffer)
    requires offset + size <= |data|
    ensures BlockOps(t, data, offset, size, b) == BlockFront(t, data, offset, size, b) + [Publish(b, size)]
    ensures var front := BlockFront(t, data, offset, size, b);
      KeepsFile(front) && forall i :: 0 <= i < |front| ==> Private(front[i])
  {
  }

  /** The reader up to the mailbox with its next block, and what it has to do from there. */
  lemma FillsBlock(
    c: Config, d: Config, s: State, g: Ref, t: Treatment, data: seq<byte>, offset: nat, size: nat, b: Buffer, rest: seq<Op>)
    returns (u: State, h: Ref)
    requires offset + size <= |data| && Reachable(c, s) && Steady(s) && Tracks(c, d, s, g)
    requires s.reader.todo == BlockOps(t, data, offset, size, b) + rest && s.writer.written < c.total
    ensures Reachable(c, u) && Steady(u) && Tracks(c, d, u, h) && u.reader.todo == [Publish(b, size)] + rest
    ensures u.writer == s.writer && u.shared == s.shared && u.output == s.output
    ensures h == RefRun(d, g, BlockFront(t, data, offset, size, b))
  {
    var front := BlockFront(t, data, offset, size, b);
    BlockParts(t, data, offset, size, b);
    hide BlockOps, BlockFront, Tracks, Reachable, RefRun, KeepsFile;
    assert front + [Publish(b, size)] + rest == front + ([Publish(b, size)] + rest);
    u := RunsAllPrivate(c, d, s, g, front, [Publish(b, size)] + rest);
    h := RefRun(d, g, front);
  }

  // ------------------------------------------------- a block is overwritten

  /** One more block into the empty slot. */
  lemma HandsNextOver(
    c: Config, d: Config, s: State, g: Ref, t: Treatment, data: seq<byte>, offset: nat, block: nat, b: Buffer)
    returns (u: State, h: Ref)
    requires 0 < block && offset + block < |data| && Reachable(c, s) && Calm(s) && Tracks(c, d, s, g)
    requires s.reader.todo == Blocks(t, data, offset, block, b) && s.writer.written < c.total
    ensures Reachable(c, u) && Steady(u) && Tracks(c, d, u, h) && u.shared.dataSize == block && u.writer == s.writer
    ensures u.reader.todo == Blocks(t, data, offset + block, block, b.Other())
  {
    hide Blocks, BlockOps, BlockFront, Treated, NextBuffer, Tracks, SafeFrom, StopsSafe, Owed, WorkStep, Slot, Append;
    BlocksUnroll(t, data, offset, block, b, block);
    u, h := FillsBlock(c, d, s, g, t, data, offset, block, b, Blocks(t, data, offset + block, block, b.Other()));
    u := HandsBlockOver(c, d, u, h);
    h := RefStep(d, h, Publish(b, block));
  }

  /** A wake for the block before, and two more blocks. */
  lemma Overwrites(
    c: Config, d: Config, s: State, g: Ref, t: Treatment, data: seq<byte>, offset: nat, block: nat, b: Buffer)
    returns (u: State)
    requires 0 < block && offset + block < |data| && Reachable(c, s) && Calm(s) && Tracks(c, d, s, g)
    requires s.reader.todo == Blocks(t, data, offset, block, b) && StaleWake(c, s) && s.writer.written < c.total
    ensures Reachable(c, u) && HandsOver(u) && u.shared.dataSize > 0 && !Failed(u.shared) && u.writer.at.Top?
  {
    hide Blocks, Tracks;
    var h;
    u, h := HandsNextOver(c, d, s, g, t, data, offset, block, b);
    u := ReachesMailbox(c, d, u, h, t, data, offset + block, block, b.Other());
    u := PassesWait(c, u);
  }

  /** The next block read, whatever is in the slot. */
  lemma ReachesMailbox(
    c: Config, d: Config, s: State, g: Ref, t: Treatment, data: seq<byte>, offset: nat, block: nat, b: Buffer)
    returns (u: State)
    requires 0 < block && offset < |data| && Reachable(c, s) && Steady(s) && Tracks(c, d, s, g)
    requires s.reader.todo == Blocks(t, data, offset, block, b) && s.writer.written < c.total
    ensures Reachable(c, u) && Steady(u) && u.writer == s.writer && u.shared == s.shared
    ensures u.reader.todo != [] && u.reader.todo[0].Publish?
  {
    hide Blocks, BlockOps, BlockFront, Treated, NextBuffer, Tracks, Owed, Append;
    var size := BlockSize(|data| - offset, block);
    BlocksUnroll(t, data, offset, block, b, size);
    var h;
    u, h := FillsBlock(c, d, s, g, t, data, offset, size, b, Blocks(t, data, offset + size, block, b.Other()));
  }

  /** The reader of a raw dump of three blocks, of two with spurious wakes, gets to hand over onto a full slot. */
  lemma RawReachesFull(job: RawDump.Job, wake: Wake) returns (s: State)
    requires job.Valid() && !wake.Fused? && |job.image| > (if wake.Late? then 2 else 1) * job.block
    ensures Reachable(RawDump.RawConfig(job, wake), s) && HandsOver(s) && s.shared.dataSize > 0
    ensures !Failed(s.shared) && s.writer.at.Top?
  {
    var c, t, block := RawDump.RawConfig(job, wake), job.Options(), job.block;
    RawDump.RawRuns(job, wake);
    StartsCalm(c, c);
    s := Init(c);
    var g := RefInit(c);
    if wake.Late? {
      var first, rest := BlockOps(t, job.image, 0, block, First), Blocks(t, job.image, block, block, Second);
      assert Blocks(t, job.image, 0, block, First) == first + rest;
      RawOwed(job, wake, first, rest);
      s := RunsAlone(c, c, s, g, first, rest);
      g := RefRun(c, g, first);
      s := Overwrites(c, c, s, g, t, job.image, block, block, Second);
    } else {
      s := Overwrites(c, c, s, g, t, job.image, 0, block, First);
    }
  }

  lemma RawOverwrites(job: RawDump.Job, wake: Wake) returns (run: seq<Event>)
    requires job.Valid() && !wake.Fused? && |job.image| > (if wake.Late? then 2 else 1) * job.block
    ensures Exec(RawDump.RawConfig(job, wake), run).Some? && Overwritten(RawDump.RawConfig(job, wake), run) > 0
  {
    var s := RawReachesFull(job, wake);
    run := OneMore(RawDump.RawConfig(job, wake), s);
  }

  lemma RawOwed(job: RawDump.Job, wake: Wake, first: seq<Op>, rest: seq<Op>)
    requires job.Valid() && 2 * job.block < |job.image|
    requires first == BlockOps(job.Options(), job.image, 0, job.block, First)
    requires rest == Blocks(job.Options(), job.image, job.block, job.block, Second)
    requires RawDump.RawConfig(job, wake).program == first + rest && WellFormed(RawDump.RawConfig(job, wake))
    ensures Owed(first) == job.block && Owed(rest) == |job.image| - job.block
  {
    hide Blocks, BlockOps, SafeFrom, StopsSafe;
    OwedAppend(first, rest);
    OneOwed(job.Options(), job.image, job.block);
  }

  lemma OneOwed(t: Treatment, data: seq<byte>, size: nat)
    requires size <= |data|
    ensures Owed(BlockOps(t, data, 0, size, First)) == size
  {
    BlockParts(t, data, 0, size, First);
    hide BlockOps;
    var front := BlockFront(t, data, 0, size, First);
    OwedAppend(front, [Publish(First, size)]);
    NoneOwed(front);
    assert [Publish(First, size)][1..] == [];
  }

  lemma {:induction false} NoneOwed(ops: seq<Op>)
    requires Between(ops)
    ensures Owed(ops) == 0
  {
    if ops != [] {
      NoneOwed(ops[1..]);
    }
  }

  lemma OneMore(c: Config, s: State) returns (run: seq<Event>)
    requires Reachable(c, s) && HandsOver(s) && s.shared.dataSize > 0
    ensures Exec(c, run).Some? && Overwritten(c, run) > 0
  {
    var before :| Exec(c, before) == Some(s);
    run := before + [ReaderStep];
    assert run[..|run| - 1] == before;
  }

  /** The reader of a raw dump never hands over more blocks than there are. */
  lemma RawPublishes(job: RawDump.Job, wake: Wake, run: seq<Event>)
    requires job.Valid() && Exec(RawDump.RawConfig(job, wake), run).Some?
    ensures |Exec(RawDump.RawConfig(job, wake), run).value.reader.ref.published| <= BlockCount(|job.image|, job.block)
  {
    var c := RawDump.RawConfig(job, wake);
    RawDump.RawRuns(job, wake);
    BlocksAreLocal(job.Options(), job.image, 0, job.block, First);
    assert c.program == Blocks(job.Options(), job.image, 0, job.block, First) && RefInit(c).published == [];
    hide WellFormed, Blocks, RefRun, Publishes, Exec, RefInit, RawDump.RawConfig, KeepsFile, NoStop, BlockCount;
    OnProgram(c, run);
    var r := Exec(c, run).value.reader;
    PublishedCount(c, RefInit(c), r.done);
    PublishesAppend(r.done, r.todo);
    BlocksPublish(job.Options(), job.image, 0, job.block, First);
  }

  /**
   * A raw dump never overwrites a pending block, whatever the schedule, exactly if
   * wakes are fused, or late and the image takes at most two blocks, or spurious
   * and it takes only one.
   */
  lemma NeverOverwrites(job: RawDump.Job, wake: Wake)
    requires job.Valid()
    ensures (forall run :: Exec(RawDump.RawConfig(job, wake), run).Some? ==>
               Overwritten(RawDump.RawConfig(job, wake), run) == 0) <==>
      wake.Fused? || |job.image| <= (if wake.Late? then 2 else 1) * job.block
  {
    var c := RawDump.RawConfig(job, wake);
    var n := if wake.Late? then 2 else 1;
    if wake.Fused? || |job.image| <= n * job.block {
      BlockCountBounds(|job.image|, job.block, n);
      RawDump.RawRuns(job, wake);
      forall run | Exec(c, run).Some? ensures Overwritten(c, run) == 0 {
        RawPublishes(job, wake, run);
        RunSound(c, run);
        LostIsOverwritten(c, run);
      }
    } else {
      var run := RawOverwrites(job, wake);
    }
  }

  // -------------------------------------------- a block gets into another file

  /** The last block of a file, and the loop up to it. */
  lemma {:induction false} LastBlock(data: seq<byte>, offset: nat, block: nat, b: Buffer) returns (m: nat, last: Buffer)
    requires offset < |data| && 0 < block
    ensures offset <= m < |data| <= m + block && (m == offset || m >= offset + block)
    ensures Blocks(PLAIN, data, offset, block, b) ==
      Blocks(PLAIN, data[..m], offset, block, b) + BlockOps(PLAIN, data, m, |data| - m, last)
    ensures BlockCount(|data| - offset, block) == BlockCount(m - offset, block) + 1
    decreases |data| - offset
  {
    hide Blocks, BlockOps;
    var size := BlockSize(|data| - offset, block);
    if offset + size == |data| {
      m, last := offset, b;
      OneBlockOnly(data, offset, block, b);
    } else {
      m, last := LastBlock(data, offset + size, block, b.Other());
      OneBlockEarlier(data, offset, block, b, m, BlockOps(PLAIN, data, m, |data| - m, last));
    }
  }

  lemma OneBlockOnly(data: seq<byte>, offset: nat, block: nat, b: Buffer)
    requires offset < |data| <= offset + block && 0 < block
    ensures Blocks(PLAIN, data, offset, block, b) ==
      Blocks(PLAIN, data[..offset], offset, block, b) + BlockOps(PLAIN, data, offset, |data| - offset, b)
  {
    hide BlockOps;
    assert Blocks(PLAIN, data[..offset], offset, block, b) == [] == Blocks(PLAIN, data, |data|, block, b.Other());
  }

  lemma OneBlockEarlier(data: seq<byte>, offset: nat, block: nat, b: Buffer, m: nat, end: seq<Op>)
    requires 0 < block && offset + block <= m < |data|
    requires Blocks(PLAIN, data, offset + block, block, b.Other()) ==
      Blocks(PLAIN, data[..m], offset + block, block, b.Other()) + end
    ensures Blocks(PLAIN, data, offset, block, b) == Blocks(PLAIN, data[..m], offset, block, b) + end
  {
    hide Blocks, Treated, NextBuffer;
    BlocksUnroll(PLAIN, data, offset, block, b, block);
    BlocksUnroll(PLAIN, data[..m], offset, block, b, block);
    assert data[..m][offset..offset + block] == data[offset..offset + block];
    var turn, rest := BlockOps(PLAIN, data, offset, block, b), Blocks(PLAIN, data[..m], offset + block, block, b.Other());
    assert turn + (rest + end) == (turn + rest) + end;
  }

  /** The statements for an entry up to its last block. */
  function UpToLast(e: Entry, m: nat, block: nat, b: Buffer): seq<Op>
    requires 0 < block && m <= |e.data|
  {
    SwitchOps(false, e.path) + Blocks(PLAIN, e.data[..m], 0, block, b)
  }

  /** What running them leaves in the file, in the reference. */
  lemma UpToLastRun(d: Config, g: Ref, e: Entry, m: nat, block: nat, b: Buffer)
    requires 0 < block && m < |e.data| && d.wake.Fused?
    ensures var h := RefRun(d, g, UpToLast(e, m, block, b));
      h.output.file == Some(e.path) && e.path in h.output.disk && h.output.disk[e.path] == e.data[..m]
    ensures Owed(UpToLast(e, m, block, b)) == m
  {
    var switch, blocks := SwitchOps(false, e.path), Blocks(PLAIN, e.data[..m], 0, block, b);
    SwitchRun(d, g, false, e.path);
    RefRunAppend(d, g, switch, blocks);
    BlocksRun(d, RefRun(d, g, switch), PLAIN, e.data[..m], 0, block, b);
    assert e.data[..m][0..] == e.data[..m] && [] + e.data[..m] == e.data[..m];
    OwedAppend(switch, blocks);
  }

  /** An entry cut in front of its last block. */
  lemma CutAtLast(e: Entry, m: nat, last: Buffer, block: nat, b: Buffer)
    requires 0 < block && m < |e.data|
    requires Blocks(PLAIN, e.data, 0, block, b) ==
      Blocks(PLAIN, e.data[..m], 0, block, b) + BlockOps(PLAIN, e.data, m, |e.data| - m, last)
    ensures EntryOps(false, e, block, b) ==
      UpToLast(e, m, block, b) + (BlockOps(PLAIN, e.data, m, |e.data| - m, last) + [Check])
  {
    hide Blocks, BlockOps, SwitchOps;
  }

  lemma NeverOpensAppend(path: Path, a: seq<Op>, b: seq<Op>)
    requires NeverOpens(path, a) && NeverOpens(path, b)
    ensures NeverOpens(path, a + b)
  {
  }

  lemma BlocksNeverOpen(path: Path, data: seq<byte>, block: nat, b: Buffer)
    requires 0 < block
    ensures NeverOpens(path, Blocks(PLAIN, data, 0, block, b) + [Check])
  {
    BlocksAreLocal(PLAIN, data, 0, block, b);
  }

  lemma {:induction false} EntriesNeverOpen(path: Path, stops: bool, entries: seq<Entry>, block: nat, b: Buffer)
    requires 0 < block && forall i :: 0 <= i < |entries| ==> entries[i].path != path
    ensures NeverOpens(path, EntriesOps(false, stops, entries, block, b))
    decreases |entries|
  {
    hide Blocks, NextBuffer, NeverOpens;
    if entries == [] {
      EndNeverOpens(path);
    } else {
      var next := NextBuffer(|entries[0].data|, block, b);
      var switch, blocks := SwitchOps(false, entries[0].path), Blocks(PLAIN, entries[0].data, 0, block, b) + [Check];
      EntriesNeverOpen(path, stops, entries[1..], block, next);
      BlocksNeverOpen(path, entries[0].data, block, b);
      SwitchNeverOpens(path, stops, entries[0]);
      NeverOpensAppend(path, switch, blocks);
      NeverOpensAppend(path, switch + blocks, EntriesOps(false, stops, entries[1..], block, next));
      NeverOpensAppend(path, StopOps(stops), switch + blocks + EntriesOps(false, stops, entries[1..], block, next));
    }
  }

  lemma EndNeverOpens(path: Path)
    ensures NeverOpens(path, EndOps(false)) && NeverOpens(path, [])
  {
  }

  lemma SwitchNeverOpens(path: Path, stops: bool, e: Entry)
    requires e.path != path
    ensures NeverOpens(path, SwitchOps(false, e.path)) && NeverOpens(path, StopOps(stops))
  {
  }

  /** A dump to a file system, and the same dump with waits that can be relied on. */
  ghost predicate Twin(c: Config, d: Config)
  {
    d == c.(wake := Fused) && WellFormed(d) && !c.usb && Sized(c.epilogue)
  }

  /** The reader's program, from an entry on that holds data. */
  predicate At(c: Config, pre: seq<Op>, e: Entry, block: nat, b: Buffer, post: seq<Op>)
  {
    0 < block && e.data != [] && c.program == pre + (EntryOps(false, e, block, b) + post)
  }

  /** Something is written before the last block of `e`. */
  predicate NotFirst(pre: seq<Op>, e: Entry, block: nat) { Owed(pre) > 0 || |e.data| > block }

  /** Run alone, a dump gets as far as an entry's last block, with all blocks before it in its file. */
  lemma ReachesLastBlock(c: Config, d: Config, pre: seq<Op>, e: Entry, block: nat, b: Buffer, post: seq<Op>)
    returns (t: State, h: Ref, m: nat, last: Buffer)
    requires Twin(c, d) && At(c, pre, e, block, b, post)
    ensures Reachable(c, t) && Calm(t) && Tracks(c, d, t, h) && m < |e.data|
    ensures t.reader.todo == BlockOps(PLAIN, e.data, m, |e.data| - m, last) + ([Check] + post)
    ensures t.output.file == Some(e.path) && e.path in t.output.disk && t.output.disk[e.path] == e.data[..m]
    ensures !c.wake.Fused? && NotFirst(pre, e, block) ==> t.writer.at.WWaking?
  {
    hide SafeFrom, StopsSafe, UpToLast, BlockOps, Blocks, EntryOps, NextBuffer, BlockFront, Tracks, Owed, BlockCount;
    hide Reachable, Calm, RefRun, WellFormed, Init, RefInit;
    StartsCalm(c, d);
    InitTodo(c);
    m, last := LastBlock(e.data, 0, block, b);
    var front, rest := pre + UpToLast(e, m, block, b), BlockOps(PLAIN, e.data, m, |e.data| - m, last) + ([Check] + post);
    CutAtLast(e, m, last, block, b);
    Regroup4(pre, UpToLast(e, m, block, b), BlockOps(PLAIN, e.data, m, |e.data| - m, last), [Check], post);
    UpToLastOutput(d, pre, e, m, block, b);
    BlockOwed(e.data, m, last, [Check] + post);
    t := RunsAlone(c, d, Init(c), RefInit(d), front, rest);
    h := RefRun(d, RefInit(d), front);
  }

  lemma UpToLastOutput(d: Config, pre: seq<Op>, e: Entry, m: nat, block: nat, b: Buffer)
    requires 0 < block && m < |e.data| && d.wake.Fused?
    ensures var h := RefRun(d, RefInit(d), pre + UpToLast(e, m, block, b));
      h.output.file == Some(e.path) && e.path in h.output.disk && h.output.disk[e.path] == e.data[..m]
    ensures Owed(pre + UpToLast(e, m, block, b)) == Owed(pre) + m
  {
    hide UpToLast;
    UpToLastRun(d, RefRun(d, RefInit(d), pre), e, m, block, b);
    RefRunAppend(d, RefInit(d), pre, UpToLast(e, m, block, b));
    OwedAppend(pre, UpToLast(e, m, block, b));
  }

  lemma InitTodo(c: Config)
    ensures Init(c).reader.todo == c.program
  {
  }

  lemma Regroup4(a: seq<Op>, b: seq<Op>, x: seq<Op>, y: seq<Op>, z: seq<Op>)
    ensures a + ((b + (x + y)) + z) == (a + b) + (x + (y + z))
  {
  }

  lemma BlockOwed(data: seq<byte>, m: nat, b: Buffer, rest: seq<Op>)
    requires m < |data|
    ensures Owed(BlockOps(PLAIN, data, m, |data| - m, b) + rest) == |data| - m + Owed(rest)
  {
    BlockParts(PLAIN, data, m, |data| - m, b);
    var front, publish := BlockFront(PLAIN, data, m, |data| - m, b), [Publish(b, |data| - m)];
    hide BlockFront, BlockOps;
    NoneOwed(front);
    assert Owed(publish) == |data| - m by { assert publish[1..] == []; }
    hide Owed;
    OwedAppend(front, publish);
    OwedAppend(front + publish, rest);
  }

  /** The last block of an entry into the empty slot. */
  lemma HandsLastOver(
    c: Config, d: Config, s: State, g: Ref, data: seq<byte>, m: nat, last: Buffer, rest: seq<Op>)
    returns (t: State, h: Ref)
    requires m < |data| && Reachable(c, s) && Calm(s) && Tracks(c, d, s, g)
    requires s.reader.todo == BlockOps(PLAIN, data, m, |data| - m, last) + rest
    ensures Reachable(c, t) && Steady(t) && Tracks(c, d, t, h) && t.reader.todo == rest && t.shared.dataSize > 0
    ensures t.output == s.output && t.output.file.Some? && t.writer == s.writer && t.writer.written < c.total
  {
    assert s.writer.written < c.total by { OwesMore(c, d, s, g, data, m, last, rest); }
    hide SafeFrom, StopsSafe, BlockOps, BlockFront, Slot, WorkStep, Tracks, Owed, Reachable, RefStep, RefRun;
    t, h := FillsBlock(c, d, s, g, PLAIN, data, m, |data| - m, last, rest);
    assert [Publish(last, |data| - m)] + rest == t.reader.todo && t.reader.todo[1..] == rest;
    t := HandsBlockOver(c, d, t, h);
    h := RefStep(d, h, Publish(last, |data| - m));
  }

  lemma OwesMore(c: Config, d: Config, s: State, g: Ref, data: seq<byte>, m: nat, last: Buffer, rest: seq<Op>)
    requires m < |data| && Tracks(c, d, s, g) && s.reader.todo == BlockOps(PLAIN, data, m, |data| - m, last) + rest
    ensures s.writer.written < c.total
  {
    BlockOwed(data, m, last, rest);
  }

  /** The entry's last block waits in the slot, with a wake for the block before it, if there is one, still to come. */
  lemma PendsBehind(c: Config, d: Config, pre: seq<Op>, e: Entry, block: nat, b: Buffer, post: seq<Op>)
    returns (t: State, h: Ref, m: nat)
    requires Twin(c, d) && At(c, pre, e, block, b, post)
    ensures Reachable(c, t) && Steady(t) && Tracks(c, d, t, h) && t.reader.todo == [Check] + post
    ensures t.shared.dataSize > 0 && m < |e.data|
    ensures t.output.file == Some(e.path) && e.path in t.output.disk && t.output.disk[e.path] == e.data[..m]
    ensures !c.wake.Fused? && NotFirst(pre, e, block) ==> t.writer.at.WWaking?
  {
    hide BlockOps, Tracks, Reachable, EntryOps, Twin, At, NotFirst;
    var last;
    t, h, m, last := ReachesLastBlock(c, d, pre, e, block, b, post);
    t, h := HandsLastOver(c, d, t, h, e.data, m, last, [Check] + post);
  }

  /** It stays there while the reader goes on to open the next file, and is written to that. */
  lemma Misfiles(
    c: Config, d: Config, pre: seq<Op>, e: Entry, block: nat, b: Buffer, mid: seq<Op>, path: Path, post: seq<Op>)
    returns (t: State)
    requires Twin(c, d) && At(c, pre, e, block, b, mid + (SwitchOps(false, path) + post)) && path != e.path
    requires Between(mid) && (c.wake.Spurious? || (c.wake.Late? && WaitsIn(mid) == 0 && NotFirst(pre, e, block)))
    requires NeverOpens(e.path, mid) && NeverOpens(e.path, post) && NeverOpens(e.path, c.epilogue)
    ensures Reachable(c, t) && t.supervisor == Ended(true) && e.path in t.output.disk && t.output.disk[e.path] != e.data
  {
    hide SafeFrom, StopsSafe, Tracks, Reachable, EntryOps, Twin, At, NotFirst, Slot, WorkStep, RefRun;
    var h, m;
    t, h, m := PendsBehind(c, d, pre, e, block, b, mid + (SwitchOps(false, path) + post));
    var ops := [Check] + (mid + SwitchOps(false, path));
    assert [Check] + (mid + (SwitchOps(false, path) + post)) == ops + post;
    SwitchPasses(mid, path, e.path, t.output);
    t := RunsPast(c, d, t, h, ops, post);
    t := WritesBlock(c, d, t, RefRun(d, h, ops));
    t := Finishes(c, d, t, RefRun(d, h, ops), e.path, e.data[..m]);
  }

  /** One more wait, another file, and the old one is left alone. */
  lemma SwitchPasses(mid: seq<Op>, path: Path, was: Path, o: Output)
    requires Between(mid) && NeverOpens(was, mid) && path != was && was in o.disk
    ensures var ops := [Check] + (mid + SwitchOps(false, path));
      Between(ops) && WaitsIn(ops) == WaitsIn(mid) + 1 && OutputRun(o, ops).file == Some(path) &&
      was in OutputRun(o, ops).disk && OutputRun(o, ops).disk[was] == o.disk[was]
  {
    var switch := SwitchOps(false, path);
    assert [Check][1..] == [];
    WaitsInAppend([Check], mid + switch);
    WaitsInAppend(mid, switch);
    SwitchWaits(path);
    OutputRunAppend(o, [Check], mid + switch);
    OutputRunAppend(o, mid, switch);
    SwitchOutput(OutputRun(o, mid), path);
    OutputRunKeeps(o, [Check] + (mid + switch), was);
  }

  lemma SwitchWaits(path: Path)
    ensures WaitsIn(SwitchOps(false, path)) == 1 && Between(SwitchOps(false, path))
  {
    WaitsInAppend([Poll, Drain], [Close, Lookup, Open(path)]);
    assert [Poll, Drain] + [Close, Lookup, Open(path)] == SwitchOps(false, path);
    NeverWaits([Close, Lookup, Open(path)]);
    assert [Poll, Drain][1..] == [Drain] && [Drain][1..] == [];
  }

  lemma {:induction false} NeverWaits(ops: seq<Op>)
    requires forall i :: 0 <= i < |ops| ==> !Waits(ops[i])
    ensures WaitsIn(ops) == 0
  {
    if ops != [] {
      NeverWaits(ops[1..]);
    }
  }

  lemma SwitchOutput(o: Output, path: Path)
    ensures OutputRun(o, SwitchOps(false, path)) == Output(Some(path), o.disk[path := []])
  {
    assert SwitchOps(false, path) == [Poll, Drain, Close] + [Lookup, Open(path)];
    OutputRunAppend(o, [Poll, Drain, Close], [Lookup, Open(path)]);
    assert [Poll, Drain, Close][1..] == [Drain, Close] && [Drain, Close][1..] == [Close] && [Close][1..] == [];
    assert [Lookup, Open(path)][1..] == [Open(path)] && [Open(path)][1..] == [];
    assert OutputRun(o, [Drain, Close]) == OutputRun(o, [Close]) == o.(file := None);
    assert OutputRun(o.(file := None), [Open(path)]) == Output(Some(path), o.disk[path := []]);
  }

  // --------------------------------------------------- the loop over entries

  /** The loop cut in front of an entry. */
  lemma {:induction false} EntriesSplit(stops: bool, entries: seq<Entry>, i: nat, block: nat, b: Buffer)
    returns (here: Buffer, next: Buffer)
    requires 0 < block && i < |entries|
    ensures EntriesOps(false, stops, entries, block, b) ==
      (EntriesOps(false, stops, entries[..i], block, b) + StopOps(stops)) +
      (EntryOps(false, entries[i], block, here) + EntriesOps(false, stops, entries[i + 1..], block, next))
    decreases i
  {
    hide EntryOps, NextBuffer, StopOps;
    if i == 0 {
      here, next := b, NextBuffer(|entries[0].data|, block, b);
      assert entries[..0] == [];
    } else {
      var behind := NextBuffer(|entries[0].data|, block, b);
      here, next := EntriesSplit(stops, entries[1..], i - 1, block, behind);
      assert entries[..i][0] == entries[0] && entries[..i][1..] == entries[1..][..i - 1];
      assert entries[1..][i - 1] == entries[i] && entries[1..][i..] == entries[i + 1..];
      hide EntriesOps;
      Regroup5(StopOps(stops), EntryOps(false, entries[0], block, b),
        EntriesOps(false, stops, entries[1..][..i - 1], block, behind),
        EntryOps(false, entries[i], block, here) + EntriesOps(false, stops, entries[i + 1..], block, next));
      FirstEntry(stops, entries[..i], block, b);
      FirstEntry(stops, entries, block, b);
    }
  }

  lemma Regroup5(a: seq<Op>, b: seq<Op>, x: seq<Op>, y: seq<Op>)
    ensures a + (b + ((x + a) + y)) == (a + (b + x)) + a + y
  {
  }

  lemma FirstEntry(stops: bool, entries: seq<Entry>, block: nat, b: Buffer)
    requires 0 < block && entries != []
    ensures EntriesOps(false, stops, entries, block, b) ==
      StopOps(stops) + (EntryOps(false, entries[0], block, b) +
        EntriesOps(false, stops, entries[1..], block, NextBuffer(|entries[0].data|, block, b)))
  {
  }

  /** The reader's program from entry `i` on. */
  function Before(job: Job, i: nat): seq<Op>
    requires 0 < job.block && i < |job.entries|
  {
    EntriesOps(false, job.stops, job.entries[..i], job.block, First) + StopOps(job.stops)
  }

  function Behind(job: Job, i: nat, next: Buffer): seq<Op>
    requires 0 < job.block && i < |job.entries|
  {
    EntriesOps(false, job.stops, job.entries[i + 1..], job.block, next) + EndOps(false)
  }

  lemma ProgramAt(job: Job, wake: Wake, i: nat) returns (here: Buffer, next: Buffer)
    requires 0 < job.block && !job.usb && i < |job.entries| && job.entries[i].data != []
    ensures At(ExtractedConfig(job, wake), Before(job, i), job.entries[i], job.block, here, Behind(job, i, next))
    ensures Owed(Before(job, i)) == |AllData(job.entries[..i])|
  {
    here, next := EntriesSplit(job.stops, job.entries, i, job.block, First);
    BeforeOwes(job, i);
    hide EntryOps, EntriesOps, StopOps, EndOps, Owed, AllData;
    Regroup8(Before(job, i), EntryOps(false, job.entries[i], job.block, here),
      EntriesOps(false, job.stops, job.entries[i + 1..], job.block, next), EndOps(false));
  }

  lemma Regroup8(a: seq<Op>, b: seq<Op>, x: seq<Op>, y: seq<Op>)
    ensures (a + (b + x)) + y == a + (b + (x + y))
  {
  }

  lemma BeforeOwes(job: Job, i: nat)
    requires 0 < job.block && i < |job.entries|
    ensures Owed(Before(job, i)) == |AllData(job.entries[..i])|
  {
    var loop := EntriesOps(false, job.stops, job.entries[..i], job.block, First);
    EntriesOwed(job.stops, job.entries[..i], job.block, First);
    OwedAppend(loop, StopOps(job.stops));
    NoneOwed(StopOps(job.stops));
  }

  /** What the loop owes is the entries' data. */
  lemma EntriesOwed(stops: bool, entries: seq<Entry>, block: nat, b: Buffer)
    requires 0 < block
    ensures Owed(EntriesOps(false, stops, entries, block, b)) == |AllData(entries)|
  {
    var d := Config([], [], 0, false, Fused, None, map[], 0);
    EntriesRun(d, RefInit(d), false, stops, entries, block, b);
  }

  lemma ExtractedTwin(job: Job, wake: Wake)
    requires 0 < job.block && !job.usb
    ensures Twin(ExtractedConfig(job, wake), ExtractedConfig(job, Fused))
  {
    ExtractedRuns(job, Fused);
  }

  /** The last entry that holds any data. */
  lemma {:induction false} LastFilled(entries: seq<Entry>, block: nat) returns (i: nat)
    requires 0 < block && BlocksIn(entries, block) > 0
    ensures i < |entries| && entries[i].data != [] && forall j :: i < j < |entries| ==> entries[j].data == []
    ensures BlocksIn(entries, block) == BlocksIn(entries[..i], block) + BlockCount(|entries[i].data|, block)
    decreases |entries|
  {
    var rest := entries[1..];
    if BlocksIn(rest, block) > 0 {
      var k := LastFilled(rest, block);
      i := k + 1;
      assert entries[..i][0] == entries[0] && entries[..i][1..] == rest[..k];
      assert forall j :: i < j < |entries| ==> entries[j] == rest[j - 1];
    } else {
      i := 0;
      AtMostOneBlock(rest, block);
      assert entries[..0] == [] && forall j :: 0 < j < |entries| ==> entries[j] == rest[j - 1];
    }
  }

  /** More than one block up to the end of an entry: something is written before its last one. */
  lemma NotTheFirst(job: Job, i: nat)
    requires 0 < job.block && i < |job.entries|
    requires BlocksIn(job.entries[..i], job.block) + BlockCount(|job.entries[i].data|, job.block) > 1
    requires Owed(Before(job, i)) == |AllData(job.entries[..i])|
    ensures NotFirst(Before(job, i), job.entries[i], job.block)
  {
    if BlocksIn(job.entries[..i], job.block) > 0 {
      SomeData(job.entries[..i], job.block);
    } else {
      BlockCountBounds(|job.entries[i].data|, job.block, 1);
    }
  }

  lemma {:induction false} SomeData(entries: seq<Entry>, block: nat)
    requires 0 < block && BlocksIn(entries, block) > 0
    ensures AllData(entries) != []
  {
    if entries[0].data == [] {
      SomeData(entries[1..], block);
    }
  }

  /**
   * What is promised of an extracted dump: every entry is in its own file with its
   * own data, and nothing else has changed.  The RomFS dump, which stops as soon as
   * everything is written, may leave out empty entries at the end.
   */
  ghost predicate SavesAll(job: Job, disk: map<Path, seq<byte>>)
  {
    exists k :: SavesUpTo(job, disk, k)
  }

  predicate SavesUpTo(job: Job, disk: map<Path, seq<byte>>, k: int)
  {
    0 <= k <= |job.entries| && (job.stops || k == |job.entries|) && disk == Saved(job.before, job.entries[..k]) &&
    forall i :: k <= i < |job.entries| ==> job.entries[i].data == []
  }

  lemma SuccessSavesAll(job: Job, wake: Wake, run: seq<Event>)
    requires 0 < job.block && Fits(wake, 0, job.entries, job.block) && Exec(ExtractedConfig(job, wake), run).Some?
    requires Exec(ExtractedConfig(job, wake), run).value.supervisor == Ended(true)
    ensures SavesAll(job, Exec(ExtractedConfig(job, wake), run).value.output.disk)
  {
    var disk := Exec(ExtractedConfig(job, wake), run).value.output.disk;
    if job.stops {
      var k := NonEmptyEntriesSaved(job, wake, run);
      assert SavesUpTo(job, disk, k);
    } else {
      EveryEntrySaved(job, wake, run);
      assert job.entries[..|job.entries|] == job.entries;
      assert SavesUpTo(job, disk, |job.entries|);
    }
  }

  lemma WrongDataIsWrong(job: Job, disk: map<Path, seq<byte>>, e: Entry)
    requires DistinctPaths(job.entries) && e in job.entries && e.data != [] && e.path in disk && disk[e.path] != e.data
    ensures !SavesAll(job, disk)
  {
    if k :| SavesUpTo(job, disk, k) {
      var i :| 0 <= i < |job.entries| && job.entries[i] == e;
      SavedIsEach(job.before, job.entries[..k]);
      assert job.entries[..k][i] == e;
    }
  }

  /** A run that the supervisor reports as successful. */
  predicate Succeeds(c: Config, run: seq<Event>)
  {
    Exec(c, run).Some? && Exec(c, run).value.supervisor == Ended(true)
  }

  /** Enough blocks before the last entry, and a dump is reported as successful with one of them in the wrong file. */
  lemma ExtractedMisfiles(job: Job, wake: Wake) returns (run: seq<Event>)
    requires 0 < job.block && !job.usb && DistinctPaths(job.entries) && !wake.Fused?
    requires BlocksIn(ButLast(job.entries), job.block) > if wake.Late? then 1 else 0
    ensures Succeeds(ExtractedConfig(job, wake), run)
    ensures !SavesAll(job, Exec(ExtractedConfig(job, wake), run).value.output.disk)
  {
    var c, d := ExtractedConfig(job, wake), ExtractedConfig(job, Fused);
    var i := LastFilled(ButLast(job.entries), job.block);
    var e, f := job.entries[i], job.entries[i + 1];
    assert ButLast(job.entries)[..i] == job.entries[..i];
    ExtractedTwin(job, wake);
    var here, next := ProgramAt(job, wake, i);
    if wake.Late? {
      NotTheFirst(job, i);
    }
    NextOpens(job, i, next);
    NeverOpenedAgain(job, i, next);
    var post := (Blocks(PLAIN, f.data, 0, job.block, next) + [Check]) + Rest(job, i, next);
    NothingWaits(job.stops);
    var t := Misfiles(c, d, Before(job, i), e, job.block, here, StopOps(job.stops), f.path, post);
    WrongDataIsWrong(job, t.output.disk, e);
    run :| Exec(c, run) == Some(t);
  }

  function Rest(job: Job, i: nat, next: Buffer): seq<Op>
    requires 0 < job.block && i + 1 < |job.entries|
  {
    EntriesOps(false, job.stops, job.entries[i + 2..], job.block, NextBuffer(|job.entries[i + 1].data|, job.block, next)) +
    EndOps(false)
  }

  lemma NothingWaits(stops: bool)
    ensures Between(StopOps(stops)) && WaitsIn(StopOps(stops)) == 0 && KeepsFile(StopOps(stops))
    ensures forall path :: NeverOpens(path, StopOps(stops))
  {
    NeverWaits(StopOps(stops));
  }

  /** What follows an entry is the switch to the next one. */
  lemma NextOpens(job: Job, i: nat, next: Buffer)
    requires 0 < job.block && i + 1 < |job.entries|
    ensures var f := job.entries[i + 1];
      Behind(job, i, next) ==
        StopOps(job.stops) +
        (SwitchOps(false, f.path) + ((Blocks(PLAIN, f.data, 0, job.block, next) + [Check]) + Rest(job, i, next)))
  {
    hide Blocks, NextBuffer, SwitchOps, StopOps, EndOps;
    var rest := job.entries[i + 1..];
    assert rest[0] == job.entries[i + 1] && rest[1..] == job.entries[i + 2..];
    FirstEntry(job.stops, rest, job.block, next);
  }

  lemma NeverOpenedAgain(job: Job, i: nat, next: Buffer)
    requires 0 < job.block && i + 1 < |job.entries| && DistinctPaths(job.entries)
    ensures var path, f := job.entries[i].path, job.entries[i + 1];
      NeverOpens(path, (Blocks(PLAIN, f.data, 0, job.block, next) + [Check]) + Rest(job, i, next)) &&
      NeverOpens(path, EndOps(false)) && f.path != path
  {
    var path, f := job.entries[i].path, job.entries[i + 1];
    var after := NextBuffer(|f.data|, job.block, next);
    EntriesNeverOpen(path, job.stops, job.entries[i + 2..], job.block, after);
    EndNeverOpens(path);
    NeverOpensAppend(path, EntriesOps(false, job.stops, job.entries[i + 2..], job.block, after), EndOps(false));
    BlocksNeverOpen(path, f.data, job.block, next);
    NeverOpensAppend(path, Blocks(PLAIN, f.data, 0, job.block, next) + [Check], Rest(job, i, next));
  }

  /**
   * Success of an extracted dump to a file system means that every entry is saved,
   * whatever the schedule, exactly if wakes are fused, or late and all entries but
   * the last take at most one block together, or spurious and they take none.
   */
  lemma SuccessMeansSaved(job: Job, wake: Wake)
    requires 0 < job.block && !job.usb && DistinctPaths(job.entries)
    ensures (forall run :: Succeeds(ExtractedConfig(job, wake), run) ==>
               SavesAll(job, Exec(ExtractedConfig(job, wake), run).value.output.disk)) <==>
      wake.Fused? || BlocksIn(ButLast(job.entries), job.block) <= if wake.Late? then 1 else 0
  {
    if wake.Fused? || BlocksIn(ButLast(job.entries), job.block) <= (if wake.Late? then 1 else 0) {
      forall run | Succeeds(ExtractedConfig(job, wake), run)
        ensures SavesAll(job, Exec(ExtractedConfig(job, wake), run).value.output.disk)
      {
        SuccessSavesAll(job, wake, run);
      }
    } else {
      var run := ExtractedMisfiles(job, wake);
    }
  }
}
