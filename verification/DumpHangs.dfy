// How the dump threads can hang, and for exactly which dumps.
module DumpHangs {
  import opened Options
  import opened DumpMachine
  import opened DumpOrder
  import opened DumpTheorems
  import opened DumpLiveness
  import opened AnyReader
  import opened DumpPrograms
  import opened DumpSchedules
  import opened ExtractedDump
  import opened LateWakes

  /**
   * The writer does not look at the cancellation before it waits: one that makes
   * the reader leave before the writer takes the mutex is never noticed.
   */
  lemma CancelStrandsWriter(c: Config, s: State) returns (t: State)
    requires Reachable(c, s) && Calm(s) && s.writer.at.Top? && s.writer.written < c.total
    requires s.reader.todo != [] && s.reader.todo[0].Poll?
    ensures Reachable(c, t) && WriterStranded(t, 0) && t.shared == s.shared.(cancelled := true, writerWoken := false)
  {
    t := Go(c, s, Cancel);
    t := Go(c, t, ReaderStep);
    t := Go(c, t, ReaderStep);
    t := Go(c, t, WriterStep);
    t := Go(c, t, WriterStep);
    t := Go(c, t, WriterStep);
  }

  /** A read error raised between the writer's test and its wait is never noticed. */
  lemma ReadErrorStrandsWriter(c: Config, s: State) returns (t: State)
    requires Reachable(c, s) && Calm(s) && s.writer.at.Top? && s.writer.written < c.total
    requires s.reader.todo != [] && (s.reader.todo[0].Load? || s.reader.todo[0].Lookup? || s.reader.todo[0].Open?)
    ensures Reachable(c, t) && WriterStranded(t, 0) && t.shared == s.shared.(readError := true, writerWoken := false)
  {
    t := Go(c, s, WriterStep);
    t := Go(c, t, WriterStep);
    if s.reader.todo[0].Load? {
      t := Go(c, t, ReaderFill([]));
    }
    t := Go(c, t, ReaderFail);
    t := Go(c, t, ReaderStep);
    t := Go(c, t, WriterStep);
  }

  /** The writer leaves on a cancellation and wakes nobody: a reader that waits for it sleeps on. */
  lemma CancelStrandsReader(c: Config, s: State) returns (t: State)
    requires Reachable(c, s) && Steady(s) && s.writer.at.Top? && s.shared.dataSize > 0 && s.writer.written < c.total
    requires s.reader.todo != [] && s.reader.todo[0].Publish?
    ensures Reachable(c, t) && ReaderStranded(t) && t.shared.cancelled
  {
    t := Go(c, s, ReaderStep);
    t := Go(c, t, ReaderStep);
    t := Go(c, t, Cancel);
    t := Go(c, t, WriterStep);
    t := Go(c, t, WriterStep);
    t := Go(c, t, WriterStep);
  }

  // ------------------------------------------------------------- raw dumps

  /**
   * Some schedule leaves the reader asleep, unwoken, behind a writer that has ended: for
   * good, unless waits return unasked.  `cancelled` tells whether the user cancelled in it.
   */
  ghost predicate CanStrandReader(c: Config, cancelled: bool)
  {
    exists run :: Exec(c, run).Some? && ReaderStranded(Exec(c, run).value) &&
      Exec(c, run).value.shared.cancelled == cancelled
  }

  ghost predicate CanStrandWriter(c: Config, cancelled: bool, readError: bool)
  {
    exists run :: Exec(c, run).Some? && WriterStranded(Exec(c, run).value, 0) &&
      Exec(c, run).value.shared.cancelled == cancelled && Exec(c, run).value.shared.readError == readError
  }

  lemma ReachesStrandedWriter(c: Config, s: State)
    requires Reachable(c, s) && WriterStranded(s, 0)
    ensures CanStrandWriter(c, s.shared.cancelled, s.shared.readError)
  {
    var run :| Exec(c, run) == Some(s);
  }

  lemma RawStarts(job: RawDump.Job, wake: Wake)
    requires job.Valid()
    ensures var c := RawDump.RawConfig(job, wake);
      WellFormed(c) && Reachable(c, Init(c)) && Calm(Init(c)) && Tracks(c, c, Init(c), RefInit(c)) && c.wake == wake &&
      0 < c.total == |job.image| && c.program != [] && c.program[0].Poll? && |c.program| > 1 && c.program[1].Load?
    ensures var size := BlockSize(|job.image|, job.block);
      RawDump.RawConfig(job, wake).program ==
        BlockOps(job.Options(), job.image, 0, size, First) + Blocks(job.Options(), job.image, size, job.block, Second)
  {
    RawDump.RawRuns(job, wake);
    StartsCalm(RawDump.RawConfig(job, wake), RawDump.RawConfig(job, wake));
    BlocksUnroll(job.Options(), job.image, 0, job.block, First, BlockSize(|job.image|, job.block));
  }

  /** Any raw dump can leave the writer asleep, by a cancellation alone and by a failed read alone. */
  lemma RawStrandsWriter(job: RawDump.Job, wake: Wake)
    requires job.Valid()
    ensures CanStrandWriter(RawDump.RawConfig(job, wake), true, false)
    ensures CanStrandWriter(RawDump.RawConfig(job, wake), false, true)
  {
    hide RawDump.RawConfig, SafeFrom, StopsSafe, Blocks, BlockOps, CanStrandWriter;
    var c := RawDump.RawConfig(job, wake);
    RawStarts(job, wake);
    var s := CancelStrandsWriter(c, Init(c));
    ReachesStrandedWriter(c, s);
    s := RunsPrivate(c, c, Init(c), RefInit(c));
    s := ReadErrorStrandsWriter(c, s);
    ReachesStrandedWriter(c, s);
  }

  /** A cancellation can leave the reader of a raw dump asleep exactly if there is more than one block. */
  lemma RawStrandsReader(job: RawDump.Job, wake: Wake)
    requires job.Valid()
    ensures CanStrandReader(RawDump.RawConfig(job, wake), true) <==> |job.image| > job.block
    ensures !CanStrandReader(RawDump.RawConfig(job, wake), false)
  {
    var c := RawDump.RawConfig(job, wake);
    forall run | Exec(c, run).Some? && ReaderStranded(Exec(c, run).value)
      ensures Exec(c, run).value.shared.cancelled && |job.image| > job.block
    {
      StrandedHasTwo(job, wake, run);
    }
    if |job.image| > job.block {
      TwoStrand(job, wake);
    }
  }

  lemma StrandedHasTwo(job: RawDump.Job, wake: Wake, run: seq<Event>)
    requires job.Valid() && Exec(RawDump.RawConfig(job, wake), run).Some?
    requires ReaderStranded(Exec(RawDump.RawConfig(job, wake), run).value)
    ensures Exec(RawDump.RawConfig(job, wake), run).value.shared.cancelled && |job.image| > job.block
  {
    hide RawDump.RawConfig, SafeFrom, StopsSafe, Blocks;
    var c := RawDump.RawConfig(job, wake);
    RawStarts(job, wake);
    RawDump.NoDrains(job, wake, run);
    RunSound(c, run);
    RunAwake(c, run);
    PublishesAll(job, wake, run);
    BlockCountBounds(|job.image|, job.block, 1);
  }

  /** A raw reader at the mailbox waits there with a block of its own, behind the one in the slot. */
  lemma PublishesAll(job: RawDump.Job, wake: Wake, run: seq<Event>)
    requires job.Valid() && Exec(RawDump.RawConfig(job, wake), run).Some?
    requires Exec(RawDump.RawConfig(job, wake), run).value.reader.at.Waiting?
    requires Exec(RawDump.RawConfig(job, wake), run).value.shared.dataSize > 0
    ensures BlockCount(|job.image|, job.block) > 1
  {
    var c := RawDump.RawConfig(job, wake);
    RawDump.RawRuns(job, wake);
    RunSound(c, run);
    BlocksAreLocal(job.Options(), job.image, 0, job.block, First);
    OnProgram(c, run);
    var r := Exec(c, run).value.reader;
    RawDump.NoDrains(job, wake, run);
    PublishedCount(c, RefInit(c), r.done);
    PublishesAppend(r.done, r.todo);
    BlocksPublish(job.Options(), job.image, 0, job.block, First);
  }

  lemma TwoStrand(job: RawDump.Job, wake: Wake)
    requires job.Valid() && |job.image| > job.block
    ensures CanStrandReader(RawDump.RawConfig(job, wake), true)
  {
    var c, t, block := RawDump.RawConfig(job, wake), job.Options(), job.block;
    RawStarts(job, wake);
    var s, h := FillsBlock(c, c, Init(c), RefInit(c), t, job.image, 0, block, First,
      Blocks(t, job.image, block, block, Second));
    s := HandsBlockOver(c, c, s, h);
    var size := BlockSize(|job.image| - block, block);
    BlocksUnroll(t, job.image, block, block, Second, size);
    s, h := FillsBlock(c, c, s, RefStep(c, h, Publish(First, block)), t, job.image, block, size, Second,
      Blocks(t, job.image, block + size, block, First));
    s := CancelStrandsReader(c, s);
    var run :| Exec(c, run) == Some(s);
  }

  // --------------------------------------------------------- endless runs

  /** The writer goes round once with nothing to write. */
  function IdleTurn(): seq<Event>
  {
    [WriterStep, WriterStep, WriterStep, WriterResume, WriterStep, WriterStep, WriterStep]
  }

  function IdleTurns(n: nat): seq<Event> { if n == 0 then [] else IdleTurns(n - 1) + IdleTurn() }

  lemma ExecNext(c: Config, run: seq<Event>, e: Event)
    requires Exec(c, run).Some? && Enabled(c, Exec(c, run).value, e)
    ensures Exec(c, run + [e]) == Some(Next(c, Exec(c, run).value, e))
    ensures WorkerEvent(e) ==> WorkerSteps(run + [e]) == WorkerSteps(run) + 1
  {
    assert (run + [e])[..|run|] == run;
  }

  lemma FallsAsleep(c: Config, run: seq<Event>)
    requires Exec(c, run) == Some(Init(c)) && 0 < c.total
    ensures Exec(c, run + [WriterStep, WriterStep, WriterStep]) == Some(Init(c).(writer := WriterState(WWaiting, 0, [])))
    ensures WorkerSteps(run + [WriterStep, WriterStep, WriterStep]) == WorkerSteps(run) + 3
  {
    hide Exec, WorkerSteps;
    ExecNext(c, run, WriterStep);
    ExecNext(c, run + [WriterStep], WriterStep);
    ExecNext(c, run + [WriterStep] + [WriterStep], WriterStep);
    assert run + [WriterStep] + [WriterStep] + [WriterStep] == run + [WriterStep, WriterStep, WriterStep];
  }

  lemma WritesNothing(c: Config, run: seq<Event>)
    requires c.wake.Spurious? && Exec(c, run) == Some(Init(c).(writer := WriterState(WWaiting, 0, []))) && !c.usb
    requires c.file.Some? && c.file.value in c.disk
    ensures Exec(c, run + [WriterResume, WriterStep, WriterStep, WriterStep]) == Some(Init(c))
    ensures WorkerSteps(run + [WriterResume, WriterStep, WriterStep, WriterStep]) == WorkerSteps(run) + 4
  {
    hide Exec, WorkerSteps, Append, Slot;
    ExecNext(c, run, WriterResume);
    NothingWritten(c, Exec(c, run + [WriterResume]).value);
    ExecNext(c, run + [WriterResume], WriterStep);
    ExecNext(c, run + [WriterResume] + [WriterStep], WriterStep);
    ExecNext(c, run + [WriterResume] + [WriterStep] + [WriterStep], WriterStep);
    assert run + [WriterResume] + [WriterStep] + [WriterStep] + [WriterStep] ==
      run + [WriterResume, WriterStep, WriterStep, WriterStep];
  }

  /** A writer asleep on an empty slot wakes up for no reason, writes nothing and is asleep again. */
  lemma TurnsIdly(c: Config, run: seq<Event>)
    requires c.wake.Spurious? && Exec(c, run) == Some(Init(c)) && 0 < c.total && !c.usb
    requires c.file.Some? && c.file.value in c.disk
    ensures Exec(c, run + IdleTurn()) == Some(Init(c)) && WorkerSteps(run + IdleTurn()) == WorkerSteps(run) + 7
  {
    hide Exec, WorkerSteps;
    FallsAsleep(c, run);
    WritesNothing(c, run + [WriterStep, WriterStep, WriterStep]);
    assert run + IdleTurn() ==
      run + [WriterStep, WriterStep, WriterStep] + [WriterResume, WriterStep, WriterStep, WriterStep];
  }

  lemma NothingWritten(c: Config, s: State)
    requires s.shared.dataSize == 0 && s.output.file.Some? && s.output.file.value in s.output.disk
    ensures Append(s.output, Slot(s)) == s.output
  {
    assert Slot(s) == [];
    AppendNothing(s.output);
  }

  lemma {:induction false} ManyTurns(c: Config, n: nat)
    requires c.wake.Spurious? && 0 < c.total && !c.usb && c.file.Some? && c.file.value in c.disk
    ensures Exec(c, IdleTurns(n)) == Some(Init(c)) && WorkerSteps(IdleTurns(n)) == 7 * n
  {
    if n > 0 {
      ManyTurns(c, n - 1);
      TurnsIdly(c, IdleTurns(n - 1));
    }
  }

  predicate TakesAtMost(c: Config, run: seq<Event>, n: nat) { Exec(c, run).Some? ==> WorkerSteps(run) <= n }

  ghost predicate Bounded(c: Config, n: nat) { forall run :: TakesAtMost(c, run, n) }

  /** The runs of a raw dump have a bound exactly if no wait returns unasked, or the output goes over USB. */
  lemma RawIsBounded(job: RawDump.Job, wake: Wake)
    requires job.Valid()
    ensures (exists n: nat :: Bounded(RawDump.RawConfig(job, wake), n)) <==> (wake.Spurious? ==> job.usb)
  {
    var c := RawDump.RawConfig(job, wake);
    RawDump.RawRuns(job, wake);
    if wake.Spurious? && !job.usb {
      forall n: nat ensures !Bounded(c, n) {
        ManyTurns(c, n + 1);
        assert !TakesAtMost(c, IdleTurns(n + 1), n);
      }
    } else {
      var n := 20 * |c.program| + 10 * c.total + 23;
      forall run ensures TakesAtMost(c, run, n) {
        if Exec(c, run).Some? {
          StepsBounded(c, run);
        }
      }
      assert Bounded(c, n);
    }
  }

  // ------------------------------------------------------- extracted dumps

  /** The last drain does not look at write_error: a write that fails just before it is waited for. */
  lemma FailsAtLastDrain(c: Config, s: State) returns (t: State)
    requires Reachable(c, s) && Steady(s) && s.shared.dataSize > 0 && s.output.file.Some? && s.writer.written < c.total
    requires s.reader.todo != [] && s.reader.todo[0].FinalDrain?
    ensures Reachable(c, t) && ReaderStranded(t) && !t.shared.cancelled
  {
    t := s;
    if t.writer.at.WWaking? {
      t := Go(c, t, WriterStep);
    }
    t := Go(c, t, ReaderStep);
    t := Go(c, t, WriterStep);
    t := Go(c, t, WriterStep);
    t := Go(c, t, WriterFail);
    t := Go(c, t, WriterStep);
    if !c.wake.Fused? {
      t := Go(c, t, WriterStep);
    }
    t := Go(c, t, ReaderStep);
    t := Go(c, t, ReaderStep);
  }

  /** A failing write of an entry's last block does it, if the reader gets from there to the last drain. */
  lemma FailsBehind(c: Config, d: Config, pre: seq<Op>, e: Entry, block: nat, b: Buffer, mid: seq<Op>)
    returns (t: State)
    requires Twin(c, d) && At(c, pre, e, block, b, mid + EndOps(false)) && Between(mid)
    requires WaitsIn(mid) == 0 || c.wake.Spurious? || (WaitsIn(mid) == 1 && c.wake.Late? && NotFirst(pre, e, block))
    requires forall o: Output :: o.file.Some? ==> OutputRun(o, mid).file.Some?
    ensures Reachable(c, t) && ReaderStranded(t) && !t.shared.cancelled
  {
    hide SafeFrom, StopsSafe, Tracks, Reachable, EntryOps, Twin, At, NotFirst, Slot, WorkStep, RefRun;
    var h, m;
    t, h, m := PendsBehind(c, d, pre, e, block, b, mid + EndOps(false));
    assert [Check] + (mid + EndOps(false)) == ([Check] + mid) + EndOps(false) && [Check][1..] == [];
    WaitsInAppend([Check], mid);
    OutputRunAppend(t.output, [Check], mid);
    t := RunsPast(c, d, t, h, [Check] + mid, EndOps(false));
    PendingLeft(c, d, t, RefRun(d, h, [Check] + mid));
    t := FailsAtLastDrain(c, t);
  }

  /** Entries without data: one wait each, and another file. */
  lemma {:induction false} EmptyEntries(stops: bool, entries: seq<Entry>, block: nat, b: Buffer)
    requires 0 < block && forall i :: 0 <= i < |entries| ==> entries[i].data == []
    ensures var ops := EntriesOps(false, stops, entries, block, b);
      Between(ops) && WaitsIn(ops) == |entries| &&
      forall o: Output :: o.file.Some? ==> OutputRun(o, ops).file.Some?
    decreases |entries|
  {
    if entries != [] {
      var e, rest := entries[0], EntriesOps(false, stops, entries[1..], block, NextBuffer(|entries[0].data|, block, b));
      EmptyEntries(stops, entries[1..], block, NextBuffer(|entries[0].data|, block, b));
      FirstEntry(stops, entries, block, b);
      EmptyEntryOps(e, block, b);
      var front := StopOps(stops) + (SwitchOps(false, e.path) + [Check]);
      assert EntriesOps(false, stops, entries, block, b) == front + rest;
      EmptyEntryWaits(stops, e.path);
      WaitsInAppend(front, rest);
      forall o: Output | o.file.Some? ensures OutputRun(o, front + rest).file.Some? {
        EmptyEntryOpens(o, stops, e.path);
        OutputRunAppend(o, front, rest);
      }
    }
  }

  lemma EmptyEntryOps(e: Entry, block: nat, b: Buffer)
    requires 0 < block && e.data == []
    ensures EntryOps(false, e, block, b) == SwitchOps(false, e.path) + [Check]
  {
    assert Blocks(PLAIN, e.data, 0, block, b) == [];
  }

  lemma EmptyEntryWaits(stops: bool, path: Path)
    ensures var front := StopOps(stops) + (SwitchOps(false, path) + [Check]); WaitsIn(front) == 1 && Between(front)
  {
    NothingWaits(stops);
    SwitchWaits(path);
    NeverWaits([Check]);
    WaitsInAppend(SwitchOps(false, path), [Check]);
    WaitsInAppend(StopOps(stops), SwitchOps(false, path) + [Check]);
  }

  lemma EmptyEntryOpens(o: Output, stops: bool, path: Path)
    ensures OutputRun(o, StopOps(stops) + (SwitchOps(false, path) + [Check])).file == Some(path)
  {
    OutputRunAppend(o, StopOps(stops), SwitchOps(false, path) + [Check]);
    OutputRunAppend(OutputRun(o, StopOps(stops)), SwitchOps(false, path), [Check]);
    SwitchOutput(OutputRun(o, StopOps(stops)), path);
    assert [Check][1..] == [];
  }

  /**
   * A block can still be in the slot when the reader gets to the last drain: of the
   * last entry; or of the one before an empty last entry, let past by a late wake for
   * the block before; or of any entry with spurious wakes.
   */
  predicate EndsPending(wake: Wake, entries: seq<Entry>, block: nat)
    requires 0 < block
  {
    var n := |entries|;
    (n > 0 && entries[n - 1].data != []) ||
    (wake.Late? && n > 1 && entries[n - 2].data != [] && BlocksIn(entries, block) > 1) ||
    (wake.Spurious? && BlocksIn(entries, block) > 0)
  }

  lemma PendingHasBlocks(wake: Wake, entries: seq<Entry>, block: nat)
    requires 0 < block && EndsPending(wake, entries, block)
    ensures BlocksIn(entries, block) > 0
  {
    AtMostOneBlock(entries, block);
  }

  lemma CanFailInLast(job: Job, wake: Wake)
    requires 0 < job.block && !job.usb && EndsPending(wake, job.entries, job.block)
    ensures CanStrandReader(ExtractedConfig(job, wake), false)
  {
    var c, d := ExtractedConfig(job, wake), ExtractedConfig(job, Fused);
    PendingHasBlocks(wake, job.entries, job.block);
    var i := LastFilled(job.entries, job.block);
    ExtractedTwin(job, wake);
    var here, next := ProgramAt(job, wake, i);
    var rest := job.entries[i + 1..];
    EmptyEntries(job.stops, rest, job.block, next);
    if |rest| == 1 && wake.Late? {
      NotTheFirst(job, i);
    }
    var t := FailsBehind(c, d, Before(job, i), job.entries[i], job.block, here,
      EntriesOps(false, job.stops, rest, job.block, next));
    var run :| Exec(c, run) == Some(t);
  }

  // ------------------------------------ what the reference says about the slot

  predicate NeverEnds(ops: seq<Op>) { forall i :: 0 <= i < |ops| ==> !ops[i].FinalDrain? }

  lemma {:induction false} LoopNeverEnds(stops: bool, entries: seq<Entry>, block: nat, b: Buffer)
    requires 0 < block
    ensures NeverEnds(EntriesOps(false, stops, entries, block, b))
    decreases |entries|
  {
    if entries != [] {
      RawDump.BlocksNeverDrain(PLAIN, entries[0].data, 0, block, b);
      LoopNeverEnds(stops, entries[1..], block, NextBuffer(|entries[0].data|, block, b));
    }
  }

  /** Without a wait, the slot is as it was or holds a new block. */
  lemma {:induction false} LiveWithoutWaits(c: Config, g: Ref, ops: seq<Op>)
    requires WaitsIn(ops) == 0
    ensures var h := RefRun(c, g, ops);
      if Publishes(ops) == 0 then h.live == g.live && h.passed == g.passed else h.live.Some? && !h.passed
    decreases |ops|
  {
    if ops != [] {
      LiveWithoutWaits(c, RefStep(c, g, ops[0]), ops[1..]);
    }
  }

  lemma SwitchLive(c: Config, g: Ref, path: Path)
    ensures var h := RefRun(c, g, SwitchOps(false, path));
      h.live == (if Frees(c.wake, g) then None else g.live) && h.passed && h.published == g.published &&
      h.output.file == Some(path)
  {
    hide SafeFrom, Owed, RefRun, OpSafe;
    assert SwitchOps(false, path) == [Poll] + ([Drain] + OpenNext(path));
    Cons(c, g, Poll, [Drain] + OpenNext(path));
    Cons(c, g, Drain, OpenNext(path));
    OpenLive(c, RefStep(c, g, Drain), path);
  }

  function OpenNext(path: Path): seq<Op> { [Close] + ([Lookup] + ([Open(path)] + [])) }

  lemma OpenLive(c: Config, g: Ref, path: Path)
    ensures var h := RefRun(c, g, OpenNext(path));
      h.live == g.live && h.passed == g.passed && h.published == g.published && h.output.file == Some(path)
  {
    var closed := g.(output := g.output.(file := None));
    Cons(c, g, Close, [Lookup] + ([Open(path)] + []));
    Cons(c, closed, Lookup, [Open(path)] + []);
    Cons(c, closed, Open(path), []);
  }

  /** What the slot may hold behind an entry. */
  lemma EntryLive(c: Config, g: Ref, e: Entry, block: nat, b: Buffer)
    requires 0 < block
    ensures var h := RefRun(c, g, EntryOps(false, e, block, b));
      if e.data != [] then h.live.Some? && !h.passed
      else h.passed && h.live == if Frees(c.wake, g) then None else g.live
  {
    var switch, blocks := SwitchOps(false, e.path), Blocks(PLAIN, e.data, 0, block, b);
    SwitchLive(c, g, e.path);
    RefRunAppend(c, g, switch, blocks + [Check]);
    RawDump.BlocksNeverDrain(PLAIN, e.data, 0, block, b);
    NeverWaits(blocks + [Check]);
    LiveWithoutWaits(c, RefRun(c, g, switch), blocks + [Check]);
    BlocksPublish(PLAIN, e.data, 0, block, b);
    PublishesAppend(blocks, [Check]);
    assert [Check][1..] == [];
  }

  /** The state behind the loop, by that in front of the last entry. */
  lemma LoopLive(c: Config, stops: bool, entries: seq<Entry>, block: nat)
    requires 0 < block && entries != []
    ensures var g := RefRun(c, RefInit(c), EntriesOps(false, stops, entries[..|entries| - 1], block, First));
      var h, e := RefRun(c, RefInit(c), EntriesOps(false, stops, entries, block, First)), entries[|entries| - 1];
      if e.data != [] then h.live.Some? && !h.passed
      else h.passed && h.live == if Frees(c.wake, g) then None else g.live
  {
    var n := |entries| - 1;
    var here, next := EntriesSplit(stops, entries, n, block, First);
    var front, entry := EntriesOps(false, stops, entries[..n], block, First), EntryOps(false, entries[n], block, here);
    assert EntriesOps(false, stops, entries[n + 1..], block, next) == [];
    hide EntriesOps, EntryOps, StopOps, RefRun, Frees, Saves;
    assert EntriesOps(false, stops, entries, block, First) == front + (StopOps(stops) + entry);
    var g := RefRun(c, RefInit(c), front);
    RefRunAppend(c, RefInit(c), front, StopOps(stops) + entry);
    RefRunAppend(c, g, StopOps(stops), entry);
    StopRun(c, g, stops);
    EntryLive(c, g, entries[n], block, here);
  }

  lemma EntriesPublish(c: Config, stops: bool, entries: seq<Entry>, block: nat)
    requires 0 < block
    ensures Publishes(EntriesOps(false, stops, entries, block, First)) == BlocksIn(entries, block)
    ensures |RefRun(c, RefInit(c), EntriesOps(false, stops, entries, block, First)).published| == BlocksIn(entries, block)
  {
    var d := c.(wake := Fused);
    var ops := EntriesOps(false, stops, entries, block, First);
    EntriesRun(d, RefInit(d), false, stops, entries, block, First);
    PublishedCount(d, RefInit(d), ops);
    PublishedCount(c, RefInit(c), ops);
  }

  /** If the slot may be full behind the loop, it can be. */
  lemma LiveEndsPending(c: Config, stops: bool, entries: seq<Entry>, block: nat)
    requires 0 < block
    requires RefRun(c, RefInit(c), EntriesOps(false, stops, entries, block, First)).live.Some?
    ensures EndsPending(c.wake, entries, block)
  {
    if entries != [] && entries[|entries| - 1].data == [] {
      var shorter := entries[..|entries| - 1];
      LoopLive(c, stops, entries, block);
      EntriesPublish(c, stops, shorter, block);
      assert entries == shorter + [entries[|entries| - 1]];
      BlocksInAppend(shorter, [entries[|entries| - 1]], block);
      if shorter != [] {
        LoopLive(c, stops, shorter, block);
        assert shorter[|shorter| - 1] == entries[|entries| - 2];
      }
    }
  }

  lemma StrandedEndsPending(job: Job, wake: Wake, run: seq<Event>)
    requires 0 < job.block && !job.usb && Exec(ExtractedConfig(job, wake), run).Some?
    requires ReaderStranded(Exec(ExtractedConfig(job, wake), run).value)
    requires !Exec(ExtractedConfig(job, wake), run).value.shared.cancelled
    ensures EndsPending(wake, job.entries, job.block)
  {
    hide SafeFrom, StopsSafe, WellFormed;
    var c := ExtractedConfig(job, wake);
    var s := Exec(c, run).value;
    ExtractedRuns(job, Fused);
    TwinAccounted(c, ExtractedConfig(job, Fused));
    RunKept(c, run);
    RunAwake(c, run);
    assert s.shared.dataSize > 0;
    DoneIsLoop(job, wake, s.reader);
    LiveEndsPending(c, job.stops, job.entries, job.block);
  }

  /** The last drain of the program is behind the whole loop. */
  lemma DoneIsLoop(job: Job, wake: Wake, r: ReaderState)
    requires 0 < job.block && !job.usb && r.done + r.todo == ExtractedConfig(job, wake).program && AtLastDrain(r)
    ensures r.done == EntriesOps(false, job.stops, job.entries, job.block, First)
  {
    var loop := EntriesOps(false, job.stops, job.entries, job.block, First);
    LoopNeverEnds(job.stops, job.entries, job.block, First);
    var n := |r.done|;
    assert (r.done + r.todo)[n] == r.todo[0] == (loop + [FinalDrain, Close])[n];
    assert n == |loop|;
    assert r.done == (r.done + r.todo)[..n] == (loop + [FinalDrain, Close])[..n] == loop;
  }

  /**
   * Without a cancellation the reader of an extracted dump can be left asleep, by a
   * write that fails while it waits in the last drain, exactly if a block can still
   * be in the slot there.
   */
  lemma WriteErrorStrandsReader(job: Job, wake: Wake)
    requires 0 < job.block && !job.usb
    ensures CanStrandReader(ExtractedConfig(job, wake), false) <==> EndsPending(wake, job.entries, job.block)
  {
    var c := ExtractedConfig(job, wake);
    if EndsPending(wake, job.entries, job.block) {
      CanFailInLast(job, wake);
    }
    forall run | Exec(c, run).Some? && ReaderStranded(Exec(c, run).value) && !Exec(c, run).value.shared.cancelled
      ensures EndsPending(wake, job.entries, job.block)
    {
      StrandedEndsPending(job, wake, run);
    }
  }
}
