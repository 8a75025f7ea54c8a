// How a dump can hang although nothing failed and nobody cancelled, and for exactly
// which dumps.  A raw dump hangs when a pending block has been overwritten; a dump
// to many files already when the writer takes the moment between two files, in
// which none is open, for the end of the dump.
module UnharmedHangs {
  import opened Options
  import opened Sequences
  import opened DumpMachine
  import opened DumpInvariants
  import opened DumpOrder
  import opened AnyReader
  import opened DumpTheorems
  import opened DumpLiveness
  import opened DumpPrograms
  import opened DumpSchedules
  import opened ExtractedDump
  import opened LateWakes
  import opened DumpHangs

  // ---------------------------------------------------------------- raw dumps

  /** The writer is not woken, or about to be, for an empty slot, and the reader not on its way out. */
  predicate Polite(s: State)
  {
    !Failed(s.shared) && !s.reader.at.Leaving? && (s.reader.at.Waking? ==> s.shared.dataSize > 0) &&
    (s.writer.at.WHeld? || (s.writer.at.WWaiting? && s.shared.writerWoken) ==> s.shared.dataSize > 0)
  }

  /** The next step of a schedule that lets the reader go first and nothing fail. */
  lemma StepsPolitely(c: Config, s: State) returns (e: Event)
    requires c.wake.Late? && Control(s) && Polite(s) && Sized(s.reader.todo) && !AtRest(c, s)
    ensures Enabled(c, s, e) && WorkerEvent(e) && Polite(Next(c, s, e))
  {
    if ReaderEnabled(s.reader, s.shared.lock) {
      e := ReaderStep;
      ReaderStaysPolite(c, s);
    } else if Enabled(c, s, ReaderFill([])) {
      e := ReaderFill([]);
    } else if Enabled(c, s, ReaderResume) {
      e := ReaderResume;
    } else if WriterEnabled(c, s) {
      e := WriterStep;
      WriterStaysPolite(c, s);
    } else {
      e := WriterResume;
      var f :| WorkerEvent(f) && Enabled(c, s, f);
      assert !f.ReaderFail? && !f.WriterFail?;
    }
  }

  lemma ReaderStaysPolite(c: Config, s: State)
    requires c.wake.Late? && Control(s) && Polite(s) && ReaderEnabled(s.reader, s.shared.lock)
    requires s.reader.at.Held? && s.reader.todo[0].Publish? ==> s.reader.todo[0].size > 0
    ensures Polite(ReaderNext(c, s))
  {
  }

  lemma WriterStaysPolite(c: Config, s: State)
    requires c.wake.Late? && Control(s) && Polite(s) && WriterEnabled(c, s) && !s.reader.at.Waking?
    ensures Polite(WriterNext(c, s))
  {
  }

  lemma ReachableSound(c: Config, s: State)
    requires WellFormed(c) && Reachable(c, s)
    ensures Sound(c, s) && Sized(s.reader.todo) && Control(s) && Measure(c, s) >= 0
  {
    var run :| Exec(c, run) == Some(s);
    RunSound(c, run);
    NeverNegative(c, s);
    SafeIsSized(c, s.reader.ref, s.reader.todo);
  }

  /** Every worker step brings the threads nearer to a rest. */
  lemma StepMeasure(c: Config, s: State, e: Event)
    requires WellFormed(c) && c.wake.Late? && Sound(c, s) && Enabled(c, s, e) && WorkerEvent(e)
    ensures Measure(c, Next(c, s, e)) < Measure(c, s)
  {
    match e
    case ReaderStep => ReaderMeasure(c, s);
    case WriterStep => WriterMeasure(c, s);
    case _ => OtherMeasure(c, s, e);
  }

  /** So such a schedule ends, and what is lost on the way stays lost. */
  lemma {:induction false} RunsToRest(c: Config, s: State) returns (t: State)
    requires WellFormed(c) && c.wake.Late? && Reachable(c, s) && Polite(s)
    ensures Reachable(c, t) && Polite(t) && AtRest(c, t) && Lost(t) >= Lost(s)
    decreases Measure(c, s)
  {
    hide WellFormed, AtRest, Enabled, WorkerEvent, Next, Reachable, Sound, Control, Polite, Sized, Measure, Lost;
    ReachableSound(c, s);
    if AtRest(c, s) {
      t := s;
    } else {
      var e := StepsPolitely(c, s);
      StepMeasure(c, s, e);
      SoundLost(c, s, e);
      t := Go(c, s, e);
      ReachableSound(c, t);
      t := RunsToRest(c, t);
    }
  }

  lemma SoundLost(c: Config, s: State, e: Event)
    requires Sound(c, s) && Enabled(c, s, e)
    ensures Lost(Next(c, s, e)) >= Lost(s)
  {
    StepLost(c, s, e);
  }

  /** Threads that have come to rest behind an overwritten block hang. */
  lemma LossHangs(c: Config, t: State)
    requires WellFormed(c) && KeepsOpen(c) && Reachable(c, t) && Polite(t) && AtRest(c, t) && Lost(t) > 0
    ensures Hung(c, t)
  {
    ReachableSound(c, t);
    if t.writer.at.WriterDone? {
      NoneLostAtEnd(c, t);
    }
  }

  lemma NoneLostAtEnd(c: Config, t: State)
    requires Sound(c, t) && KeepsOpen(c) && t.writer.at.WriterDone? && !Failed(t.shared)
    ensures Lost(t) == 0
  {
    AllWritten(c, t);
    NothingLost(c, t);
  }

  /** Some schedule makes the threads hang with nothing failed and nobody cancelling. */
  ghost predicate CanHang(c: Config)
  {
    exists run :: Exec(c, run).Some? && Hung(c, Exec(c, run).value) && !Failed(Exec(c, run).value.shared)
  }

  lemma OverwritingHangs(job: RawDump.Job)
    requires job.Valid() && |job.image| > 2 * job.block
    ensures CanHang(RawDump.RawConfig(job, Late))
  {
    var c := RawDump.RawConfig(job, Late);
    RawDump.RawRuns(job, Late);
    var s := RawReachesFull(job, Late);
    var t := HandsOntoFull(c, s);
    t := RunsToRest(c, t);
    LossHangs(c, t);
    var run :| Exec(c, run) == Some(t);
  }

  lemma HandsOntoFull(c: Config, s: State) returns (t: State)
    requires WellFormed(c) && c.wake.Late? && Reachable(c, s) && HandsOver(s) && s.shared.dataSize > 0
    requires !Failed(s.shared) && s.writer.at.Top?
    ensures Reachable(c, t) && Polite(t) && Lost(t) > 0
  {
    ReachableSound(c, s);
    ReaderLost(c, s);
    NothingLost(c, s);
    t := Go(c, s, ReaderStep);
  }

  /**
   * A raw dump can hang although nothing failed and nobody cancelled exactly with
   * late wakes and more than two blocks: those dumps that can overwrite a block.
   */
  lemma RawHangsUnfailed(job: RawDump.Job, wake: Wake)
    requires job.Valid()
    ensures CanHang(RawDump.RawConfig(job, wake)) <==> wake.Late? && |job.image| > 2 * job.block
  {
    var c := RawDump.RawConfig(job, wake);
    if wake.Late? && |job.image| > 2 * job.block {
      OverwritingHangs(job);
    }
    forall run | Exec(c, run).Some? && Hung(c, Exec(c, run).value) && !Failed(Exec(c, run).value.shared)
      ensures wake.Late? && |job.image| > 2 * job.block
    {
      RunControl(c, run);
      RunAwake(c, run);
      HungThreads(c, Exec(c, run).value);
      RawDump.RawHangs(job, wake, run);
      NeverOverwrites(job, wake);
    }
  }

  // ----------------------------------------------------------- extracted dumps

  /** The threads hang although nothing has gone wrong. */
  ghost predicate HangsUnharmed(c: Config, run: seq<Event>)
  {
    Exec(c, run).Some? && Hung(c, Exec(c, run).value) && !Failed(Exec(c, run).value.shared) && Overwritten(c, run) == 0
  }

  ghost predicate CanHangUnharmed(c: Config) { exists run :: HangsUnharmed(c, run) }

  // -------------------------------------------------------- how it happens

  /** Between two files: the reader has closed one and not opened the next. */
  lemma Abandons(c: Config, d: Config, pre: seq<Op>, e: Entry, block: nat, b: Buffer, mid: seq<Op>, post: seq<Op>)
    returns (t: State)
    requires Twin(c, d) && c.wake.Late? && At(c, pre, e, block, b, mid + ([Drain, Close] + post))
    requires Between(mid) && WaitsIn(mid) == 0 && EndsInDrain(post) && Sized(post)
    requires Owed(post) > 0 || NotFirst(pre, e, block)
    ensures Reachable(c, t) && ReaderAbandoned(t) && NotLost(t) == c.total
  {
    assert !c.usb;
    hide SafeFrom, StopsSafe, Tracks, Reachable, EntryOps, Twin, At, NotFirst, Slot, WorkStep, RefRun, BlockOps, Owed;
    hide OutputRun, WaitsIn, Between, EndsInDrain, Sized, ReaderAbandoned, NotLost;
    if Owed(post) > 0 {
      var h, m, last;
      t, h, m, last := ReachesLastBlock(c, d, pre, e, block, b, mid + ([Drain, Close] + post));
      ClosesBehind(mid, t.output, post);
      t := DozesInto(c, d, t, h, e.data, m, last, ToClose(mid), post);
    } else {
      var h, m;
      t, h, m := PendsBehind(c, d, pre, e, block, b, mid + ([Drain, Close] + post));
      ClosesBehind(mid, t.output, post);
      t := AbandonsPending(c, d, t, h, ToClose(mid), post);
    }
  }

  /** From the last block of a file to its close. */
  function ToClose(mid: seq<Op>): seq<Op> { [Check] + (mid + [Drain, Close]) }

  lemma DozesInto(c: Config, d: Config, s: State, g: Ref, data: seq<byte>, m: nat, last: Buffer,
                  ops: seq<Op>, post: seq<Op>)
    returns (t: State)
    requires Reachable(c, s) && Calm(s) && Tracks(c, d, s, g) && m < |data|
    requires s.reader.todo == BlockOps(PLAIN, data, m, |data| - m, last) + (ops + post)
    requires Between(ops) && OutputRun(s.output, ops).file.None?
    requires !c.wake.Fused? && !c.usb && EndsInDrain(post) && Sized(post) && Owed(post) > 0
    ensures Reachable(c, t) && ReaderAbandoned(t) && NotLost(t) == c.total
  {
    BlockOwed(data, m, last, ops + post);
    assert s.writer.written < c.total;
    hide SafeFrom, StopsSafe, Tracks, Reachable, Slot, WorkStep, RefRun, BlockOps, Owed;
    hide OutputRun, Between, EndsInDrain, Sized, ReaderAbandoned, NotLost;
    var h;
    t, h := FillsBlock(c, d, s, g, PLAIN, data, m, |data| - m, last, ops + post);
    t := AbandonsDozing(c, d, t, h, ops, post);
  }

  lemma ClosesBehind(mid: seq<Op>, o: Output, post: seq<Op>)
    requires Between(mid) && WaitsIn(mid) == 0
    ensures var ops := ToClose(mid);
      Between(ops) && WaitsIn(ops) == 1 && OutputRun(o, ops).file.None? &&
      [Check] + (mid + ([Drain, Close] + post)) == ops + post
  {
    WaitsInAppend([Check], mid + [Drain, Close]);
    WaitsInAppend(mid, [Drain, Close]);
    OutputRunAppend(o, [Check], mid + [Drain, Close]);
    OutputRunAppend(o, mid, [Drain, Close]);
    assert [Check][1..] == [] && [Drain, Close][1..] == [Close] && [Close][1..] == [];
    assert WaitsIn([Close]) == 0;
    assert OutputRun(OutputRun(o, mid), [Drain, Close]) == OutputRun(OutputRun(o, mid), [Close]);
  }

  /** There are two blocks, and not all data is in the last entry. */
  predicate GapInData(entries: seq<Entry>, block: nat)
    requires 0 < block
  {
    BlocksIn(entries, block) > 1 && BlocksIn(ButLast(entries), block) > 0
  }

  lemma CanAbandon(job: Job)
    requires 0 < job.block && !job.usb && GapInData(job.entries, job.block)
    ensures CanHangUnharmed(ExtractedConfig(job, Late))
  {
    var i := LastFilled(ButLast(job.entries), job.block);
    assert ButLast(job.entries)[..i] == job.entries[..i];
    var t := AbandonsBehind(job, i);
    ExtractedTwin(job, Late);
    AbandonedIsHung(ExtractedConfig(job, Late), ExtractedConfig(job, Fused), t);
  }

  lemma AbandonedIsHung(c: Config, d: Config, t: State)
    requires Twin(c, d) && c.wake.Late? && Reachable(c, t) && ReaderAbandoned(t) && NotLost(t) == c.total
    ensures CanHangUnharmed(c)
  {
    TwinAccounted(c, d);
    hide Hung, Accounted, Twin, ReaderAlone;
    var run :| Exec(c, run) == Some(t);
    RunKept(c, run);
    StrandedIsHung(c, t, 0);
    assert HangsUnharmed(c, run);
  }

  lemma AbandonsBehind(job: Job, i: nat) returns (t: State)
    requires 0 < job.block && !job.usb && GapInData(job.entries, job.block)
    requires i + 1 < |job.entries| && job.entries[i].data != []
    requires BlocksIn(ButLast(job.entries), job.block) ==
      BlocksIn(job.entries[..i], job.block) + BlockCount(|job.entries[i].data|, job.block)
    ensures Reachable(ExtractedConfig(job, Late), t) && ReaderAbandoned(t) && NotLost(t) == ExtractedConfig(job, Late).total
  {
    hide Owed, EntriesOps, Reachable, NotFirst, AfterClose, Behind, EndsInDrain, Sized, At, Twin, GapInData, BlocksIn;
    hide BlockCount, ReaderAbandoned, NotLost, Before, AllData, ButLast;
    ExtractedTwin(job, Late);
    var here, next := ProgramAt(job, Late, i);
    var mid, post := StopOps(job.stops) + [Poll], AfterClose(job, i, next);
    SplitAtClose(job, i, next);
    PostIsFine(job, Late, i, here, next);
    NothingWaits(job.stops);
    NeverWaits(mid);
    if Owed(post) == 0 {
      NothingInLast(job, i);
      NotTheFirst(job, i);
    }
    t := Abandons(ExtractedConfig(job, Late), ExtractedConfig(job, Fused), Before(job, i), job.entries[i], job.block, here,
      mid, post);
  }

  /** The program from where entry `i`'s file has been closed. */
  function AfterClose(job: Job, i: nat, next: Buffer): seq<Op>
    requires 0 < job.block && i + 1 < |job.entries|
  {
    var f := job.entries[i + 1];
    [Lookup, Open(f.path)] + ((Blocks(PLAIN, f.data, 0, job.block, next) + [Check]) + Rest(job, i, next))
  }

  lemma SplitAtClose(job: Job, i: nat, next: Buffer)
    requires 0 < job.block && i + 1 < |job.entries|
    ensures Behind(job, i, next) == (StopOps(job.stops) + [Poll]) + ([Drain, Close] + AfterClose(job, i, next))
  {
    hide Blocks, StopOps, Rest;
    NextOpens(job, i, next);
    assert SwitchOps(false, job.entries[i + 1].path) ==
      [Poll] + ([Drain, Close] + [Lookup, Open(job.entries[i + 1].path)]);
  }

  /** What is still owed behind the close is the data of the entries that follow. */
  lemma PostIsFine(job: Job, wake: Wake, i: nat, here: Buffer, next: Buffer)
    requires 0 < job.block && !job.usb && i + 1 < |job.entries|
    requires At(ExtractedConfig(job, wake), Before(job, i), job.entries[i], job.block, here, Behind(job, i, next))
    ensures var post := AfterClose(job, i, next);
      Owed(post) == |AllData(job.entries[i + 1..])| && EndsInDrain(post) && Sized(post)
  {
    var front, post := (StopOps(job.stops) + [Poll]) + [Drain, Close], AfterClose(job, i, next);
    SplitAtClose(job, i, next);
    hide AfterClose, StopOps, Behind, Before, Sized, EndsInDrain, Owed, EntryOps, EntriesOps, ExtractedConfig, AllData;
    assert Behind(job, i, next) == front + post;
    PostEnds(job, i, next);
    PostOwes(job, i, next, front, post);
    ProgramSized(job, wake);
    TailSized(Before(job, i), EntryOps(false, job.entries[i], job.block, here), front, post);
  }

  lemma PostOwes(job: Job, i: nat, next: Buffer, front: seq<Op>, post: seq<Op>)
    requires 0 < job.block && i + 1 < |job.entries| && Behind(job, i, next) == front + post
    requires front == (StopOps(job.stops) + [Poll]) + [Drain, Close]
    ensures Owed(post) == |AllData(job.entries[i + 1..])|
  {
    hide Behind, Owed, StopOps;
    BehindOwes(job, i, next);
    FrontOwesNothing(job.stops);
    OwedAppend(front, post);
  }

  lemma PostEnds(job: Job, i: nat, next: Buffer)
    requires 0 < job.block && i + 1 < |job.entries|
    ensures EndsInDrain(AfterClose(job, i, next))
  {
    hide Blocks, EntriesOps;
  }

  lemma BehindOwes(job: Job, i: nat, next: Buffer)
    requires 0 < job.block && i + 1 < |job.entries|
    ensures Owed(Behind(job, i, next)) == |AllData(job.entries[i + 1..])|
  {
    EntriesOwed(job.stops, job.entries[i + 1..], job.block, next);
    OwedAppend(EntriesOps(false, job.stops, job.entries[i + 1..], job.block, next), EndOps(false));
    EndOwesNothing();
  }

  lemma FrontOwesNothing(stops: bool)
    ensures Owed((StopOps(stops) + [Poll]) + [Drain, Close]) == 0
  {
    NothingWaits(stops);
    NoneOwed((StopOps(stops) + [Poll]) + [Drain, Close]);
  }

  lemma ProgramSized(job: Job, wake: Wake)
    requires 0 < job.block && !job.usb
    ensures Sized(ExtractedConfig(job, wake).program)
  {
    ExtractedRuns(job, Fused);
    TwinAccounted(ExtractedConfig(job, wake), ExtractedConfig(job, Fused));
  }

  lemma EndOwesNothing()
    ensures Owed(EndOps(false)) == 0
  {
    assert EndOps(false)[1..] == [Close] && [Close][1..] == [];
    assert Owed([Close]) == 0;
  }

  lemma TailSized(a: seq<Op>, b: seq<Op>, c: seq<Op>, d: seq<Op>)
    requires Sized(a + (b + (c + d)))
    ensures Sized(d)
  {
    var all := a + (b + (c + d));
    assert forall i :: 0 <= i < |d| ==> d[i] == all[|a| + |b| + |c| + i];
  }

  lemma NothingInLast(job: Job, i: nat)
    requires 0 < job.block && GapInData(job.entries, job.block) && i + 1 < |job.entries|
    requires AllData(job.entries[i + 1..]) == []
    requires BlocksIn(ButLast(job.entries), job.block) ==
      BlocksIn(job.entries[..i], job.block) + BlockCount(|job.entries[i].data|, job.block)
    ensures BlocksIn(job.entries[..i], job.block) + BlockCount(|job.entries[i].data|, job.block) > 1
  {
    hide BlocksIn, BlockCount, AllData;
    LastIsEmpty(job, i);
    EmptyLastTakesNone(job.entries, job.block);
  }

  lemma LastIsEmpty(job: Job, i: nat)
    requires i + 1 < |job.entries| && AllData(job.entries[i + 1..]) == []
    ensures job.entries[|job.entries| - 1].data == []
  {
    NothingLeft(job.entries[i + 1..]);
    assert job.entries[|job.entries| - 1] == job.entries[i + 1..][|job.entries| - i - 2];
  }

  lemma EmptyLastTakesNone(entries: seq<Entry>, block: nat)
    requires 0 < block && entries != [] && entries[|entries| - 1].data == []
    ensures BlocksIn(ButLast(entries), block) == BlocksIn(entries, block)
  {
    var e := entries[|entries| - 1];
    assert entries == ButLast(entries) + [e];
    BlocksInAppend(ButLast(entries), [e], block);
    OneEntry(e, block);
    BlockCountBounds(0, block, 0);
  }

  // ------------------------------------------------- and when it cannot

  /** Somewhere behind a block, but not at the very end, no file is open. */
  predicate GapAt(c: Config, i: nat)
  {
    i < |c.program| && Publishes(c.program[..i]) > 0 && RefRun(c, RefInit(c), c.program[..i]).output.file.None?
  }

  ghost predicate NoGap(c: Config) { Publishes(c.program) > 1 ==> forall i: nat :: !GapAt(c, i) }

  /** A writer that left without a failure had written everything, or the reader was through. */
  predicate LeftInOrder(c: Config, s: State)
  {
    s.writer.at.WriterDone? && !Failed(s.shared) && Lost(s) == 0 ==> s.writer.written >= c.total || s.reader.todo == []
  }

  /** Why the writer finds no file open. */
  lemma LeavesInOrder(c: Config, s: State)
    requires Sound(c, s) && NoGap(c) && c.wake.Late? && !c.usb
    requires s.writer.at.WHeld? && s.output.file.None? && !Failed(s.shared) && Lost(s) == 0
    ensures s.writer.written >= c.total || s.reader.todo == []
  {
    var r := s.reader;
    if s.writer.written < c.total && r.todo != [] {
      assert r.done + r.todo == c.program && c.program[..|r.done|] == r.done;
      PublishedCount(c, RefInit(c), r.done);
      PublishesAppend(r.done, r.todo);
      assert !GapAt(c, |r.done|) || Publishes(c.program) <= 1;
      assert |r.ref.published| == 1 && Publishes(r.todo) == 0;
      NoneLeft(r.todo);
    }
  }

  lemma WriterInOrder(c: Config, s: State)
    requires Sound(c, s) && NoGap(c) && c.wake.Late? && !c.usb && LeftInOrder(c, s) && WriterEnabled(c, s)
    ensures LeftInOrder(c, WriterNext(c, s))
  {
    WriterLeavesReader(c, s);
    if s.writer.at.WHeld? && s.output.file.None? && !Failed(s.shared) && Lost(s) == 0 {
      LeavesInOrder(c, s);
    }
  }

  lemma ReaderInOrder(c: Config, s: State)
    requires Sound(c, s) && LeftInOrder(c, s) && ReaderEnabled(s.reader, s.shared.lock)
    ensures LeftInOrder(c, ReaderNext(c, s))
  {
    hide ReaderNext, Lost, Inv, Faithful, OnPath, WaitsHold;
    ReaderLeavesWriter(c, s);
    ReaderOnlyLoses(c, s);
    ReaderStaysFailed(c, s);
  }

  lemma ReaderOnlyLoses(c: Config, s: State)
    requires Sound(c, s) && ReaderEnabled(s.reader, s.shared.lock)
    ensures Lost(ReaderNext(c, s)) >= Lost(s) >= 0
  {
    ReaderLost(c, s);
    NothingLost(c, s);
  }

  lemma ReaderStaysFailed(c: Config, s: State)
    requires ReaderEnabled(s.reader, s.shared.lock)
    ensures Failed(ReaderNext(c, s).shared) == Failed(s.shared)
    ensures s.reader.todo == [] ==> ReaderNext(c, s).reader.todo == []
  {
  }

  lemma {:induction false} RunInOrder(c: Config, run: seq<Event>)
    requires WellFormed(c) && NoGap(c) && c.wake.Late? && !c.usb && Exec(c, run).Some?
    ensures LeftInOrder(c, Exec(c, run).value)
    decreases |run|
  {
    if run != [] {
      var s, e := Exec(c, run[..|run| - 1]).value, run[|run| - 1];
      RunSound(c, run[..|run| - 1]);
      RunInOrder(c, run[..|run| - 1]);
      hide Sound, WellFormed, NoGap, LeftInOrder, ReaderNext, WriterNext;
      match e
      case ReaderStep => ReaderInOrder(c, s);
      case WriterStep => WriterInOrder(c, s);
      case _ => OtherInOrder(c, s, e);
    }
  }

  lemma OtherInOrder(c: Config, s: State, e: Event)
    requires Sound(c, s) && LeftInOrder(c, s) && Enabled(c, s, e) && !e.ReaderStep? && !e.WriterStep?
    ensures LeftInOrder(c, Next(c, s, e))
  {
    StepLost(c, s, e);
  }

  /** A well-behaved reader without such a gap is not left alone unharmed. */
  lemma NotAbandoned(c: Config, run: seq<Event>)
    requires WellFormed(c) && NoGap(c) && c.wake.Late? && !c.usb && Exec(c, run).Some? && Overwritten(c, run) == 0
    ensures !ReaderAbandoned(Exec(c, run).value)
  {
    var s := Exec(c, run).value;
    RunSound(c, run);
    RunAwake(c, run);
    RunInOrder(c, run);
    LostIsOverwritten(c, run);
    if ReaderAbandoned(s) && s.writer.written >= c.total {
      AllWritten(c, s);
    }
  }

  lemma {:induction false} FileKept(c: Config, g: Ref, ops: seq<Op>)
    requires KeepsFile(ops)
    ensures RefRun(c, g, ops).output.file == g.output.file
    decreases |ops|
  {
    if ops != [] {
      FileKept(c, RefStep(c, g, ops[0]), ops[1..]);
    }
  }

  lemma {:induction false} PublishesLess(a: seq<Op>, b: seq<Op>)
    requires a <= b
    ensures Publishes(a) <= Publishes(b)
  {
    assert b == a + b[|a|..];
    PublishesAppend(a, b[|a|..]);
  }

  /** The loop up to the opening of the last file. */
  function ToLastFile(job: Job): seq<Op>
    requires 0 < job.block && job.entries != []
  {
    EntriesOps(false, job.stops, ButLast(job.entries), job.block, First) + StopOps(job.stops) +
    SwitchOps(false, job.entries[|job.entries| - 1].path)
  }

  lemma CutAtLastFile(job: Job, wake: Wake) returns (here: Buffer)
    requires 0 < job.block && !job.usb && job.entries != []
    ensures ExtractedConfig(job, wake).program ==
      (ToLastFile(job) + LastFile(job, here)) + [Close] && KeepsFile(LastFile(job, here))
  {
    var n := |job.entries| - 1;
    var next;
    here, next := EntriesSplit(job.stops, job.entries, n, job.block, First);
    LastFileKept(job, here);
    assert EntriesOps(false, job.stops, job.entries[n + 1..], job.block, next) == [];
    hide Blocks, EntriesOps, StopOps, SwitchOps, KeepsFile;
    var e := job.entries[n];
    Regroup6(EntriesOps(false, job.stops, ButLast(job.entries), job.block, First) + StopOps(job.stops),
      SwitchOps(false, e.path), Blocks(PLAIN, e.data, 0, job.block, here));
  }

  lemma Regroup6(a: seq<Op>, b: seq<Op>, x: seq<Op>)
    ensures (a + ((b + (x + [Check])) + [])) + [FinalDrain, Close] == ((a + b) + (x + [Check] + [FinalDrain])) + [Close]
  {
    assert (b + (x + [Check])) + [] == b + (x + [Check]);
  }

  lemma LastFileKept(job: Job, b: Buffer)
    requires 0 < job.block && job.entries != []
    ensures KeepsFile(LastFile(job, b))
  {
    BlocksAreLocal(PLAIN, job.entries[|job.entries| - 1].data, 0, job.block, b);
  }

  function LastFile(job: Job, b: Buffer): seq<Op>
    requires 0 < job.block && job.entries != []
  {
    Blocks(PLAIN, job.entries[|job.entries| - 1].data, 0, job.block, b) + [Check] + [FinalDrain]
  }

  /** With all data in the last entry, its file stays open from the first block to the very end. */
  lemma LastFileStaysOpen(job: Job, i: nat)
    requires 0 < job.block && !job.usb && job.entries != [] && BlocksIn(ButLast(job.entries), job.block) == 0
    ensures !GapAt(ExtractedConfig(job, Late), i)
  {
    var c := ExtractedConfig(job, Late);
    var here := CutAtLastFile(job, Late);
    var front, back := ToLastFile(job), LastFile(job, here);
    ToLastFileRun(job, c);
    hide ToLastFile, LastFile, RefRun, Publishes, ExtractedConfig;
    if i <= |front| {
      if i < |c.program| {
        assert c.program[..i] <= front;
        PublishesLess(c.program[..i], front);
      }
    } else if i < |c.program| {
      var x := back[..i - |front|];
      assert c.program[..i] == front + x && KeepsFile(x);
      RefRunAppend(c, RefInit(c), front, x);
      FileKept(c, RefRun(c, RefInit(c), front), x);
    }
  }

  lemma ToLastFileRun(job: Job, c: Config)
    requires 0 < job.block && job.entries != [] && BlocksIn(ButLast(job.entries), job.block) == 0
    ensures Publishes(ToLastFile(job)) == 0 && RefRun(c, RefInit(c), ToLastFile(job)).output.file.Some?
  {
    var path := job.entries[|job.entries| - 1].path;
    var before := EntriesOps(false, job.stops, ButLast(job.entries), job.block, First) + StopOps(job.stops);
    FrontPublishesNothing(job, c, path);
    hide EntriesOps, StopOps, SwitchOps;
    RefRunAppend(c, RefInit(c), before, SwitchOps(false, path));
    SwitchLive(c, RefRun(c, RefInit(c), before), path);
  }

  lemma FrontPublishesNothing(job: Job, c: Config, path: Path)
    requires 0 < job.block && job.entries != [] && BlocksIn(ButLast(job.entries), job.block) == 0
    ensures var before := EntriesOps(false, job.stops, ButLast(job.entries), job.block, First) + StopOps(job.stops);
      Publishes(before + SwitchOps(false, path)) == 0
  {
    var loop := EntriesOps(false, job.stops, ButLast(job.entries), job.block, First);
    EntriesPublish(c, job.stops, ButLast(job.entries), job.block);
    PublishesAppend(loop, StopOps(job.stops));
    PublishesAppend(loop + StopOps(job.stops), SwitchOps(false, path));
    NonePublished(StopOps(job.stops));
    SwitchPublishes(false, path);
  }

  lemma WithoutGap(job: Job)
    requires 0 < job.block && !job.usb && !GapInData(job.entries, job.block)
    ensures WellFormed(ExtractedConfig(job, Late)) && NoGap(ExtractedConfig(job, Late))
  {
    var c := ExtractedConfig(job, Late);
    var loop := EntriesOps(false, job.stops, job.entries, job.block, First);
    ButLastIsLess(job.entries, job.block);
    ExtractedRuns(job, Late);
    EntriesPublish(c, job.stops, job.entries, job.block);
    PublishesAppend(loop, EndOps(false));
    NonePublished(EndOps(false));
    if BlocksIn(job.entries, job.block) > 1 {
      forall i: nat ensures !GapAt(c, i) {
        LastFileStaysOpen(job, i);
      }
    }
  }

  /**
   * An extracted dump to a file system can hang with nothing failed, cancelled or
   * overwritten exactly with late wakes, for data of more than one block that is not
   * all in the last entry.
   */
  lemma ExtractedHangsUnharmed(job: Job, wake: Wake)
    requires 0 < job.block && !job.usb
    ensures CanHangUnharmed(ExtractedConfig(job, wake)) <==> wake.Late? && GapInData(job.entries, job.block)
  {
    var c := ExtractedConfig(job, wake);
    if wake.Late? && GapInData(job.entries, job.block) {
      CanAbandon(job);
    } else {
      ExtractedRuns(job, Fused);
      TwinAccounted(c, ExtractedConfig(job, Fused));
      forall run ensures !HangsUnharmed(c, run) {
        if HangsUnharmed(c, run) {
          HangIsAbandoned(c, run);
          if wake.Fused? {
            NeverAbandoned(c, run);
          } else {
            WithoutGap(job);
            NotAbandoned(c, run);
          }
        }
      }
    }
  }

  lemma HangIsAbandoned(c: Config, run: seq<Event>)
    requires Accounted(c) && HangsUnharmed(c, run)
    ensures !c.wake.Spurious? && ReaderAbandoned(Exec(c, run).value)
  {
    RunControl(c, run);
    RunAwake(c, run);
    HungThreads(c, Exec(c, run).value);
    OnlyStrandings(c, run);
  }
}
