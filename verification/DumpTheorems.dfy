// The main results about every run of the dump threads.
module DumpTheorems {
  import opened Sequences
  import opened DumpMachine
  import opened DumpInvariants
  import opened DumpOrder

  // ------------------------------------------------------ one output file

  /** The output after `chunks` have gone to the one file of a raw dump. */
  function Filled(c: Config, chunks: seq<seq<byte>>): Output
    requires c.file.Some? && c.file.value in c.disk
  {
    Output(c.file, c.disk[c.file.value := c.disk[c.file.value] + Concat(chunks)])
  }

  /** The reader writes one file that is open from the start, as the raw readers do. */
  predicate SingleFile(c: Config)
  {
    c.file.Some? && c.file.value in c.disk && KeepsFile(c.program) && KeepsFile(c.epilogue)
  }

  predicate OneFile(c: Config, s: State)
    requires SingleFile(c)
  {
    KeepsFile(s.reader.todo) &&
    s.output == Filled(c, s.writer.emitted) &&
    s.reader.ref.output == Filled(c, s.reader.ref.published)
  }

  lemma FilledAppend(c: Config, chunks: seq<seq<byte>>, chunk: seq<byte>)
    requires SingleFile(c)
    ensures Append(Filled(c, chunks), chunk) == Filled(c, chunks + [chunk])
    ensures Append(Filled(c, chunks), []) == Filled(c, chunks)
  {
    ConcatPush(chunks, chunk);
    var f := c.file.value;
    assert (c.disk[f] + Concat(chunks)) + chunk == c.disk[f] + (Concat(chunks) + chunk);
    assert (c.disk[f] + Concat(chunks)) + [] == c.disk[f] + Concat(chunks);
    assert Append(Filled(c, chunks), chunk).disk == Filled(c, chunks + [chunk]).disk;
    assert Append(Filled(c, chunks), []).disk == Filled(c, chunks).disk;
  }

  lemma FilledNothing(c: Config)
    requires SingleFile(c)
    ensures Filled(c, []) == Output(c.file, c.disk)
  {
    var f := c.file.value;
    assert c.disk[f] + [] == c.disk[f];
    assert c.disk[f := c.disk[f] + []] == c.disk;
  }

  lemma ReaderOneFile(c: Config, s: State)
    requires SingleFile(c) && Control(s) && OneFile(c, s) && ReaderEnabled(s.reader, s.shared.lock)
    ensures OneFile(c, ReaderNext(c, s))
  {
    var t := ReaderNext(c, s);
    ReaderKind(c, s);
    ReaderLeavesWriter(c, s);
    if HandsOver(s) {
      FilledAppend(c, s.reader.ref.published, s.reader.ref.work.mem.Get(s.reader.todo[0].buf));
    }
  }

  lemma WriterOneFile(c: Config, s: State)
    requires SingleFile(c) && OneFile(c, s) && WriterEnabled(c, s) && SlotSound(s.reader, s.shared)
    ensures OneFile(c, WriterNext(c, s))
  {
    WriterLeavesReader(c, s);
    if WritesOut(c, s) {
      FilledAppend(c, s.writer.emitted, Slot(s));
      assert s.shared.dataSize == 0 ==> Slot(s) == [];
    }
  }

  lemma OtherOneFile(c: Config, s: State, e: Event)
    requires SingleFile(c) && OneFile(c, s) && Enabled(c, s, e) && !e.ReaderStep? && !e.WriterStep?
    ensures OneFile(c, Next(c, s, e))
  {
  }

  // ------------------------------------- where the reader and writer can end

  /** A writer that ended without an error has written everything. */
  predicate Exits(c: Config, s: State)
  {
    s.writer.at.WriterDone? && !Failed(s.shared) ==> s.writer.written >= c.total
  }

  /** The output file is never closed under a block: wakes are fused, or there is only one file. */
  predicate KeepsOpen(c: Config) { c.wake.Fused? || SingleFile(c) }

  /** The supervisor stops polling only for a reason. */
  predicate Polled(c: Config, s: State)
  {
    !s.supervisor.Polling? ==> s.writer.written >= c.total || Failed(s.shared)
  }

  ghost predicate Sound(c: Config, s: State)
  {
    Orderly(c, s) && OnPath(c, s) && Polled(c, s) &&
    (KeepsOpen(c) ==> Exits(c, s)) && (SingleFile(c) ==> OneFile(c, s))
  }

  /** The reader is on the listed path, or left its loop because all was written. */
  ghost predicate OnPath(c: Config, s: State)
  {
    s.reader.done + s.reader.todo == c.program ||
    exists i :: StoppedAt(c, s.reader, s.writer.written, i)
  }

  predicate StoppedAt(c: Config, r: ReaderState, written: nat, i: int)
  {
    0 <= i < |c.program| && c.program[i].StopIfWritten? && written >= c.total &&
    r.done + r.todo == c.program[..i + 1] + c.epilogue && i < |r.done|
  }

  lemma RanOnPath(c: Config, s: State, t: State)
    requires OnPath(c, s) && NoStop(c.epilogue) && Ran(c, s, t)
    ensures OnPath(c, t)
  {
    var r, u := s.reader, t.reader;
    assert (r.done + [r.todo[0]]) + r.todo[1..] == r.done + r.todo;
    if u.todo == r.todo[1..] {
      if i :| StoppedAt(c, r, s.writer.written, i) {
        assert StoppedAt(c, u, t.writer.written, i);
      }
    } else {
      var n := |r.done|;
      assert (r.done + r.todo)[n] == r.todo[0];
      if r.done + r.todo != c.program {
        assert false;
      }
      assert c.program[..n + 1] == r.done + [r.todo[0]];
      assert StoppedAt(c, u, t.writer.written, n);
    }
  }

  lemma HandedOverOnPath(c: Config, s: State, t: State)
    requires OnPath(c, s) && HandedOver(c, s, t)
    ensures OnPath(c, t)
  {
    var r, u := s.reader, t.reader;
    assert (r.done + [r.todo[0]]) + r.todo[1..] == r.done + r.todo;
    if i :| StoppedAt(c, r, s.writer.written, i) {
      assert StoppedAt(c, u, t.writer.written, i);
    }
  }

  lemma SamePathOnPath(c: Config, s: State, t: State)
    requires OnPath(c, s) && t.reader.done == s.reader.done && t.reader.todo == s.reader.todo
    requires t.writer.written >= s.writer.written
    ensures OnPath(c, t)
  {
    if i :| StoppedAt(c, s.reader, s.writer.written, i) {
      assert StoppedAt(c, t.reader, t.writer.written, i);
    }
  }

  lemma ReaderOnPath(c: Config, s: State)
    requires OnPath(c, s) && NoStop(c.epilogue) && Control(s) && ReaderEnabled(s.reader, s.shared.lock)
    ensures OnPath(c, ReaderNext(c, s))
  {
    var t := ReaderNext(c, s);
    ReaderKind(c, s);
    ReaderLeavesWriter(c, s);
    if RunsHere(s) {
      RanOnPath(c, s, t);
    } else if HandsOver(s) {
      HandedOverOnPath(c, s, t);
    } else {
      SamePathOnPath(c, s, t);
    }
  }

  lemma WriterExits(c: Config, s: State)
    requires Exits(c, s) && WriterEnabled(c, s)
    requires s.writer.at.WHeld? && WriterLeaves(c, s) ==> Failed(s.shared)
    ensures Exits(c, WriterNext(c, s))
  {
  }

  lemma ReaderExits(c: Config, s: State)
    requires Exits(c, s) && ReaderEnabled(s.reader, s.shared.lock)
    ensures Exits(c, ReaderNext(c, s))
  {
  }

  /** The writer leaves for want of a file only when something has failed. */
  lemma FileOpenWhenHeld(c: Config, s: State)
    requires Sound(c, s) && KeepsOpen(c) && s.writer.at.WHeld? && WriterLeaves(c, s)
    ensures Failed(s.shared)
  {
    if c.wake.Fused? && s.shared.dataSize > 0 {
      assert s.reader.ref.live.Some?;
    }
  }

  lemma PolledStays(c: Config, s: State, e: Event)
    requires Polled(c, s) && Enabled(c, s, e)
    requires Next(c, s, e).writer.written >= s.writer.written
    ensures Polled(c, Next(c, s, e))
  {
  }

  lemma ReaderSound(c: Config, s: State)
    requires WellFormed(c) && Sound(c, s) && ReaderEnabled(s.reader, s.shared.lock)
    ensures Sound(c, ReaderNext(c, s))
  {
    ReaderLeavesWriter(c, s);
    PolledStays(c, s, ReaderStep);
    ReaderOnPath(c, s);
    ReaderOrderly(c, s);
    if KeepsOpen(c) { ReaderExits(c, s); }
    if SingleFile(c) { ReaderOneFile(c, s); }
  }

  lemma WriterSound(c: Config, s: State)
    requires WellFormed(c) && Sound(c, s) && WriterEnabled(c, s)
    ensures Sound(c, WriterNext(c, s))
  {
    WriterLeavesReader(c, s);
    PolledStays(c, s, WriterStep);
    SamePathOnPath(c, s, WriterNext(c, s));
    WriterOrderly(c, s);
    if KeepsOpen(c) {
      if s.writer.at.WHeld? && WriterLeaves(c, s) { FileOpenWhenHeld(c, s); }
      WriterExits(c, s);
    }
    if SingleFile(c) { WriterOneFile(c, s); }
  }

  lemma OtherSound(c: Config, s: State, e: Event)
    requires WellFormed(c) && Sound(c, s) && Enabled(c, s, e) && !e.ReaderStep? && !e.WriterStep?
    ensures Sound(c, Next(c, s, e))
  {
    PolledStays(c, s, e);
    SamePathOnPath(c, s, Next(c, s, e));
    OtherOrderly(c, s, e);
    if SingleFile(c) { OtherOneFile(c, s, e); }
  }

  lemma InitOneFile(c: Config)
    requires SingleFile(c)
    ensures OneFile(c, Init(c))
  {
    FilledNothing(c);
  }

  lemma InitSound(c: Config)
    requires WellFormed(c)
    ensures Sound(c, Init(c))
  {
    InitOrderly(c);
    if SingleFile(c) {
      InitOneFile(c);
    }
    assert Init(c).reader.done + Init(c).reader.todo == c.program;
  }

  /** What holds after every run, by induction over its steps. */
  lemma {:induction false} RunSound(c: Config, run: seq<Event>)
    requires WellFormed(c) && Exec(c, run).Some?
    ensures Sound(c, Exec(c, run).value)
    decreases |run|
  {
    if run == [] {
      InitSound(c);
    } else {
      var s, e := Exec(c, run[..|run| - 1]).value, run[|run| - 1];
      RunSound(c, run[..|run| - 1]);
      match e
      case ReaderStep => ReaderSound(c, s);
      case WriterStep => WriterSound(c, s);
      case _ => OtherSound(c, s, e);
    }
  }

  // ------------------------------------------------------- the main results

  /**
   * A raw dump under any schedule, with late and spurious wakes: the file holds
   * an in-order selection of the published blocks, `written` counts its bytes
   * and never passes the total, and a block being read never lands in the
   * buffer that is in the slot.
   */
  lemma EverySchedule(c: Config, run: seq<Event>)
    requires WellFormed(c) && SingleFile(c) && Exec(c, run).Some?
    ensures var s := Exec(c, run).value;
      NoneEmpty(s.reader.ref.published) &&
      Subsequence(s.writer.emitted, s.reader.ref.published) &&
      s.output == Output(c.file, c.disk[c.file.value := c.disk[c.file.value] + Concat(s.writer.emitted)]) &&
      s.writer.written == |Concat(s.writer.emitted)| <= c.total &&
      (s.shared.dataSize > 0 && s.reader.todo != [] && s.reader.todo[0].Load? ==> s.reader.todo[0].buf != s.shared.data)
  {
    RunSound(c, run);
    var s := Exec(c, run).value;
    EmittedIsPart(s);
    SubsequenceBytes(s.writer.emitted, s.reader.ref.published);
    BytesIsLength(s.writer.emitted);
    if s.reader.todo != [] {
      SafeNext(c, s.reader);
    }
  }

  lemma EmittedIsPart(s: State)
    requires Subsequence(s.writer.emitted + Pending(s), s.reader.ref.published)
    ensures Subsequence(s.writer.emitted, s.reader.ref.published)
  {
    var w := s.writer.emitted;
    if s.shared.dataSize > 0 {
      assert (w + Pending(s))[..|w + Pending(s)| - 1] == w;
      SubsequenceDrop(w + Pending(s), s.reader.ref.published);
    } else {
      assert w + Pending(s) == w;
    }
  }

  /**
   * Success means exactness: every published block was written, the output is
   * what the reader's program alone would have written, and the program ran to
   * its end or stopped because nothing was left to write.  This needs no
   * assumption on the wakes beyond what makes the program well-formed.
   */
  lemma SuccessIsExact(c: Config, run: seq<Event>)
    requires WellFormed(c) && Exec(c, run).Some?
    requires Exec(c, run).value.supervisor == Ended(true)
    ensures var s := Exec(c, run).value;
      s.writer.emitted == RefRun(c, RefInit(c), s.reader.done).published &&
      s.output == RefRun(c, RefInit(c), s.reader.done).output &&
      s.writer.written == c.total &&
      s.reader.todo == [] &&
      (s.reader.done == c.program || exists i :: StoppedAt(c, s.reader, c.total, i))
  {
    RunSound(c, run);
    var s := Exec(c, run).value;
    AllWritten(c, s);
    assert s.reader.done + [] == s.reader.done;
    if s.reader.done != c.program {
      var i :| StoppedAt(c, s.reader, s.writer.written, i);
      assert StoppedAt(c, s.reader, c.total, i);
    }
  }

  /** The reader's checksums are the reference's at every moment. */
  lemma ChecksumsAgree(c: Config, run: seq<Event>)
    requires WellFormed(c) && Exec(c, run).Some?
    ensures var r := Exec(c, run).value.reader;
      r.work.crc == RefRun(c, RefInit(c), r.done).work.crc && r.work.fullCrc == RefRun(c, RefInit(c), r.done).work.fullCrc
  {
    RunSound(c, run);
  }

  /** A successful run of a reader that cannot leave its loop early has run all of it. */
  lemma SuccessRunsAll(c: Config, run: seq<Event>)
    requires WellFormed(c) && NoStop(c.program) && Exec(c, run).Some?
    requires Exec(c, run).value.supervisor == Ended(true)
    ensures var s, g := Exec(c, run).value, RefRun(c, RefInit(c), c.program);
      s.reader.done == c.program && s.output == g.output && s.writer.written == c.total &&
      s.reader.work.crc == g.work.crc && s.reader.work.fullCrc == g.work.fullCrc
  {
    SuccessIsExact(c, run);
    ChecksumsAgree(c, run);
  }

  /** The reader has run a first part of a program that has no early exit. */
  lemma OnProgram(c: Config, run: seq<Event>)
    requires WellFormed(c) && NoStop(c.program) && Exec(c, run).Some?
    ensures var r := Exec(c, run).value.reader;
      r.done + r.todo == c.program && r.ref == RefRun(c, RefInit(c), r.done) &&
      RefRun(c, RefInit(c), c.program) == RefRun(c, r.ref, r.todo)
  {
    RunSound(c, run);
    var r := Exec(c, run).value.reader;
    RefRunAppend(c, RefInit(c), r.done, r.todo);
  }

  /** The conservation argument at the end of a run. */
  lemma AllWritten(c: Config, s: State)
    requires Sound(c, s) && s.writer.written >= c.total
    ensures s.shared.dataSize == 0 && s.writer.written == c.total && s.writer.emitted == s.reader.ref.published
    ensures s.output == s.reader.ref.output
  {
    NothingLost(c, s);
    assert s.shared.dataSize == 0 ==> s.writer.emitted + Pending(s) == s.writer.emitted;
  }

  /**
   * The code's comment holds while the waits can be relied on: the reader hands a
   * block over only when the previous one has been written, and as long as every
   * hand-over so far was of that kind, what has been written is all that was
   * published but for the block in the slot.  With fused wakes, moreover, reader
   * and writer are never asleep together.
   */
  lemma OneBlockBehind(c: Config, run: seq<Event>)
    requires WellFormed(c) && Exec(c, run).Some?
    ensures var s := Exec(c, run).value;
      var published := s.reader.ref.published;
      (HandsOver(s) && Settles(c.wake, |published|) ==> s.shared.dataSize == 0) &&
      (Early(c.wake, |published|) ==>
         s.writer.emitted <= published &&
         |published| - |s.writer.emitted| == if s.shared.dataSize > 0 then 1 else 0) &&
      (c.wake.Fused? ==>
         !(s.reader.at.Waiting? && !s.shared.readerWoken && s.writer.at.WWaiting? && !s.shared.writerWoken))
  {
    RunSound(c, run);
    var s := Exec(c, run).value;
    WaitsEmpty(c, s);
    if Early(c.wake, |s.reader.ref.published|) {
      OnlySlotBehind(c, s);
    }
  }

  lemma OnlySlotBehind(c: Config, s: State)
    requires Inv(c, s) && Faithful(c, s) && Early(c.wake, |s.reader.ref.published|)
    ensures s.writer.emitted <= s.reader.ref.published
    ensures |s.reader.ref.published| - |s.writer.emitted| == if s.shared.dataSize > 0 then 1 else 0
  {
    NothingLost(c, s);
    assert s.writer.emitted + Pending(s) == s.reader.ref.published;
  }

  /**
   * Another output file is opened only while the slot is empty.  With fused wakes
   * a file is closed only then, too, and never while the writer is about to write.
   */
  lemma FileChangesOnEmptySlot(c: Config, run: seq<Event>, e: Event)
    requires WellFormed(c) && Exec(c, run).Some? && Enabled(c, Exec(c, run).value, e)
    requires Next(c, Exec(c, run).value, e).output.file != Exec(c, run).value.output.file
    requires c.wake.Fused? || Next(c, Exec(c, run).value, e).output.file.Some?
    ensures Exec(c, run).value.shared.dataSize == 0
    ensures c.wake.Fused? ==> !WritesOut(c, Exec(c, run).value)
  {
    RunSound(c, run);
    var s := Exec(c, run).value;
    if e.WriterStep? {
      WriterLeavesReader(c, s);
    } else if e.ReaderStep? {
      ReaderKind(c, s);
      SafeNext(c, s.reader);
    }
  }

  /**
   * A read never lands in the buffer that is in the slot, also when the buffers
   * came back unswapped from a call; and past a drain that can be relied on the
   * slot is empty.
   */
  lemma BuffersNeverShared(c: Config, run: seq<Event>)
    requires WellFormed(c) && Exec(c, run).Some?
    ensures var s := Exec(c, run).value;
      (s.shared.dataSize > 0 && s.reader.todo != [] && s.reader.todo[0].Load? ==> s.reader.todo[0].buf != s.shared.data) &&
      (JustDrained(s.reader) && Settles(c.wake, |s.reader.ref.published|) ==> s.shared.dataSize == 0)
  {
    RunSound(c, run);
    var s := Exec(c, run).value;
    if s.shared.dataSize > 0 && s.reader.todo != [] {
      LoadsElsewhere(c, s);
    }
    if JustDrained(s.reader) && Settles(c.wake, |s.reader.ref.published|) {
      PastDrain(c, s.reader);
    }
  }

  /** The last statement was a wait for the slot to be empty. */
  predicate JustDrained(r: ReaderState)
  {
    r.done != [] && (r.done[|r.done| - 1].Drain? || r.done[|r.done| - 1].FinalDrain?)
  }

  lemma LoadsElsewhere(c: Config, s: State)
    requires InStep(c, s.reader, s.output.file) && SlotSound(s.reader, s.shared)
    requires s.shared.dataSize > 0 && s.reader.todo != []
    ensures s.reader.todo[0].Load? ==> s.reader.todo[0].buf != s.shared.data
  {
    SafeNext(c, s.reader);
  }

  lemma PastDrain(c: Config, r: ReaderState)
    requires r.ref == RefRun(c, RefInit(c), r.done) && JustDrained(r) && Settles(c.wake, |r.ref.published|)
    ensures r.ref.live.None?
  {
    var n := |r.done| - 1;
    assert r.done == r.done[..n] + [r.done[n]];
    RefRunPush(c, RefInit(c), r.done[..n], r.done[n]);
  }

  // ------------------------------------------------------------ lost blocks

  /** The bytes a hand-over at this step would destroy. */
  function Overwrites(s: State, e: Event): nat
  {
    if e.ReaderStep? && HandsOver(s) then s.shared.dataSize else 0
  }

  /** The bytes destroyed in a run by handing a block over onto a full slot. */
  function Overwritten(c: Config, run: seq<Event>): nat
  {
    if run == [] then 0
    else
      Overwritten(c, run[..|run| - 1]) +
      (match Exec(c, run[..|run| - 1])
       case None => 0
       case Some(s) => Overwrites(s, run[|run| - 1]))
  }

  lemma ReaderLost(c: Config, s: State)
    requires Inv(c, s) && ReaderEnabled(s.reader, s.shared.lock)
    ensures Lost(ReaderNext(c, s)) == Lost(s) + Overwrites(s, ReaderStep)
  {
    var t := ReaderNext(c, s);
    ReaderKind(c, s);
    ReaderLeavesWriter(c, s);
    if HandsOver(s) {
      HandedOverLost(c, s, t);
    }
  }

  lemma StepLost(c: Config, s: State, e: Event)
    requires Inv(c, s) && Enabled(c, s, e)
    ensures Lost(Next(c, s, e)) == Lost(s) + Overwrites(s, e)
  {
    match e
    case ReaderStep => ReaderLost(c, s);
    case WriterStep => WriterLeavesReader(c, s);
    case ReaderFill(_) =>
    case _ => OtherKind(c, s, e);
  }

  /** Blocks are lost through overwriting the slot and in no other way. */
  lemma {:induction false} LostIsOverwritten(c: Config, run: seq<Event>)
    requires WellFormed(c) && Exec(c, run).Some?
    ensures Lost(Exec(c, run).value) == Overwritten(c, run)
    decreases |run|
  {
    if run != [] {
      RunSound(c, run[..|run| - 1]);
      LostIsOverwritten(c, run[..|run| - 1]);
      StepLost(c, Exec(c, run[..|run| - 1]).value, run[|run| - 1]);
    }
  }

  /**
   * A dump succeeds only if no block was ever handed over onto a full slot: once
   * it happened, the run can hang or fail, but not be reported as successful.
   */
  lemma OverwritingForbidsSuccess(c: Config, run: seq<Event>)
    requires WellFormed(c) && Exec(c, run).Some? && Overwritten(c, run) > 0
    ensures Exec(c, run).value.supervisor != Ended(true)
    ensures Exec(c, run).value.writer.written < c.total
  {
    LostIsOverwritten(c, run);
    RunSound(c, run);
  }
}
