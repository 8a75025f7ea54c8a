// What the waits guarantee and what that means for the output.  Whatever is known
// of the wakes, the output trails the reference run by exactly the block in the
// slot for as long as no block has been overwritten; and no block is overwritten,
// and no drain passed early, while the waits can be relied on.
module DumpOrder {
  import opened Sequences
  import opened DumpMachine
  import opened DumpInvariants

  // -------------------------------------------------- waits with fused wakes

  /** What each thread may conclude from where it stands. */
  predicate Turns(r: ReaderAt, w: WriterAt, m: Shared)
  {
    !r.Waking? && !w.WWaking? &&
    (r.Held? || r.Drained? || (r.Waiting? && m.readerWoken) ==> m.dataSize == 0 || m.writeError) &&
    (r.Waiting? && !m.readerWoken ==> m.dataSize > 0 || w.Wrote?) &&
    (w.WHeld? || (w.WWaiting? && m.writerWoken) ==> m.dataSize > 0 || m.readError || m.cancelled) &&
    (w.Sleepy? || (w.WWaiting? && !m.writerWoken) ==> m.dataSize == 0) &&
    (w.Wrote? ==> m.dataSize == 0 || m.writeError)
  }

  lemma ReaderStartsTurns(c: Config, s: State)
    requires c.wake.Fused? && Control(s) && Turns(s.reader.at, s.writer.at, s.shared)
    requires s.reader.at.Idle? && s.reader.todo != [] && ReaderEnabled(s.reader, s.shared.lock)
    ensures Turns(ReaderStarts(c, s).reader.at, s.writer.at, ReaderStarts(c, s).shared)
  {
  }

  lemma ReaderHoldsTurns(c: Config, s: State)
    requires c.wake.Fused? && Control(s) && Turns(s.reader.at, s.writer.at, s.shared) && s.reader.at.Held?
    requires HandsOver(s) ==> s.reader.todo[0].size > 0
    ensures Turns(ReaderHolds(c, s).reader.at, s.writer.at, ReaderHolds(c, s).shared)
  {
  }

  lemma ReaderTurns(c: Config, s: State)
    requires c.wake.Fused? && Control(s) && Turns(s.reader.at, s.writer.at, s.shared)
    requires ReaderEnabled(s.reader, s.shared.lock)
    requires HandsOver(s) ==> s.reader.todo[0].size > 0
    ensures Turns(ReaderNext(c, s).reader.at, s.writer.at, ReaderNext(c, s).shared)
  {
    if s.reader.at.Idle? && s.reader.todo != [] {
      ReaderStartsTurns(c, s);
    } else if s.reader.at.Held? {
      ReaderHoldsTurns(c, s);
    }
  }

  lemma WriterTurns(c: Config, s: State)
    requires c.wake.Fused? && Control(s) && Turns(s.reader.at, s.writer.at, s.shared) && WriterEnabled(c, s)
    ensures Turns(s.reader.at, WriterNext(c, s).writer.at, WriterNext(c, s).shared)
  {
  }

  lemma OtherTurns(c: Config, s: State, e: Event)
    requires c.wake.Fused? && Control(s) && Turns(s.reader.at, s.writer.at, s.shared)
    requires Enabled(c, s, e) && !e.ReaderStep? && !e.WriterStep?
    ensures Turns(Next(c, s, e).reader.at, Next(c, s, e).writer.at, Next(c, s, e).shared)
  {
  }

  // --------------------------------------------------- waits with late wakes

  /** The reader has been let past its wait, or is about to be. */
  predicate LetPast(r: ReaderAt, m: Shared) { r.Held? || r.Drained? || (r.Waiting? && m.readerWoken) }

  /**
   * With late wakes: before the first block nobody has been woken without a
   * reason.  While a block is pending there is at most one wake left from the
   * block before, on its way or already with the reader, and none if there was no
   * block before or if the reader has used it to pass a drain.
   */
  predicate LateTurns(r: ReaderAt, w: WriterAt, published: nat, passed: bool, m: Shared)
  {
    (published == 0 ==>
       m.dataSize == 0 && !r.Waking? && !w.Wrote? && !w.WWaking? &&
       (w.WHeld? || (w.WWaiting? && m.writerWoken) ==> m.readError || m.cancelled)) &&
    (w.Wrote? ==> m.dataSize == 0 || m.writeError) &&
    (m.dataSize > 0 && !m.writeError ==>
       !(w.WWaking? && LetPast(r, m)) && (published == 1 || passed ==> !w.WWaking? && !LetPast(r, m)))
  }

  ghost predicate OneWake(s: State)
  {
    LateTurns(s.reader.at, s.writer.at, |s.reader.ref.published|, s.reader.ref.passed, s.shared)
  }

  lemma ReaderStartsOneWake(c: Config, s: State)
    requires Control(s) && OneWake(s) && s.reader.at.Idle? && s.reader.todo != []
    requires ReaderEnabled(s.reader, s.shared.lock)
    ensures OneWake(ReaderStarts(c, s))
  {
  }

  lemma ReaderHoldsOneWake(c: Config, s: State)
    requires c.wake.Late? && Control(s) && OneWake(s) && s.reader.at.Held?
    ensures OneWake(ReaderHolds(c, s))
  {
  }

  lemma ReaderOneWake(c: Config, s: State)
    requires c.wake.Late? && Control(s) && OneWake(s) && ReaderEnabled(s.reader, s.shared.lock)
    ensures OneWake(ReaderNext(c, s))
  {
    if s.reader.at.Idle? && s.reader.todo != [] {
      ReaderStartsOneWake(c, s);
    } else if s.reader.at.Held? {
      ReaderHoldsOneWake(c, s);
    }
  }

  lemma WriterOneWake(c: Config, s: State)
    requires c.wake.Late? && Control(s) && OneWake(s) && WriterEnabled(c, s)
    ensures OneWake(WriterNext(c, s))
  {
  }

  lemma OtherOneWake(c: Config, s: State, e: Event)
    requires c.wake.Late? && Control(s) && OneWake(s) && Enabled(c, s, e) && !e.ReaderStep? && !e.WriterStep?
    ensures OneWake(Next(c, s, e))
  {
  }

  // ------------------------------------------------------------- either way

  ghost predicate WaitsHold(c: Config, s: State)
  {
    (c.wake.Fused? ==> Turns(s.reader.at, s.writer.at, s.shared)) && (c.wake.Late? ==> OneWake(s))
  }

  /** The reference knows of a block in the slot. */
  predicate SlotKnown(s: State)
  {
    s.shared.dataSize > 0 ==> s.reader.ref.live.Some? && s.reader.ref.published != []
  }

  /** A wait that can be relied on leaves the slot empty, or the reader leaves. */
  lemma WaitsEmpty(c: Config, s: State)
    requires Control(s) && WaitsHold(c, s) && SlotKnown(s)
    ensures DrainsEmpty(c, s)
    ensures HandsOver(s) && Frees(c.wake, s.reader.ref) ==> s.shared.dataSize == 0
  {
  }

  lemma ReaderWaits(c: Config, s: State)
    requires Control(s) && WaitsHold(c, s) && ReaderEnabled(s.reader, s.shared.lock)
    requires HandsOver(s) ==> s.reader.todo[0].size > 0
    ensures WaitsHold(c, ReaderNext(c, s))
  {
    if c.wake.Fused? {
      ReaderLeavesWriter(c, s);
      ReaderTurns(c, s);
    } else if c.wake.Late? {
      ReaderOneWake(c, s);
    }
  }

  lemma WriterWaits(c: Config, s: State)
    requires Control(s) && WaitsHold(c, s) && WriterEnabled(c, s)
    ensures WaitsHold(c, WriterNext(c, s))
  {
    if c.wake.Fused? {
      WriterLeavesReader(c, s);
      WriterTurns(c, s);
    } else if c.wake.Late? {
      WriterOneWake(c, s);
    }
  }

  lemma OtherWaits(c: Config, s: State, e: Event)
    requires Control(s) && WaitsHold(c, s) && Enabled(c, s, e) && !e.ReaderStep? && !e.WriterStep?
    ensures WaitsHold(c, Next(c, s, e))
  {
    if c.wake.Fused? {
      OtherTurns(c, s, e);
    } else if c.wake.Late? {
      OtherOneWake(c, s, e);
    }
  }

  // ------------------------------------------------- the output and the slot

  /** Published, but neither written nor waiting in the slot. */
  function Lost(s: State): int
  {
    Bytes(s.reader.ref.published) - s.writer.written - s.shared.dataSize
  }

  /** So few blocks have been handed over that every wait for them could be relied on. */
  predicate Early(wake: Wake, published: nat) { published == 0 || Settles(wake, published - 1) }

  /** The output once the slot has been written out. */
  function Flushed(s: State): Output
  {
    if s.shared.dataSize > 0 then Append(s.output, Slot(s)) else s.output
  }

  /** Unless a block was lost, the output is the reference's but for the block in the slot. */
  predicate Flush(s: State)
  {
    Lost(s) == 0 && (s.shared.dataSize == 0 || s.output.file.Some?) ==> Flushed(s) == s.reader.ref.output
  }

  predicate Faithful(c: Config, s: State)
  {
    (s.output.file.Some? ==> s.output.file.value in s.output.disk) &&
    (Early(c.wake, |s.reader.ref.published|) ==> Lost(s) == 0) && Flush(s)
  }

  ghost predicate Orderly(c: Config, s: State)
  {
    Inv(c, s) && WaitsHold(c, s) && Faithful(c, s)
  }

  lemma PendingBytes(s: State)
    requires SlotSound(s.reader, s.shared) && s.writer.written == Bytes(s.writer.emitted)
    ensures Bytes(s.writer.emitted + Pending(s)) == s.writer.written + s.shared.dataSize
  {
    if s.shared.dataSize > 0 {
      assert (s.writer.emitted + Pending(s))[..|s.writer.emitted|] == s.writer.emitted;
    } else {
      assert s.writer.emitted + Pending(s) == s.writer.emitted;
    }
  }

  /** Nothing is ever gained, and if nothing was lost all blocks are accounted for. */
  lemma NothingLost(c: Config, s: State)
    requires Inv(c, s)
    ensures Lost(s) >= 0
    ensures Lost(s) == 0 ==> s.writer.emitted + Pending(s) == s.reader.ref.published
  {
    PendingBytes(s);
    SubsequenceBytes(s.writer.emitted + Pending(s), s.reader.ref.published);
  }

  lemma RanFaithful(c: Config, s: State, t: State)
    requires InStep(c, s.reader, s.output.file) && SlotSound(s.reader, s.shared) && Faithful(c, s) && Ran(c, s, t)
    requires s.shared.dataSize > 0 ==> LiveStep(c, s.reader.ref, s.reader.todo[0]) == s.reader.ref.live
    ensures Faithful(c, t)
  {
    SafeNext(c, s.reader);
    RanSlotSound(c, s, t);
    assert Slot(t) == Slot(s) || s.shared.dataSize == 0;
  }

  /** A hand-over onto a full slot loses what was in it. */
  lemma HandedOverLost(c: Config, s: State, t: State)
    requires InStep(c, s.reader, s.output.file) && HandedOver(c, s, t)
    ensures Lost(t) == Lost(s) + s.shared.dataSize
    ensures |t.reader.ref.published| == |s.reader.ref.published| + 1
  {
    HandedOverInStep(c, s, t);
    var published := s.reader.ref.published;
    assert t.reader.ref.published == published + [Pending(t)[0]];
    assert t.reader.ref.published[..|published|] == published;
  }

  lemma HandedOverFaithful(c: Config, s: State, t: State)
    requires Inv(c, s) && Faithful(c, s) && HandedOver(c, s, t)
    requires Settles(c.wake, |s.reader.ref.published|) ==> s.shared.dataSize == 0
    ensures Faithful(c, t)
  {
    HandedOverInStep(c, s, t);
    HandedOverLost(c, s, t);
    NothingLost(c, s);
    var chunk := s.reader.ref.work.mem.Get(s.reader.todo[0].buf);
    assert Slot(t) == chunk[..|chunk|] == chunk;
  }

  lemma QuietFaithful(c: Config, s: State, t: State)
    requires Faithful(c, s) && Quiet(s.reader, t.reader) && SameSlot(s.shared, t.shared)
    requires t.output == s.output && t.writer == s.writer.(at := t.writer.at)
    ensures Faithful(c, t)
  {
    assert Flushed(t) == Flushed(s);
  }

  lemma ReaderFaithful(c: Config, s: State)
    requires Orderly(c, s) && ReaderEnabled(s.reader, s.shared.lock)
    ensures Faithful(c, ReaderNext(c, s))
  {
    var t := ReaderNext(c, s);
    ReaderKind(c, s);
    WaitsEmpty(c, s);
    if RunsHere(s) {
      RanFaithful(c, s, t);
    } else if HandsOver(s) {
      HandedOverFaithful(c, s, t);
    } else {
      QuietFaithful(c, s, t);
    }
  }

  lemma AppendNothing(o: Output)
    requires o.file.Some? && o.file.value in o.disk
    ensures Append(o, []) == o
  {
    assert o.disk[o.file.value] + [] == o.disk[o.file.value];
  }

  lemma WriterFaithful(c: Config, s: State)
    requires Orderly(c, s) && WriterEnabled(c, s)
    ensures Faithful(c, WriterNext(c, s))
  {
    var t := WriterNext(c, s);
    WriterLeavesReader(c, s);
    if WritesOut(c, s) {
      if s.shared.dataSize == 0 {
        assert Slot(s) == [];
        if s.output.file.Some? {
          AppendNothing(s.output);
        }
      }
    } else {
      assert Flushed(t) == Flushed(s);
    }
  }

  lemma OtherFaithful(c: Config, s: State, e: Event)
    requires Orderly(c, s) && Enabled(c, s, e) && !e.ReaderStep? && !e.WriterStep?
    ensures Faithful(c, Next(c, s, e))
  {
    var t := Next(c, s, e);
    if e.ReaderFill? {
      assert OpSafe(c, s.reader.ref, s.reader.todo[0]);
      assert s.shared.dataSize > 0 ==> Slot(t) == Slot(s);
    } else {
      OtherKind(c, s, e);
      QuietFaithful(c, s, t);
    }
  }

  // ------------------------------------------------------------ all together

  lemma ReaderLeavesWriter(c: Config, s: State)
    requires ReaderEnabled(s.reader, s.shared.lock)
    ensures ReaderNext(c, s).writer == s.writer
  {
  }

  lemma ReaderOrderly(c: Config, s: State)
    requires WellFormed(c) && Orderly(c, s) && ReaderEnabled(s.reader, s.shared.lock)
    ensures Orderly(c, ReaderNext(c, s))
  {
    WaitsEmpty(c, s);
    ReaderKeeps(c, s);
    if HandsOver(s) {
      SafeNext(c, s.reader);
    }
    ReaderWaits(c, s);
    ReaderFaithful(c, s);
  }

  lemma WriterOrderly(c: Config, s: State)
    requires WellFormed(c) && Orderly(c, s) && WriterEnabled(c, s)
    ensures Orderly(c, WriterNext(c, s))
  {
    WriterKeeps(c, s);
    WriterWaits(c, s);
    WriterFaithful(c, s);
  }

  lemma OtherOrderly(c: Config, s: State, e: Event)
    requires WellFormed(c) && Orderly(c, s) && Enabled(c, s, e) && !e.ReaderStep? && !e.WriterStep?
    ensures Orderly(c, Next(c, s, e))
  {
    StepKeeps(c, s, e);
    OtherWaits(c, s, e);
    OtherFaithful(c, s, e);
  }

  lemma InitOrderly(c: Config)
    requires WellFormed(c)
    ensures Orderly(c, Init(c))
  {
    InitKeeps(c);
  }
}
