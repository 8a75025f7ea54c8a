// What every step of the dump threads keeps, however they are interleaved.
module DumpInvariants {
  import opened Options
  import opened Sequences
  import opened DumpMachine

  /** The block in the slot, if there is one, as a list. */
  function Pending(s: State): seq<seq<byte>>
  {
    if s.shared.dataSize > 0 then [Slot(s)] else []
  }

  predicate AtMailbox(op: Op) { op.Publish? || op.Drain? || op.FinalDrain? }

  predicate ReaderHasLock(at: ReaderAt) { at.Locked? || at.Held? }

  predicate WriterHasLock(at: WriterAt) { at.WLocked? || at.Sleepy? || at.WHeld? || at.Wrote? }

  /** The statement the reader is at can take it where it is. */
  predicate ReaderPlaced(r: ReaderState)
  {
    (r.at.Filling? ==> r.todo != [] && r.todo[0].Load?) &&
    (r.at.Clear? ==> r.todo != [] && r.todo[0].FinalDrain?) &&
    (r.at.Drained? ==> r.todo != [] && r.todo[0].Drain?) &&
    (r.at.Locked? || r.at.Waiting? || r.at.Held? ==> r.todo != [] && AtMailbox(r.todo[0]))
  }

  /** The mutex excludes, and the flags explain every early exit. */
  predicate Control(s: State)
  {
    ReaderPlaced(s.reader) &&
    (s.shared.lock.Reader? <==> ReaderHasLock(s.reader.at)) &&
    (s.shared.lock.Writer? <==> WriterHasLock(s.writer.at)) &&
    (s.reader.at.Leaving? ==> s.shared.readError || s.shared.cancelled) &&
    (s.reader.at.ReaderDone? ==> s.reader.todo == [] || Failed(s.shared)) &&
    (s.shared.writeError ==> s.writer.at.Wrote? || s.writer.at.WWaking? || s.writer.at.WriterDone?) &&
    (s.supervisor.JoinWriter? ==> s.reader.at.ReaderDone?) &&
    (s.supervisor.Ended? ==>
       s.reader.at.ReaderDone? && s.writer.at.WriterDone? && s.supervisor.success == !Failed(s.shared))
  }

  /** The reader's buffers need not agree with the reference: a read is under way or failed. */
  predicate Unsettled(at: ReaderAt) { at.Filling? || at.Leaving? || at.ReaderDone? }

  /** Everything private to the reader agrees with the reference run of what it has done. */
  ghost predicate InStep(c: Config, r: ReaderState, file: Option<Path>)
  {
    r.ref == RefRun(c, RefInit(c), r.done) &&
    file == r.ref.output.file &&
    WorkAgrees(r) &&
    SafeFrom(c, r.ref, r.todo) && StopsSafe(c, r.ref, r.todo) &&
    ((Settles(c.wake, |r.ref.published|) || c.usb) && r.ref.live.Some? ==> r.ref.output.file.Some?)
  }

  predicate WorkAgrees(r: ReaderState)
  {
    r.work.crc == r.ref.work.crc && r.work.fullCrc == r.ref.work.fullCrc &&
    (!Unsettled(r.at) ==> r.work == r.ref.work) &&
    (r.at.Filling? ==>
       r.todo != [] && r.todo[0].Load? &&
       WorkStep(r.work, r.todo[0]) == WorkStep(r.ref.work, r.todo[0]))
  }

  /** The slot holds the block published last, in a buffer the reader stays out of. */
  predicate SlotSound(r: ReaderState, m: Shared)
  {
    m.dataSize > 0 ==>
      r.ref.live == Some(m.data) && r.ref.published != [] &&
      |r.work.mem.Get(m.data)| == m.dataSize &&
      r.work.mem.Get(m.data) == r.ref.published[|r.ref.published| - 1]
  }

  /** Conservation: what was written and what is pending are part of what was published. */
  predicate Conserved(total: nat, published: seq<seq<byte>>, owed: nat, w: WriterState, pending: seq<seq<byte>>)
  {
    NoneEmpty(published) &&
    Subsequence(w.emitted + pending, published) &&
    w.written == Bytes(w.emitted) &&
    Bytes(published) + owed <= total &&
    (Bytes(published) + owed == total || w.written >= total)
  }

  ghost predicate Inv(c: Config, s: State)
  {
    Control(s) && InStep(c, s.reader, s.output.file) && SlotSound(s.reader, s.shared) &&
    Conserved(c.total, s.reader.ref.published, Owed(s.reader.todo), s.writer, Pending(s))
  }

  // ------------------------------------------------ the control part alone

  lemma ReaderStartsControl(c: Config, s: State)
    requires Control(s) && s.reader.at.Idle? && s.reader.todo != []
    requires ReaderEnabled(s.reader, s.shared.lock)
    ensures Control(ReaderStarts(c, s))
  {
  }

  lemma ReaderHoldsControl(c: Config, s: State)
    requires Control(s) && s.reader.at.Held?
    ensures Control(ReaderHolds(c, s))
  {
  }

  lemma ReaderControl(c: Config, s: State)
    requires Control(s) && ReaderEnabled(s.reader, s.shared.lock)
    ensures Control(ReaderNext(c, s))
  {
    if s.reader.at.Idle? && s.reader.todo != [] {
      ReaderStartsControl(c, s);
    } else if s.reader.at.Held? {
      ReaderHoldsControl(c, s);
    }
  }

  lemma WriterControl(c: Config, s: State)
    requires Control(s) && WriterEnabled(c, s)
    ensures Control(WriterNext(c, s))
  {
  }

  lemma OtherControl(c: Config, s: State, e: Event)
    requires Control(s) && Enabled(c, s, e) && !e.ReaderStep? && !e.WriterStep?
    ensures Control(Next(c, s, e))
  {
  }

  // -------------------------------------------------- what a change may do

  /** A pure change of control in the reader. */
  predicate Quiet(r: ReaderState, t: ReaderState)
  {
    t == r.(at := t.at) && (Unsettled(t.at) || !Unsettled(r.at)) && (t.at.Filling? ==> r.at.Filling?)
  }

  predicate SameSlot(m: Shared, n: Shared) { n.data == m.data && n.dataSize == m.dataSize }

  /** A statement other than Publish has run to its end, or jumped out of the loop. */
  predicate Ran(c: Config, s: State, t: State)
  {
    var r := s.reader;
    r.todo != [] && !r.todo[0].Publish? && (r.at.Filling? || !Unsettled(r.at)) &&
    t.reader == Past(c, r).(todo := t.reader.todo) &&
    (t.reader.todo == r.todo[1..] ||
      (r.todo[0].StopIfWritten? && s.writer.written >= c.total && t.reader.todo == c.epilogue)) &&
    t.output == OutputStep(s.output, r.todo[0]) && SameSlot(s.shared, t.shared) && t.writer == s.writer
  }

  predicate HandedOver(c: Config, s: State, t: State)
  {
    var r := s.reader;
    r.todo != [] && r.todo[0].Publish? && !Unsettled(r.at) &&
    t.reader == Past(c, r).(at := t.reader.at) && !Unsettled(t.reader.at) &&
    t.output == s.output && t.writer == s.writer &&
    t.shared.data == r.todo[0].buf && t.shared.dataSize == r.todo[0].size
  }

  /** The test at the front of `todo` makes the reader leave. */
  predicate LeavesHere(s: State)
    requires s.reader.todo != []
  {
    (s.reader.todo[0].Poll? && s.shared.cancelled) || (s.reader.todo[0].Check? && Failed(s.shared))
  }

  /** The statement at the front of `todo` ends with this step. */
  predicate RunsHere(s: State)
  {
    var r := s.reader;
    r.todo != [] &&
    ((r.at.Idle? && !AtMailbox(r.todo[0]) && !LeavesHere(s)) ||
     r.at.Filling? || (r.at.Drained? && !s.shared.writeError) ||
     (r.at.Held? && r.todo[0].FinalDrain? && !s.shared.writeError))
  }

  predicate HandsOver(s: State)
  {
    s.reader.todo != [] && s.reader.at.Held? && s.reader.todo[0].Publish? && !s.shared.writeError
  }

  predicate QuietStep(s: State, t: State)
  {
    Quiet(s.reader, t.reader) && SameSlot(s.shared, t.shared) && t.output == s.output && t.writer == s.writer
  }

  lemma ReaderStartsKind(c: Config, s: State)
    requires Control(s) && s.reader.at.Idle? && s.reader.todo != []
    ensures if RunsHere(s) then Ran(c, s, ReaderStarts(c, s)) else QuietStep(s, ReaderStarts(c, s))
  {
  }

  lemma ReaderHoldsKind(c: Config, s: State)
    requires Control(s) && s.reader.at.Held?
    ensures if RunsHere(s) then Ran(c, s, ReaderHolds(c, s))
            else if HandsOver(s) then HandedOver(c, s, ReaderHolds(c, s))
            else QuietStep(s, ReaderHolds(c, s))
  {
  }

  lemma ReaderKind(c: Config, s: State)
    requires Control(s) && ReaderEnabled(s.reader, s.shared.lock)
    ensures if RunsHere(s) then Ran(c, s, ReaderNext(c, s))
            else if HandsOver(s) then HandedOver(c, s, ReaderNext(c, s))
            else QuietStep(s, ReaderNext(c, s))
  {
    if s.reader.at.Idle? && s.reader.todo != [] {
      ReaderStartsKind(c, s);
    } else if s.reader.at.Held? {
      ReaderHoldsKind(c, s);
    }
  }

  // ----------------------------------------------- what each change keeps

  /** Running one more statement in the reference agrees with running all of them. */
  lemma RefRunPush(c: Config, g: Ref, done: seq<Op>, op: Op)
    ensures RefRun(c, g, done + [op]) == RefStep(c, RefRun(c, g, done), op)
  {
    RefRunAppend(c, g, done, [op]);
    assert RefRun(c, RefRun(c, g, done), [op]) == RefStep(c, RefRun(c, g, done), op);
  }

  lemma {:induction false} NoStopIsSafe(c: Config, g: Ref, ops: seq<Op>)
    requires NoStop(ops)
    ensures StopsSafe(c, g, ops)
    decreases |ops|
  {
    if ops != [] {
      NoStopIsSafe(c, RefStep(c, g, ops[0]), ops[1..]);
    }
  }

  lemma QuietInStep(c: Config, r: ReaderState, t: ReaderState, file: Option<Path>)
    requires InStep(c, r, file) && Quiet(r, t)
    ensures InStep(c, t, file)
  {
  }

  lemma QuietKeeps(c: Config, s: State, t: State)
    requires Inv(c, s) && QuietStep(s, t) && Control(t)
    ensures Inv(c, t)
  {
    QuietInStep(c, s.reader, t.reader, s.output.file);
    assert Pending(t) == Pending(s);
  }

  /** Starting a read disturbs a buffer that is not in the slot. */
  lemma RefillingSlot(c: Config, s: State, garbage: seq<byte>)
    requires InStep(c, s.reader, s.output.file) && SlotSound(s.reader, s.shared) && Enabled(c, s, ReaderFill(garbage))
    ensures var t := Next(c, s, ReaderFill(garbage)); SlotSound(t.reader, t.shared) && Pending(t) == Pending(s)
  {
    var t := Next(c, s, ReaderFill(garbage));
    assert OpSafe(c, s.reader.ref, s.reader.todo[0]);
    assert s.shared.dataSize > 0 ==> t.reader.work.mem.Get(s.shared.data) == s.reader.work.mem.Get(s.shared.data);
  }

  lemma RefillingInStep(c: Config, s: State, garbage: seq<byte>)
    requires InStep(c, s.reader, s.output.file) && Enabled(c, s, ReaderFill(garbage))
    ensures InStep(c, Next(c, s, ReaderFill(garbage)).reader, s.output.file)
  {
    hide SafeFrom, StopsSafe;
  }

  lemma RefillingKeeps(c: Config, s: State, garbage: seq<byte>)
    requires Inv(c, s) && Enabled(c, s, ReaderFill(garbage)) && Control(Next(c, s, ReaderFill(garbage)))
    ensures Inv(c, Next(c, s, ReaderFill(garbage)))
  {
    hide InStep, SlotSound, Control;
    RefillingSlot(c, s, garbage);
    RefillingInStep(c, s, garbage);
  }

  /** The next statement starts from a safe place again. */
  lemma SafeNext(c: Config, r: ReaderState)
    requires r.todo != [] && SafeFrom(c, r.ref, r.todo) && StopsSafe(c, r.ref, r.todo)
    ensures OpSafe(c, r.ref, r.todo[0])
    ensures SafeFrom(c, RefStep(c, r.ref, r.todo[0]), r.todo[1..])
    ensures StopsSafe(c, RefStep(c, r.ref, r.todo[0]), r.todo[1..])
    ensures r.todo[0].StopIfWritten? ==> |c.epilogue| < |r.todo| && SafeFrom(c, r.ref, c.epilogue)
  {
  }

  lemma RanInStep(c: Config, s: State, t: State)
    requires NoStop(c.epilogue) && InStep(c, s.reader, s.output.file) && Ran(c, s, t)
    ensures InStep(c, t.reader, t.output.file)
  {
    var op := s.reader.todo[0];
    RefRunPush(c, RefInit(c), s.reader.done, op);
    SafeNext(c, s.reader);
    if t.reader.todo == c.epilogue {
      assert op.StopIfWritten? ==> RefStep(c, s.reader.ref, op) == s.reader.ref;
      NoStopIsSafe(c, t.reader.ref, c.epilogue);
    }
  }

  lemma RanSlotSound(c: Config, s: State, t: State)
    requires InStep(c, s.reader, s.output.file) && SlotSound(s.reader, s.shared) && Ran(c, s, t)
    requires s.shared.dataSize > 0 ==> LiveStep(c, s.reader.ref, s.reader.todo[0]) == s.reader.ref.live
    ensures SlotSound(t.reader, t.shared) && Pending(t) == Pending(s)
  {
    SafeNext(c, s.reader);
    hide SafeFrom, StopsSafe, RefRun;
    if s.shared.dataSize > 0 {
      var b := s.shared.data;
      assert t.reader.work.mem.Get(b) == s.reader.work.mem.Get(b);
    }
  }

  /** A drain that is relied on finishes only on an empty slot. */
  predicate DrainsEmpty(c: Config, s: State)
  {
    RunsHere(s) && s.shared.dataSize > 0 ==> LiveStep(c, s.reader.ref, s.reader.todo[0]) == s.reader.ref.live
  }

  lemma RanKeeps(c: Config, s: State, t: State)
    requires WellFormed(c) && Inv(c, s) && Ran(c, s, t) && Control(t) && RunsHere(s) && DrainsEmpty(c, s)
    ensures Inv(c, t)
  {
    RanInStep(c, s, t);
    RanSlotSound(c, s, t);
  }

  lemma HandedOverInStep(c: Config, s: State, t: State)
    requires InStep(c, s.reader, s.output.file) && HandedOver(c, s, t)
    ensures InStep(c, t.reader, t.output.file) && SlotSound(t.reader, t.shared)
    ensures |Pending(t)| == 1 && |Pending(t)[0]| == s.reader.todo[0].size > 0
    ensures t.reader.ref.published == s.reader.ref.published + Pending(t)
  {
    RefRunPush(c, RefInit(c), s.reader.done, s.reader.todo[0]);
    SafeNext(c, s.reader);
    var chunk := s.reader.ref.work.mem.Get(s.reader.todo[0].buf);
    assert Slot(t) == chunk[..|chunk|] == chunk;
    assert Pending(t) == [chunk];
  }

  /** Conservation survives a hand-over, whether or not the slot was empty. */
  lemma HandedOverConserved(total: nat, published: seq<seq<byte>>, owed: nat, w: WriterState,
                            pending: seq<seq<byte>>, chunk: seq<byte>)
    requires Conserved(total, published, |chunk| + owed, w, pending) && |pending| <= 1 && chunk != []
    ensures Conserved(total, published + [chunk], owed, w, [chunk])
  {
    if pending == [] {
      assert w.emitted + pending == w.emitted;
    } else {
      assert (w.emitted + pending)[..|w.emitted + pending| - 1] == w.emitted;
      SubsequenceDrop(w.emitted + pending, published);
    }
    SubsequenceKeeps(w.emitted, published, chunk);
    assert (published + [chunk])[..|published|] == published;
  }

  lemma HandedOverKeeps(c: Config, s: State, t: State)
    requires Inv(c, s) && HandedOver(c, s, t) && Control(t)
    ensures Inv(c, t)
  {
    HandedOverInStep(c, s, t);
    assert Pending(t) == [Pending(t)[0]];
    HandedOverConserved(c.total, s.reader.ref.published, Owed(t.reader.todo), s.writer, Pending(s), Pending(t)[0]);
  }

  lemma WroteOutConserved(
    total: nat, published: seq<seq<byte>>, owed: nat, w: WriterState, u: WriterState, pending: seq<seq<byte>>)
    requires Conserved(total, published, owed, w, pending) && |pending| <= 1
    requires u.emitted == w.emitted + pending && u.written == w.written + (if pending == [] then 0 else |pending[0]|)
    ensures Conserved(total, published, owed, u, [])
  {
    assert u.emitted + [] == u.emitted;
    if pending == [] {
      assert u.emitted == w.emitted;
    } else {
      assert u.emitted[..|w.emitted|] == w.emitted;
    }
  }

  predicate WritesOut(c: Config, s: State) { s.writer.at.WHeld? && !WriterLeaves(c, s) }

  lemma WriterKeeps(c: Config, s: State)
    requires Inv(c, s) && WriterEnabled(c, s)
    ensures Inv(c, WriterNext(c, s))
  {
    var t := WriterNext(c, s);
    WriterControl(c, s);
    WriterLeavesReader(c, s);
    if WritesOut(c, s) {
      assert t.writer.emitted == s.writer.emitted + Pending(s);
      WroteOutConserved(c.total, s.reader.ref.published, Owed(s.reader.todo), s.writer, t.writer, Pending(s));
    } else {
      assert Pending(t) == Pending(s);
    }
  }

  lemma WriterLeavesReader(c: Config, s: State)
    requires WriterEnabled(c, s)
    ensures WriterNext(c, s).reader == s.reader && WriterNext(c, s).output.file == s.output.file
    ensures if WritesOut(c, s)
            then WriterNext(c, s).shared.dataSize == 0 && WriterNext(c, s).output == Append(s.output, Slot(s)) &&
                 WriterNext(c, s).writer == WriterState(Wrote, s.writer.written + s.shared.dataSize,
                   if s.shared.dataSize > 0 then s.writer.emitted + [Slot(s)] else s.writer.emitted)
            else SameSlot(s.shared, WriterNext(c, s).shared) && WriterNext(c, s).output == s.output &&
                 WriterNext(c, s).writer == s.writer.(at := WriterNext(c, s).writer.at)
  {
  }

  lemma ReaderKeeps(c: Config, s: State)
    requires WellFormed(c) && Inv(c, s) && ReaderEnabled(s.reader, s.shared.lock) && DrainsEmpty(c, s)
    ensures Inv(c, ReaderNext(c, s))
  {
    var t := ReaderNext(c, s);
    ReaderControl(c, s);
    ReaderKind(c, s);
    if RunsHere(s) {
      RanKeeps(c, s, t);
    } else if HandsOver(s) {
      HandedOverKeeps(c, s, t);
    } else {
      QuietKeeps(c, s, t);
    }
  }

  lemma OtherKind(c: Config, s: State, e: Event)
    requires Control(s) && Enabled(c, s, e) && !e.ReaderStep? && !e.WriterStep? && !e.ReaderFill?
    ensures Quiet(s.reader, Next(c, s, e).reader) && SameSlot(s.shared, Next(c, s, e).shared)
    ensures Next(c, s, e).output == s.output && Next(c, s, e).writer == s.writer.(at := Next(c, s, e).writer.at)
  {
  }

  lemma OtherKeeps(c: Config, s: State, e: Event)
    requires Inv(c, s) && Enabled(c, s, e) && !e.ReaderStep? && !e.WriterStep? && !e.ReaderFill?
    ensures Inv(c, Next(c, s, e))
  {
    var t := Next(c, s, e);
    OtherControl(c, s, e);
    OtherKind(c, s, e);
    QuietInStep(c, s.reader, t.reader, s.output.file);
    assert Pending(t) == Pending(s);
  }

  /** Every step of every thread keeps the invariant. */
  lemma StepKeeps(c: Config, s: State, e: Event)
    requires WellFormed(c) && Inv(c, s) && Enabled(c, s, e) && (e.ReaderStep? ==> DrainsEmpty(c, s))
    ensures Inv(c, Next(c, s, e))
  {
    match e
    case ReaderStep => ReaderKeeps(c, s);
    case WriterStep => WriterKeeps(c, s);
    case ReaderFill(garbage) => OtherControl(c, s, e); RefillingKeeps(c, s, garbage);
    case _ => OtherKeeps(c, s, e);
  }

  lemma InitKeeps(c: Config)
    requires WellFormed(c)
    ensures Inv(c, Init(c))
  {
  }
}
