// When the dump threads come to rest, and the exact ways they can hang.
module DumpLiveness {
  import opened Sequences
  import opened DumpMachine
  import opened DumpInvariants
  import opened DumpOrder
  import opened DumpTheorems
  import opened AnyReader

  function ReaderRank(at: ReaderAt): nat
  {
    match at
    case Idle => 16
    case Clear => 15
    case Locked => 14
    case Waiting => 13
    case Filling => 12
    case Held => 12
    case Drained => 11
    case Waking => 27
    case Leaving => 11
    case ReaderDone => 0
  }

  /** A wake that is still to come costs the writer one more turn of its loop, even if there is nothing to write. */
  function WriterRank(c: Config, at: WriterAt, m: Shared): nat
  {
    match at
    case Top => 7
    case WLocked => 6
    case Sleepy => 5
    case WWaiting => if m.writerWoken then 14 else 4
    case WHeld => if m.dataSize == 0 && !m.readError && !c.usb then 13 else 3
    case Wrote => if m.writeError then 2 else 9
    case WWaking => if m.writeError then 1 else 8
    case WriterDone => 0
  }

  /** Statements and bytes still to go, and how far each thread is into its current one. */
  function Measure(c: Config, s: State): int
  {
    20 * |s.reader.todo| + ReaderRank(s.reader.at) +
    10 * (c.total - s.writer.written) + WriterRank(c, s.writer.at, s.shared)
  }

  predicate WorkerEvent(e: Event)
  {
    e.ReaderStep? || e.ReaderFill? || e.ReaderFail? || e.ReaderResume? || e.WriterStep? || e.WriterFail? || e.WriterResume?
  }

  function WorkerSteps(run: seq<Event>): nat
  {
    if run == [] then 0
    else WorkerSteps(run[..|run| - 1]) + (if WorkerEvent(run[|run| - 1]) then 1 else 0)
  }

  /** What a reader step can do to the writer: wake it, or fill the slot while it does not hold the mutex. */
  lemma ReaderDisturbs(c: Config, s: State)
    requires Control(s) && ReaderEnabled(s.reader, s.shared.lock)
    ensures var t := ReaderNext(c, s);
      WriterRank(c, s.writer.at, t.shared) <= WriterRank(c, s.writer.at, s.shared) +
        if s.reader.at.Waking? || s.reader.at.Leaving? || (c.wake.Fused? && HandsOver(s)) then 10 else 0
  {
    ReaderKind(c, s);
  }

  /** Finishing a statement, or jumping to the epilogue, outweighs any change of place. */
  lemma RanMeasure(c: Config, s: State, t: State)
    requires s.reader.todo != [] && t.writer == s.writer && |t.reader.todo| < |s.reader.todo|
    requires ReaderRank(s.reader.at) >= 11
    requires t.reader.at.Idle? || t.reader.at.Waking?
    requires WriterRank(c, t.writer.at, t.shared) <=
      WriterRank(c, s.writer.at, s.shared) + if t.reader.at.Idle? then 10 else 0
    ensures Measure(c, t) < Measure(c, s)
  {
  }

  lemma QuietRank(c: Config, s: State)
    requires Control(s) && ReaderEnabled(s.reader, s.shared.lock) && !RunsHere(s) && !HandsOver(s)
    ensures ReaderRank(ReaderNext(c, s).reader.at) +
      (if s.reader.at.Waking? || s.reader.at.Leaving? then 10 else 0) < ReaderRank(s.reader.at)
  {
  }

  lemma ReaderMeasure(c: Config, s: State)
    requires WellFormed(c) && Orderly(c, s) && ReaderEnabled(s.reader, s.shared.lock)
    ensures Measure(c, ReaderNext(c, s)) < Measure(c, s)
  {
    ReaderKind(c, s);
    ReaderLeavesWriter(c, s);
    ReaderDisturbs(c, s);
    if RunsHere(s) || HandsOver(s) {
      SafeNext(c, s.reader);
      HandsOverTo(c, s);
      RanMeasure(c, s, ReaderNext(c, s));
    } else {
      QuietRank(c, s);
    }
  }

  lemma HandsOverTo(c: Config, s: State)
    requires Control(s) && ReaderEnabled(s.reader, s.shared.lock) && (RunsHere(s) || HandsOver(s))
    ensures ReaderNext(c, s).reader.at == (if HandsOver(s) && !c.wake.Fused? then Waking else Idle)
    ensures !s.reader.at.Waking? && !s.reader.at.Leaving?
  {
  }

  lemma WriterMeasure(c: Config, s: State)
    requires Control(s) && WriterEnabled(c, s)
    ensures Measure(c, WriterNext(c, s)) < Measure(c, s)
  {
    WriterLeavesReader(c, s);
  }

  lemma OtherMeasure(c: Config, s: State, e: Event)
    requires (c.wake.Spurious? ==> c.usb) && Control(s)
    requires Enabled(c, s, e) && !e.ReaderStep? && !e.WriterStep?
    ensures Measure(c, Next(c, s, e)) <= Measure(c, s)
    ensures WorkerEvent(e) ==> Measure(c, Next(c, s, e)) < Measure(c, s)
  {
  }

  /**
   * Unless waits return without a wake and the output is a file, which takes an
   * empty block any number of times, the two worker threads take a bounded number of
   * steps in any run, whatever fails and whenever the user cancels.
   */
  lemma {:induction false} StepsBounded(c: Config, run: seq<Event>)
    requires WellFormed(c) && (c.wake.Spurious? ==> c.usb) && Exec(c, run).Some?
    ensures WorkerSteps(run) + Measure(c, Exec(c, run).value) <= Measure(c, Init(c)) == 20 * |c.program| + 10 * c.total + 23
    ensures WorkerSteps(run) <= 20 * |c.program| + 10 * c.total + 23
    decreases |run|
  {
    RunSound(c, run);
    NeverNegative(c, Exec(c, run).value);
    if run != [] {
      var shorter, e := run[..|run| - 1], run[|run| - 1];
      var s := Exec(c, shorter).value;
      StepsBounded(c, shorter);
      RunSound(c, shorter);
      match e
      case ReaderStep => ReaderMeasure(c, s);
      case WriterStep => WriterMeasure(c, s);
      case _ => OtherMeasure(c, s, e);
    }
  }

  lemma NeverNegative(c: Config, s: State)
    requires Sound(c, s)
    ensures s.writer.written <= c.total && Measure(c, s) >= 0
  {
    EmittedIsPart(s);
    SubsequenceBytes(s.writer.emitted, s.reader.ref.published);
  }

  // ------------------------------------------------------------- deadlocks

  /** What rules a hang out, or in: who sleeps unwoken has a reason, or a wake is on its way. */
  predicate Awake(c: Config, s: State)
  {
    ((WriterHasLock(s.writer.at) && !s.writer.at.Wrote?) || s.writer.at.WWaiting? ==> s.writer.written < c.total) &&
    (s.shared.readError ==> s.reader.at.Leaving? || s.reader.at.ReaderDone?) &&
    (s.reader.at.Waiting? && !s.shared.readerWoken ==>
       (s.shared.dataSize > 0 || WakesReader(s.writer.at)) &&
       (s.shared.writeError ==> WakesReader(s.writer.at) || AtLastDrain(s.reader))) &&
    (s.writer.at.Sleepy? ==> s.shared.dataSize == 0) &&
    (s.writer.at.WWaiting? && !s.shared.writerWoken ==> s.shared.dataSize == 0 || s.reader.at.Waking?)
  }

  predicate AtLastDrain(r: ReaderState) { r.todo != [] && r.todo[0].FinalDrain? }

  predicate WakesReader(at: WriterAt) { at.Wrote? || at.WWaking? }

  lemma ReaderStartsAwake(c: Config, s: State)
    requires Control(s) && Awake(c, s) && s.reader.at.Idle? && s.reader.todo != []
    requires ReaderEnabled(s.reader, s.shared.lock)
    ensures Awake(c, ReaderStarts(c, s))
  {
    hide OutputStep, RefStep, WorkStep;
  }

  lemma ReaderHoldsAwake(c: Config, s: State)
    requires Control(s) && Awake(c, s) && s.reader.at.Held?
    ensures Awake(c, ReaderHolds(c, s))
  {
    hide RefStep, WorkStep;
  }

  lemma ReaderAwake(c: Config, s: State)
    requires Control(s) && Awake(c, s) && ReaderEnabled(s.reader, s.shared.lock)
    ensures Awake(c, ReaderNext(c, s))
  {
    hide ReaderStarts, ReaderHolds, RefStep, WorkStep;
    if s.reader.at.Idle? && s.reader.todo != [] {
      ReaderStartsAwake(c, s);
    } else if s.reader.at.Held? {
      ReaderHoldsAwake(c, s);
    }
  }

  lemma WriterAwake(c: Config, s: State)
    requires Control(s) && Awake(c, s) && WriterEnabled(c, s)
    ensures Awake(c, WriterNext(c, s))
  {
  }

  lemma OtherAwake(c: Config, s: State, e: Event)
    requires Control(s) && Awake(c, s) && Enabled(c, s, e) && !e.ReaderStep? && !e.WriterStep?
    ensures Awake(c, Next(c, s, e))
  {
  }

  lemma {:induction false} RunAwake(c: Config, run: seq<Event>)
    requires Exec(c, run).Some?
    ensures Awake(c, Exec(c, run).value)
    decreases |run|
  {
    if run != [] {
      var s, e := Exec(c, run[..|run| - 1]).value, run[|run| - 1];
      RunControl(c, run[..|run| - 1]);
      RunAwake(c, run[..|run| - 1]);
      match e
      case ReaderStep => ReaderAwake(c, s);
      case WriterStep => WriterAwake(c, s);
      case _ => OtherAwake(c, s, e);
    }
  }

  /** Neither worker can move. */
  ghost predicate AtRest(c: Config, s: State)
  {
    forall e :: WorkerEvent(e) ==> !Enabled(c, s, e)
  }

  /** Neither worker can move, and at least one of them has not finished. */
  ghost predicate Hung(c: Config, s: State)
  {
    !(s.reader.at.ReaderDone? && s.writer.at.WriterDone?) && AtRest(c, s)
  }

  /** The reader sleeps, unwoken, and the writer has ended. */
  predicate ReaderAlone(s: State) { s.reader.at.Waiting? && !s.shared.readerWoken && s.writer.at.WriterDone? }

  /** The writer left because of a cancellation or, with the reader at the last drain, a failed write. */
  predicate ReaderStranded(s: State)
  {
    ReaderAlone(s) && (s.shared.cancelled || (s.shared.writeError && AtLastDrain(s.reader)))
  }

  /** The writer left because it found no file open. */
  predicate ReaderAbandoned(s: State) { ReaderAlone(s) && !Failed(s.shared) }

  /**
   * The writer sleeps for a reader that left because of a cancellation or a failed
   * read, or that has handed over everything, part of it onto a full slot.
   */
  predicate WriterStranded(s: State, lost: nat)
  {
    s.reader.at.ReaderDone? && s.writer.at.WWaiting? && !s.shared.writerWoken &&
    (s.shared.cancelled || s.shared.readError || lost > 0)
  }

  lemma HungThreads(c: Config, s: State)
    requires Control(s) && Awake(c, s) && Hung(c, s)
    ensures s.reader.at.ReaderDone? || (s.reader.at.Waiting? && !s.shared.readerWoken && s.shared.dataSize > 0)
    ensures s.writer.at.WriterDone? || (s.writer.at.WWaiting? && !s.shared.writerWoken && s.shared.dataSize == 0)
    ensures !(s.reader.at.ReaderDone? && s.writer.at.WriterDone?) && !c.wake.Spurious?
  {
    assert !Enabled(c, s, ReaderStep) && !Enabled(c, s, ReaderFill([])) && !Enabled(c, s, ReaderResume);
    assert !Enabled(c, s, WriterStep) && !Enabled(c, s, WriterFail) && !Enabled(c, s, WriterResume);
  }

  /** A writer asleep after the reader has finished: something went wrong. */
  lemma WriterHasReason(c: Config, s: State, lost: nat)
    requires Control(s) && Kept(c, s, lost) && Awake(c, s)
    requires s.reader.at.ReaderDone? && s.writer.at.WWaiting? && s.shared.dataSize == 0
    ensures s.shared.cancelled || s.shared.readError || lost > 0
  {
  }

  /** A reader asleep after the writer has finished, with no file ever closed too early: something failed. */
  lemma ReaderHasReason(c: Config, s: State)
    requires Sound(c, s) && KeepsOpen(c) && s.writer.at.WriterDone? && s.shared.dataSize > 0
    ensures Failed(s.shared)
  {
    if s.writer.written >= c.total {
      AllWritten(c, s);
    }
  }

  lemma StrandedIsHung(c: Config, s: State, lost: nat)
    requires !c.wake.Spurious? && (ReaderStranded(s) || ReaderAbandoned(s) || WriterStranded(s, lost))
    ensures Hung(c, s)
  {
  }

  /**
   * If no wait returns unasked, these are the ways to hang, for every reader.  A
   * reader is abandoned with a block in the slot, and if nothing fails and no block
   * is overwritten there is no other way.
   */
  lemma OnlyStrandings(c: Config, run: seq<Event>)
    requires Accounted(c) && !c.wake.Spurious? && Exec(c, run).Some?
    ensures var s := Exec(c, run).value;
      (Hung(c, s) <==> ReaderStranded(s) || ReaderAbandoned(s) || WriterStranded(s, Overwritten(c, run))) &&
      (ReaderAbandoned(s) ==> s.shared.dataSize > 0 && s.writer.written < c.total)
  {
    RunControl(c, run);
    RunKept(c, run);
    RunAwake(c, run);
    var s := Exec(c, run).value;
    if ReaderStranded(s) || ReaderAbandoned(s) || WriterStranded(s, Overwritten(c, run)) {
      StrandedIsHung(c, s, Overwritten(c, run));
    } else if Hung(c, s) {
      HungThreads(c, s);
      if s.writer.at.WWaiting? {
        WriterHasReason(c, s, Overwritten(c, run));
      }
    }
  }

  /** A reader is never abandoned if wakes are fused or there is only one file. */
  lemma NeverAbandoned(c: Config, run: seq<Event>)
    requires WellFormed(c) && KeepsOpen(c) && Exec(c, run).Some?
    ensures !ReaderAbandoned(Exec(c, run).value)
  {
    RunSound(c, run);
    RunAwake(c, run);
    var s := Exec(c, run).value;
    if ReaderAbandoned(s) {
      ReaderHasReason(c, s);
    }
  }

  /**
   * Threads at rest without a failure or a cancellation have written everything,
   * unless a block was overwritten; with fused wakes none ever is.
   */
  lemma RestsComplete(c: Config, run: seq<Event>)
    requires WellFormed(c) && KeepsOpen(c) && Exec(c, run).Some?
    requires AtRest(c, Exec(c, run).value) && !Failed(Exec(c, run).value.shared) && Overwritten(c, run) == 0
    ensures var s := Exec(c, run).value;
      s.reader.at.ReaderDone? && s.writer.at.WriterDone? && s.writer.written == c.total &&
      s.output == RefRun(c, RefInit(c), s.reader.done).output
  {
    RunSound(c, run);
    LostIsOverwritten(c, run);
    var s := Exec(c, run).value;
    if s.reader.at.ReaderDone? && s.writer.at.WriterDone? {
      AllWritten(c, s);
    } else {
      RunAwake(c, run);
      HangHasReason(c, s);
    }
  }

  /** With nothing failed, cancelled or overwritten there is no hang. */
  lemma HangHasReason(c: Config, s: State)
    requires Sound(c, s) && Awake(c, s) && KeepsOpen(c) && Hung(c, s)
    ensures Failed(s.shared) || Lost(s) > 0
  {
    hide Hung, Sound, Awake, KeepsOpen;
    SoundControl(c, s);
    HungThreads(c, s);
    if s.writer.at.WriterDone? {
      ReaderHasReason(c, s);
    } else if !Failed(s.shared) {
      AsleepUnfinished(c, s);
      ReaderSaidAll(c, s);
    }
  }

  lemma AsleepUnfinished(c: Config, s: State)
    requires Awake(c, s) && s.writer.at.WWaiting?
    ensures s.writer.written < c.total
  {
  }

  lemma SoundControl(c: Config, s: State)
    requires Sound(c, s)
    ensures Control(s)
  {
  }

  lemma ReaderSaidAll(c: Config, s: State)
    requires Sound(c, s) && s.reader.at.ReaderDone? && !Failed(s.shared) && s.writer.written < c.total
    ensures Lost(s) > 0 || s.shared.dataSize > 0
  {
  }
}
