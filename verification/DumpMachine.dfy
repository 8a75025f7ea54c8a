// The threads behind every dump: a reader that fills two buffers in turn, a
// writer that empties a one-slot mailbox, and a supervisor that joins both and
// decides whether the dump succeeded.  One step here is one stretch of a
// thread's code between two points where another thread can be seen.
//
// The reader functions of the program differ only in the statements they run in
// front of the mailbox, so a reader is given as the list of those statements
// (`Op`), and the modules RawDump, ExtractedDump, RomFsDump and TreeDump build
// that list the way each reader function walks its source.
module DumpMachine {
  import opened Options
  import opened Sequences
  import Crc32

  type Path = string

  /** The two transfer buffers. */
  datatype Buffer = First | Second {
    function Other(): Buffer { if First? then Second else First }
  }

  /** What each buffer holds: the bytes of the block last read into it. */
  datatype Memory = Memory(first: seq<byte>, second: seq<byte>) {
    function Get(b: Buffer): seq<byte> { if b.First? then first else second }
    function Set(b: Buffer, bytes: seq<byte>): Memory {
      if b.First? then this.(first := bytes) else this.(second := bytes)
    }
  }

  /** The statements a reader thread is made of. */
  datatype Op =
    | Poll                                    // leave if the user has cancelled, and wake the writer
    | Check                                   // leave after any error or a cancellation, waking nobody
    | Lookup                                  // find an entry or open an input; may fail
    | Load(buf: Buffer, chunk: seq<byte>)     // read a block; may fail
    | Wipe(buf: Buffer, at: nat, len: nat)    // overwrite part of a buffer with 0xFF
    | Checksum(buf: Buffer, full: bool)       // extend the running checksums
    | Publish(buf: Buffer, size: nat)         // wait for the slot, then hand a buffer over
    | Drain                                   // wait for the slot before touching the file
    | FinalDrain                              // wait for the slot before returning
    | Close                                   // close the output file
    | Open(path: Path)                        // open the next output file; may fail
    | StopIfWritten                           // leave the loop once every byte is written

  /**
   * How far the condition variables are trusted.  `Fused`: releasing the mutex
   * and waking are one step, and a wait returns only when woken.  `Late`: the
   * wake follows the release as a step of its own, as the code has it.
   * `Spurious`: besides that, a wait may return at any time.
   */
  datatype Wake = Spurious | Late | Fused

  datatype Config = Config(
    program: seq<Op>,
    epilogue: seq<Op>,           // what StopIfWritten jumps to
    total: nat,
    usb: bool,
    wake: Wake,
    file: Option<Path>,          // the output file that is open at the start
    disk: map<Path, seq<byte>>,  // what is on the output device at the start
    fullSeed: Crc32.Crc          // checksum of what precedes the dump in its file
  )

  /** What the reader keeps for itself: its buffers and the running checksums. */
  datatype Work = Work(mem: Memory, crc: Crc32.Crc, fullCrc: Crc32.Crc)

  /** The output file that is open and what has reached the output device. */
  datatype Output = Output(file: Option<Path>, disk: map<Path, seq<byte>>)

  function Overwrite(bytes: seq<byte>, at: nat, len: nat, value: byte): (r: seq<byte>)
    ensures |r| == |bytes|
    ensures forall k :: 0 <= k < |bytes| ==> r[k] == if at <= k < at + len then value else bytes[k]
  {
    seq(|bytes|, k requires 0 <= k < |bytes| => if at <= k < at + len then value else bytes[k])
  }

  function WorkStep(w: Work, op: Op): Work
  {
    match op
    case Load(b, chunk) => w.(mem := w.mem.Set(b, chunk))
    case Wipe(b, at, len) => w.(mem := w.mem.Set(b, Overwrite(w.mem.Get(b), at, len, 0xFF)))
    case Checksum(b, full) =>
      w.(crc := Crc32.WithSeed(w.crc, w.mem.Get(b)),
         fullCrc := if full then Crc32.WithSeed(w.fullCrc, w.mem.Get(b)) else w.fullCrc)
    case _ => w
  }

  function OutputStep(o: Output, op: Op): Output
  {
    if op.Close? then o.(file := None)
    else if op.Open? then Output(Some(op.path), o.disk[op.path := []])
    else o
  }

  function Append(o: Output, chunk: seq<byte>): Output
  {
    if o.file.None? then o
    else o.(disk := o.disk[o.file.value := (if o.file.value in o.disk then o.disk[o.file.value] else []) + chunk])
  }

  /**
   * The reader's program run on its own, each published block written at once.
   * This is the reference that the threads are compared with.  `live` is the
   * buffer that the writer may still be reading from, and `passed` tells whether
   * the reader has waited for the slot since the last block.
   */
  datatype Ref = Ref(work: Work, published: seq<seq<byte>>, live: Option<Buffer>, passed: bool, output: Output)

  function RefInit(c: Config): Ref
  {
    Ref(Work(Memory([], []), 0, c.fullSeed), [], None, false, Output(c.file, c.disk))
  }

  function RefStep(c: Config, g: Ref, op: Op): Ref
  {
    if op.Publish? then
      var chunk := g.work.mem.Get(op.buf);
      Ref(g.work, g.published + [chunk], Some(op.buf), false, Append(g.output, chunk))
    else
      Ref(WorkStep(g.work, op), g.published, LiveStep(c, g, op), g.passed || Waits(op), OutputStep(g.output, op))
  }

  /**
   * Whether a wait that returns is sure to leave the slot empty, with `published`
   * blocks handed over so far.  With fused wakes it always is.  With late wakes
   * the wake for the block before the one waited for may still be under way, and
   * with spurious ones nothing can be said once there is a block.
   */
  predicate Settles(wake: Wake, published: nat)
  {
    wake.Fused? || published <= if wake.Late? then 1 else 0
  }

  /** A statement that waits until the slot is empty and leaves it so. */
  predicate Waits(op: Op) { op.Drain? || op.FinalDrain? }

  /**
   * Whether the slot is sure to be empty behind the next wait.  A late wake lets
   * only one wait pass, so behind the second one for the same block it is.
   */
  predicate Frees(wake: Wake, g: Ref)
  {
    g.live.None? || Settles(wake, |g.published|) || (wake.Late? && g.passed)
  }

  function LiveStep(c: Config, g: Ref, op: Op): Option<Buffer>
  {
    if Waits(op) && Frees(c.wake, g) then None else g.live
  }

  function RefRun(c: Config, g: Ref, ops: seq<Op>): Ref
    decreases |ops|
  {
    if ops == [] then g else RefRun(c, RefStep(c, g, ops[0]), ops[1..])
  }

  lemma {:induction false} RefRunAppend(c: Config, g: Ref, a: seq<Op>, b: seq<Op>)
    ensures RefRun(c, g, a + b) == RefRun(c, RefRun(c, g, a), b)
    decreases |a|
  {
    if a == [] {
      assert a + b == b;
    } else {
      assert (a + b)[0] == a[0] && (a + b)[1..] == a[1..] + b;
      RefRunAppend(c, RefStep(c, g, a[0]), a[1..], b);
    }
  }

  /**
   * What a reader function owes the mailbox: it never reads into the buffer the
   * writer may be using, hands over exactly the block it read, has a file open
   * when it does, and opens another file only when the slot is known to be empty.
   * If waits cannot be relied on, it may close a file under a pending block: the
   * writer then leaves and the dump does not succeed.
   */
  predicate OpSafe(c: Config, g: Ref, op: Op)
  {
    match op
    case Load(b, _) => g.live != Some(b)
    case Wipe(b, _, _) => g.live != Some(b)
    case Publish(b, size) => 0 < size == |g.work.mem.Get(b)| && g.output.file.Some?
    case Close => g.live.None? || (!Settles(c.wake, |g.published|) && !c.usb)
    case Open(_) => g.live.None?
    case _ => true
  }

  predicate SafeFrom(c: Config, g: Ref, ops: seq<Op>)
    decreases |ops|
  {
    ops == [] ||
    (OpSafe(c, g, ops[0]) && SafeFrom(c, RefStep(c, g, ops[0]), ops[1..]))
  }

  /** Jumping from any StopIfWritten in `ops` to the epilogue is safe, and not a longer way out. */
  predicate StopsSafe(c: Config, g: Ref, ops: seq<Op>)
    decreases |ops|
  {
    ops == [] ||
    ((ops[0].StopIfWritten? ==> |c.epilogue| < |ops| && SafeFrom(c, g, c.epilogue)) &&
     StopsSafe(c, RefStep(c, g, ops[0]), ops[1..]))
  }

  /** The bytes that `ops` still has to publish. */
  function Owed(ops: seq<Op>): nat
  {
    if ops == [] then 0 else (if ops[0].Publish? then ops[0].size else 0) + Owed(ops[1..])
  }

  lemma {:induction false} OwedAppend(a: seq<Op>, b: seq<Op>)
    ensures Owed(a + b) == Owed(a) + Owed(b)
  {
    if a == [] {
      assert a + b == b;
    } else {
      assert (a + b)[0] == a[0] && (a + b)[1..] == a[1..] + b;
      OwedAppend(a[1..], b);
    }
  }

  predicate NoStop(ops: seq<Op>)
  {
    forall i :: 0 <= i < |ops| ==> !ops[i].StopIfWritten?
  }

  predicate KeepsFile(ops: seq<Op>)
  {
    forall i :: 0 <= i < |ops| ==> !ops[i].Close? && !ops[i].Open?
  }

  ghost predicate WellFormed(c: Config)
  {
    (c.file.Some? ==> c.file.value in c.disk) &&
    SafeFrom(c, RefInit(c), c.program) && StopsSafe(c, RefInit(c), c.program) &&
    Owed(c.program) == c.total && Owed(c.epilogue) == 0 && NoStop(c.epilogue)
  }

  // ---------------------------------------------------------------- threads

  datatype Owner = Nobody | Reader | Writer

  datatype ReaderAt =
    | Idle        // about to run the next statement
    | Filling     // a read into a buffer is under way
    | Clear       // no error seen, about to take the mutex one last time
    | Locked      // holds the mutex, has not looked at the slot
    | Waiting     // in condvarWait on the read condvar
    | Held        // holds the mutex, past the wait
    | Drained     // released the mutex, about to look at write_error
    | Waking      // published and released, about to wake the writer
    | Leaving     // saw an error or a cancellation, about to wake the writer
    | ReaderDone

  datatype WriterAt =
    | Top         // about to test the loop condition
    | WLocked     // holds the mutex, has not looked at the slot
    | Sleepy      // found the slot empty, about to wait
    | WWaiting    // in condvarWait on the write condvar
    | WHeld       // holds the mutex, past the wait
    | Wrote       // wrote (or failed to), still holds the mutex
    | WWaking     // released the mutex, about to wake the reader
    | WriterDone

  datatype SupervisorAt = Polling | JoinReader | JoinWriter | Ended(success: bool)

  /** What only the reader changes; `ref` is the reference run of `done`. */
  datatype ReaderState = ReaderState(
    at: ReaderAt, todo: seq<Op>, done: seq<Op>, work: Work, ref: Ref)

  /** What only the writer changes; `emitted` lists the non-empty blocks it wrote. */
  datatype WriterState = WriterState(at: WriterAt, written: nat, emitted: seq<seq<byte>>)

  /** The fields that more than one thread changes, and which sleepers have been woken. */
  datatype Shared = Shared(
    lock: Owner, data: Buffer, dataSize: nat,
    readError: bool, writeError: bool, cancelled: bool,
    readerWoken: bool, writerWoken: bool
  )

  datatype State = State(
    reader: ReaderState, writer: WriterState, shared: Shared, output: Output, supervisor: SupervisorAt)

  function Init(c: Config): State
  {
    State(ReaderState(Idle, c.program, [], RefInit(c).work, RefInit(c)),
          WriterState(Top, 0, []),
          Shared(Nobody, First, 0, false, false, false, false, false),
          RefInit(c).output,
          Polling)
  }

  /** The moves of the three threads; the environment picks which and, in part, how. */
  datatype Event =
    | ReaderStep
    | ReaderFill(garbage: seq<byte>)   // start a read; the buffer is unreliable until it ends
    | ReaderFail                       // a read, a lookup or an open fails
    | ReaderResume                     // condvarWait returns in the reader
    | WriterStep
    | WriterFail                       // the write fails
    | WriterResume                     // condvarWait returns in the writer
    | Cancel                           // the user cancels, and the supervisor stops polling
    | StopPolling                      // the supervisor's loop condition fails
    | JoinNext                         // the supervisor joins the thread it waits for

  predicate Enabled(c: Config, s: State, e: Event)
  {
    match e
    case ReaderStep => ReaderEnabled(s.reader, s.shared.lock)
    case ReaderFill(_) => s.reader.at.Idle? && s.reader.todo != [] && s.reader.todo[0].Load?
    case ReaderFail => ReaderMayFail(s.reader)
    case ReaderResume => s.reader.at.Waiting? && s.shared.lock.Nobody? && (c.wake.Spurious? || s.shared.readerWoken)
    case WriterStep => WriterEnabled(c, s)
    case WriterFail => s.writer.at.WHeld? && !WriterLeaves(c, s)
    case WriterResume => s.writer.at.WWaiting? && s.shared.lock.Nobody? && (c.wake.Spurious? || s.shared.writerWoken)
    case Cancel => s.supervisor.Polling? && s.shared.lock.Nobody?
    case StopPolling => s.supervisor.Polling? && (s.writer.written >= c.total || Failed(s.shared))
    case JoinNext =>
      (s.supervisor.JoinReader? && s.reader.at.ReaderDone?) || (s.supervisor.JoinWriter? && s.writer.at.WriterDone?)
  }

  predicate Failed(m: Shared) { m.readError || m.writeError || m.cancelled }

  predicate ReaderEnabled(r: ReaderState, lock: Owner)
  {
    match r.at
    case Idle => r.todo == [] || (!r.todo[0].Load? && (r.todo[0].Publish? || r.todo[0].Drain? ==> lock.Nobody?))
    case Clear => lock.Nobody?
    case Waiting => false
    case ReaderDone => false
    case Filling => r.todo != [] && r.todo[0].Load?
    case Waking => true
    case Leaving => true
    case _ => r.todo != []
  }

  predicate ReaderMayFail(r: ReaderState)
  {
    r.at.Filling? || (r.at.Idle? && r.todo != [] && (r.todo[0].Lookup? || r.todo[0].Open?))
  }

  predicate WriterEnabled(c: Config, s: State)
  {
    match s.writer.at
    case Top => s.writer.written < c.total ==> s.shared.lock.Nobody?
    // The USB transfer refuses an empty block, a file write accepts it.
    case WHeld => WriterLeaves(c, s) || !c.usb || s.shared.dataSize > 0
    case WWaiting => false
    case WriterDone => false
    case _ => true
  }

  /** The test after the writer's wait; for output files it also leaves when none is open. */
  predicate WriterLeaves(c: Config, s: State)
  {
    s.shared.readError || s.shared.cancelled || (!c.usb && s.output.file.None?)
  }

  function Next(c: Config, s: State, e: Event): State
    requires Enabled(c, s, e)
  {
    match e
    case ReaderStep => ReaderNext(c, s)
    case ReaderFill(garbage) =>
      s.(reader := s.reader.(at := Filling, work := WorkStep(s.reader.work, Load(s.reader.todo[0].buf, garbage))))
    case ReaderFail =>
      s.(reader := s.reader.(at := Leaving), shared := s.shared.(readError := true))
    case ReaderResume => s.(reader := s.reader.(at := Held), shared := s.shared.(lock := Reader))
    case WriterStep => WriterNext(c, s)
    case WriterFail => s.(writer := s.writer.(at := Wrote), shared := s.shared.(writeError := true))
    case WriterResume => s.(writer := s.writer.(at := WHeld), shared := s.shared.(lock := Writer))
    case Cancel => s.(shared := s.shared.(cancelled := true), supervisor := JoinReader)
    case StopPolling => s.(supervisor := JoinReader)
    case JoinNext =>
      if s.supervisor.JoinReader? then s.(supervisor := JoinWriter) else s.(supervisor := Ended(!Failed(s.shared)))
  }

  function WakeWriter(m: Shared, w: WriterAt): Shared { m.(writerWoken := m.writerWoken || w.WWaiting?) }

  function WakeReader(m: Shared, r: ReaderAt): Shared { m.(readerWoken := m.readerWoken || r.Waiting?) }

  /** The reader past the statement at the front of `todo`. */
  function Past(c: Config, r: ReaderState): ReaderState
    requires r.todo != []
  {
    ReaderState(Idle, r.todo[1..], r.done + [r.todo[0]], WorkStep(r.work, r.todo[0]), RefStep(c, r.ref, r.todo[0]))
  }

  function ReaderNext(c: Config, s: State): State
    requires ReaderEnabled(s.reader, s.shared.lock)
  {
    var r, m := s.reader, s.shared;
    match r.at
    case Idle => if r.todo == [] then s.(reader := r.(at := ReaderDone)) else ReaderStarts(c, s)
    case Filling => s.(reader := Past(c, r))
    case Clear => s.(reader := r.(at := Locked), shared := m.(lock := Reader))
    case Locked =>
      if m.dataSize > 0 && (r.todo[0].FinalDrain? || !m.writeError)
      then s.(reader := r.(at := Waiting), shared := m.(lock := Nobody, readerWoken := false))
      else s.(reader := r.(at := Held))
    case Held => ReaderHolds(c, s)
    case Drained => s.(reader := if m.writeError then r.(at := ReaderDone) else Past(c, r))
    case Waking => s.(reader := r.(at := Idle), shared := WakeWriter(m, s.writer.at))
    case Leaving => s.(reader := r.(at := ReaderDone), shared := WakeWriter(m, s.writer.at))
  }

  function ReaderStarts(c: Config, s: State): State
    requires s.reader.todo != []
  {
    var r, m, op := s.reader, s.shared, s.reader.todo[0];
    if op.Poll? && m.cancelled then s.(reader := r.(at := Leaving))
    else if op.Check? && Failed(m) then s.(reader := r.(at := ReaderDone))
    else if op.Publish? || op.Drain? then s.(reader := r.(at := Locked), shared := m.(lock := Reader))
    // Past an error the remaining statements only close and delete the output.
    else if op.FinalDrain? then s.(reader := r.(at := if Failed(m) then ReaderDone else Clear))
    else if op.StopIfWritten? && s.writer.written >= c.total then s.(reader := Past(c, r).(todo := c.epilogue))
    else s.(reader := Past(c, r), output := OutputStep(s.output, op))
  }

  function ReaderHolds(c: Config, s: State): State
    requires s.reader.todo != []
  {
    var r, free, op := s.reader, s.shared.(lock := Nobody), s.reader.todo[0];
    if op.Drain? then s.(reader := r.(at := Drained), shared := free)
    else if free.writeError then s.(reader := r.(at := ReaderDone), shared := free)
    else if op.Publish? then
      var handed := free.(data := op.buf, dataSize := op.size);
      if c.wake.Fused? then s.(reader := Past(c, r), shared := WakeWriter(handed, s.writer.at))
      else s.(reader := Past(c, r).(at := Waking), shared := handed)
    else s.(reader := Past(c, r), shared := free)
  }

  /** The bytes in the slot. */
  function Slot(s: State): seq<byte>
  {
    var bytes := s.reader.work.mem.Get(s.shared.data);
    if s.shared.dataSize <= |bytes| then bytes[..s.shared.dataSize] else bytes
  }

  function WriterNext(c: Config, s: State): State
    requires WriterEnabled(c, s)
  {
    var w, m := s.writer, s.shared;
    match w.at
    case Top =>
      if w.written < c.total then s.(writer := w.(at := WLocked), shared := m.(lock := Writer))
      else s.(writer := w.(at := WriterDone))
    case WLocked => s.(writer := w.(at := if m.dataSize == 0 && !m.readError then Sleepy else WHeld))
    case Sleepy => s.(writer := w.(at := WWaiting), shared := m.(lock := Nobody, writerWoken := false))
    case WHeld =>
      if WriterLeaves(c, s) then s.(writer := w.(at := WriterDone), shared := m.(lock := Nobody))
      else
        s.(writer := WriterState(Wrote, w.written + m.dataSize, if m.dataSize > 0 then w.emitted + [Slot(s)] else w.emitted),
           shared := m.(dataSize := 0),
           output := Append(s.output, Slot(s)))
    case Wrote =>
      var free := m.(lock := Nobody);
      if c.wake.Fused? then s.(writer := w.(at := WriterLoops(m)), shared := WakeReader(free, s.reader.at))
      else s.(writer := w.(at := WWaking), shared := free)
    case WWaking => s.(writer := w.(at := WriterLoops(m)), shared := WakeReader(m, s.reader.at))
  }

  function WriterLoops(m: Shared): WriterAt { if m.writeError then WriterDone else Top }

  /** The state after a run, if every event of it was enabled in turn. */
  function Exec(c: Config, run: seq<Event>): Option<State>
    decreases |run|
  {
    if run == [] then Some(Init(c))
    else
      match Exec(c, run[..|run| - 1])
      case None => None
      case Some(s) => if Enabled(c, s, run[|run| - 1]) then Some(Next(c, s, run[|run| - 1])) else None
  }

  ghost predicate Reachable(c: Config, s: State)
  {
    exists run :: Exec(c, run) == Some(s)
  }

  lemma InitReachable(c: Config)
    ensures Reachable(c, Init(c))
  {
    assert Exec(c, []) == Some(Init(c));
  }

  lemma NextReachable(c: Config, s: State, e: Event)
    requires Reachable(c, s) && Enabled(c, s, e)
    ensures Reachable(c, Next(c, s, e))
  {
    var run :| Exec(c, run) == Some(s);
    assert (run + [e])[..|run|] == run;
    assert Exec(c, run + [e]) == Some(Next(c, s, e));
  }
}
