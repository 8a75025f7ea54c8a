// Schedules put together from stretches of the three threads.  They are used to
// show what the dump threads do not guarantee, whatever is being dumped.
module DumpSchedules {
  import opened Options
  import opened Sequences
  import opened DumpMachine
  import opened DumpInvariants
  import opened DumpLiveness
  import opened AnyReader

  lemma Go(c: Config, s: State, e: Event) returns (t: State)
    requires Reachable(c, s) && Enabled(c, s, e)
    ensures Reachable(c, t) && t == Next(c, s, e)
  {
    t := Next(c, s, e);
    NextReachable(c, s, e);
  }

  /** The reader is between statements, nothing has gone wrong, and nobody holds the mutex. */
  predicate Steady(s: State)
  {
    s.reader.at.Idle? && s.shared.lock.Nobody? && !Failed(s.shared) && s.supervisor.Polling? &&
    (s.writer.at.Top? || s.writer.at.WWaking?)
  }

  predicate Calm(s: State) { Steady(s) && s.shared.dataSize == 0 }

  /**
   * The statements still to run are those of a well-behaved reader, of which `g` is
   * the reference; `d` says which of its waits are relied on.
   */
  ghost predicate Tracks(c: Config, d: Config, s: State, g: Ref)
  {
    d == c.(wake := d.wake) && NoStop(d.epilogue) && Owed(d.epilogue) == 0 &&
    g.work == s.reader.work && g.output.file == s.output.file &&
    SafeFrom(d, g, s.reader.todo) && StopsSafe(d, g, s.reader.todo) &&
    s.writer.written + s.shared.dataSize + Owed(s.reader.todo) == c.total
  }

  lemma TracksNext(c: Config, d: Config, s: State, g: Ref)
    requires Tracks(c, d, s, g) && s.reader.todo != []
    ensures OpSafe(d, g, s.reader.todo[0])
    ensures var h := RefStep(d, g, s.reader.todo[0]);
      SafeFrom(d, h, s.reader.todo[1..]) && StopsSafe(d, h, s.reader.todo[1..])
  {
  }

  /** A statement that leaves the mutex alone. */
  predicate Private(op: Op)
  {
    op.Poll? || op.Check? || op.Lookup? || op.Load? || op.Wipe? || op.Checksum? || op.Close? || op.Open? || op.StopIfWritten?
  }

  /** Such a statement on its own, whatever the writer does and whatever is in the slot. */
  lemma StepsPrivate(c: Config, s: State) returns (t: State)
    requires Reachable(c, s) && s.reader.at.Idle? && !Failed(s.shared) && s.reader.todo != [] && Private(s.reader.todo[0])
    requires s.reader.todo[0].StopIfWritten? ==> s.writer.written < c.total
    ensures Reachable(c, t) && t == s.(reader := Past(c, s.reader), output := OutputStep(s.output, s.reader.todo[0]))
  {
    t := s;
    if s.reader.todo[0].Load? {
      t := Go(c, t, ReaderFill([]));
    }
    t := Go(c, t, ReaderStep);
  }

  /** A wait for the slot that finds it empty. */
  lemma PassesEmpty(c: Config, s: State) returns (t: State)
    requires Reachable(c, s) && s.reader.at.Idle? && !Failed(s.shared) && s.shared.lock.Nobody? && s.shared.dataSize == 0
    requires s.reader.todo != [] && Waits(s.reader.todo[0])
    ensures Reachable(c, t) && t == s.(reader := Past(c, s.reader))
  {
    t := Go(c, s, ReaderStep);
    t := Go(c, t, ReaderStep);
    t := Go(c, t, ReaderStep);
    t := Go(c, t, ReaderStep);
  }

  /** The reader alone, whatever is in the slot. */
  lemma RunsPrivate(c: Config, d: Config, s: State, g: Ref) returns (t: State)
    requires Reachable(c, s) && Steady(s) && Tracks(c, d, s, g) && s.reader.todo != [] && Private(s.reader.todo[0])
    requires s.reader.todo[0].StopIfWritten? ==> s.writer.written < c.total
    ensures var op := s.reader.todo[0];
      Reachable(c, t) && Steady(t) && Tracks(c, d, t, RefStep(d, g, op)) && t.reader.todo == s.reader.todo[1..] &&
      t.writer == s.writer && t.shared == s.shared && t.output == OutputStep(s.output, op)
  {
    TracksNext(c, d, s, g);
    t := StepsPrivate(c, s);
  }

  /** The reader hands a block over onto an empty slot, and has woken the writer. */
  lemma HandsBlockOver(c: Config, d: Config, s: State, g: Ref) returns (t: State)
    requires Reachable(c, s) && Calm(s) && Tracks(c, d, s, g) && s.reader.todo != [] && s.reader.todo[0].Publish?
    ensures var op := s.reader.todo[0];
      Reachable(c, t) && Steady(t) && Tracks(c, d, t, RefStep(d, g, op)) && t.reader.todo == s.reader.todo[1..] &&
      t.writer == s.writer && t.shared == s.shared.(data := op.buf, dataSize := op.size) && t.output == s.output &&
      Slot(t) == g.work.mem.Get(op.buf) && t.shared.dataSize > 0 && s.output.file.Some?
  {
    TracksNext(c, d, s, g);
    t := Go(c, s, ReaderStep);
    t := Go(c, t, ReaderStep);
    t := Go(c, t, ReaderStep);
    if !c.wake.Fused? {
      t := Go(c, t, ReaderStep);
    }
  }

  /** The writer empties the slot; unless wakes are fused it has not woken the reader yet. */
  lemma WritesBlock(c: Config, d: Config, s: State, g: Ref) returns (t: State)
    requires Reachable(c, s) && Steady(s) && Tracks(c, d, s, g) && s.shared.dataSize > 0 && s.output.file.Some?
    ensures Reachable(c, t) && Calm(t) && Tracks(c, d, t, g) && t.reader == s.reader && t.output == Append(s.output, Slot(s))
    ensures t.writer.at == (if c.wake.Fused? then Top else WWaking)
    ensures t.writer.written == s.writer.written + s.shared.dataSize
  {
    t := s;
    if s.writer.at.WWaking? {
      t := Go(c, t, WriterStep);
    }
    t := Go(c, t, WriterStep);
    t := Go(c, t, WriterStep);
    t := Go(c, t, WriterStep);
    t := Go(c, t, WriterStep);
  }

  lemma Drains(c: Config, d: Config, s: State, g: Ref) returns (t: State)
    requires Reachable(c, s) && Calm(s) && Tracks(c, d, s, g) && s.reader.todo != [] && Waits(s.reader.todo[0])
    ensures Reachable(c, t) && Calm(t) && Tracks(c, d, t, RefStep(d, g, s.reader.todo[0]))
    ensures t.reader.todo == s.reader.todo[1..] && t.writer == s.writer && t.shared == s.shared && t.output == s.output
  {
    TracksNext(c, d, s, g);
    t := PassesEmpty(c, s);
  }

  /** One statement of a reader that finds the slot empty, and the writer at once behind it. */
  lemma RunsOne(c: Config, d: Config, s: State, g: Ref) returns (t: State)
    requires Reachable(c, s) && Calm(s) && Tracks(c, d, s, g) && s.reader.todo != []
    requires s.reader.todo[0].StopIfWritten? ==> s.writer.written < c.total
    ensures var op := s.reader.todo[0];
      Reachable(c, t) && Calm(t) && Tracks(c, d, t, RefStep(d, g, op)) && t.reader.todo == s.reader.todo[1..] &&
      t.output == RefStep(d, g.(output := s.output), op).output &&
      t.writer.at == if op.Publish? then (if c.wake.Fused? then Top else WWaking) else s.writer.at
  {
    var op := s.reader.todo[0];
    if op.Publish? {
      t := HandsBlockOver(c, d, s, g);
      t := WritesBlock(c, d, t, RefStep(d, g, op));
    } else if Private(op) {
      t := RunsPrivate(c, d, s, g);
    } else {
      t := Drains(c, d, s, g);
    }
  }

  lemma SomethingLeft(c: Config, d: Config, s: State, g: Ref, ops: seq<Op>, rest: seq<Op>)
    requires Tracks(c, d, s, g) && s.reader.todo == ops + rest && Owed(rest) > 0
    ensures s.writer.written < c.total
  {
    OwedAppend(ops, rest);
  }

  /** The same for a list of statements that leaves something to be written. */
  lemma {:induction false} RunsAlone(c: Config, d: Config, s: State, g: Ref, ops: seq<Op>, rest: seq<Op>) returns (t: State)
    requires Reachable(c, s) && Calm(s) && Tracks(c, d, s, g) && s.reader.todo == ops + rest && Owed(rest) > 0
    ensures Reachable(c, t) && Calm(t) && Tracks(c, d, t, RefRun(d, g, ops)) && t.reader.todo == rest
    ensures s.output == g.output ==> t.output == RefRun(d, g, ops).output
    ensures !c.wake.Fused? && (s.writer.at.WWaking? || Owed(ops) > 0) ==> t.writer.at.WWaking?
    decreases |ops|
  {
    if ops == [] {
      assert ops + rest == rest;
      t := s;
    } else {
      SomethingLeft(c, d, s, g, ops, rest);
      hide SafeFrom, StopsSafe, Tracks, Reachable, RefStep, WorkStep, Slot;
      assert (ops + rest)[0] == ops[0] && (ops + rest)[1..] == ops[1..] + rest;
      t := RunsOne(c, d, s, g);
      t := RunsAlone(c, d, t, RefStep(d, g, ops[0]), ops[1..], rest);
    }
  }

  /** Private statements, with a block in the slot or not. */
  lemma {:induction false} RunsAllPrivate(c: Config, d: Config, s: State, g: Ref, ops: seq<Op>, rest: seq<Op>)
    returns (t: State)
    requires Reachable(c, s) && Steady(s) && Tracks(c, d, s, g) && s.reader.todo == ops + rest
    requires forall i :: 0 <= i < |ops| ==> Private(ops[i])
    requires s.writer.written < c.total
    ensures Reachable(c, t) && Steady(t) && Tracks(c, d, t, RefRun(d, g, ops)) && t.reader.todo == rest
    ensures t.writer == s.writer && t.shared == s.shared
    ensures KeepsFile(ops) ==> t.output == s.output
    decreases |ops|
  {
    if ops == [] {
      assert ops + rest == rest;
      t := s;
    } else {
      assert (ops + rest)[0] == ops[0] && (ops + rest)[1..] == ops[1..] + rest;
      t := RunsPrivate(c, d, s, g);
      t := RunsAllPrivate(c, d, t, RefStep(d, g, ops[0]), ops[1..], rest);
    }
  }

  /** Someone will let the reader go on although the slot is full. */
  predicate StaleWake(c: Config, s: State) { s.writer.at.WWaking? || c.wake.Spurious? }

  /** A wake that comes too late lets the reader past its wait. */
  lemma PassesWait(c: Config, s: State) returns (t: State)
    requires Reachable(c, s) && Steady(s) && s.shared.dataSize > 0 && StaleWake(c, s) && s.reader.todo != []
    requires AtMailbox(s.reader.todo[0])
    ensures Reachable(c, t) && t.output == s.output && t.supervisor == s.supervisor && t.writer == s.writer.(at := Top)
    ensures t.reader == s.reader.(at := Held)
    ensures t.shared == s.shared.(lock := Reader, readerWoken := t.shared.readerWoken)
  {
    t := Go(c, s, ReaderStep);
    if s.reader.todo[0].FinalDrain? {
      t := Go(c, t, ReaderStep);
    }
    t := Go(c, t, ReaderStep);
    if s.writer.at.WWaking? {
      t := Go(c, t, WriterStep);
    }
    t := Go(c, t, ReaderResume);
  }

  /** So it passes a drain with the block still in the slot. */
  lemma PassesDrain(c: Config, d: Config, s: State, g: Ref) returns (t: State)
    requires Reachable(c, s) && Steady(s) && s.shared.dataSize > 0 && StaleWake(c, s) && Tracks(c, d, s, g)
    requires s.reader.todo != [] && Waits(s.reader.todo[0])
    ensures Reachable(c, t) && Steady(t) && Tracks(c, d, t, RefStep(d, g, s.reader.todo[0]))
    ensures t.output == s.output && t.writer == s.writer.(at := Top) && t.reader.todo == s.reader.todo[1..]
    ensures t.shared == s.shared.(readerWoken := t.shared.readerWoken)
  {
    TracksNext(c, d, s, g);
    t := PassesWait(c, s);
    t := Go(c, t, ReaderStep);
    if s.reader.todo[0].Drain? {
      t := Go(c, t, ReaderStep);
    }
  }

  /** How often `ops` waits for the slot. */
  function WaitsIn(ops: seq<Op>): nat
  {
    if ops == [] then 0 else (if Waits(ops[0]) then 1 else 0) + WaitsIn(ops[1..])
  }

  lemma {:induction false} WaitsInAppend(a: seq<Op>, b: seq<Op>)
    ensures WaitsIn(a + b) == WaitsIn(a) + WaitsIn(b)
  {
    if a == [] {
      assert a + b == b;
    } else {
      assert (a + b)[0] == a[0] && (a + b)[1..] == a[1..] + b;
      WaitsInAppend(a[1..], b);
    }
  }

  /** Statements between two blocks. */
  predicate Between(ops: seq<Op>) { forall i :: 0 <= i < |ops| ==> Private(ops[i]) || Waits(ops[i]) }

  /** What statements that hand nothing over do to the output. */
  function OutputRun(o: Output, ops: seq<Op>): Output
    decreases |ops|
  {
    if ops == [] then o else OutputRun(OutputStep(o, ops[0]), ops[1..])
  }

  lemma {:induction false} OutputRunAppend(o: Output, a: seq<Op>, b: seq<Op>)
    ensures OutputRun(o, a + b) == OutputRun(OutputRun(o, a), b)
    decreases |a|
  {
    if a == [] {
      assert a + b == b;
    } else {
      assert (a + b)[0] == a[0] && (a + b)[1..] == a[1..] + b;
      OutputRunAppend(OutputStep(o, a[0]), a[1..], b);
    }
  }

  lemma {:induction false} OutputRunKeeps(o: Output, ops: seq<Op>, path: Path)
    requires NeverOpens(path, ops) && path in o.disk
    ensures path in OutputRun(o, ops).disk && OutputRun(o, ops).disk[path] == o.disk[path]
    decreases |ops|
  {
    if ops != [] {
      OutputRunKeeps(OutputStep(o, ops[0]), ops[1..], path);
    }
  }

  /** The reader gets past `n` waits although the slot is full: spurious wakes are endless, a late one is used up. */
  predicate CanPass(c: Config, s: State, n: nat) { n == 0 || c.wake.Spurious? || (n == 1 && s.writer.at.WWaking?) }

  /** With a block in the slot all the while, to where the next one may be read. */
  lemma {:induction false} RunsPast(c: Config, d: Config, s: State, g: Ref, ops: seq<Op>, rest: seq<Op>) returns (t: State)
    requires Reachable(c, s) && Steady(s) && s.shared.dataSize > 0 && Tracks(c, d, s, g) && s.reader.todo == ops + rest
    requires Between(ops) && CanPass(c, s, WaitsIn(ops))
    ensures Reachable(c, t) && Steady(t) && Tracks(c, d, t, RefRun(d, g, ops)) && t.reader.todo == rest
    ensures t.shared.dataSize == s.shared.dataSize && t.writer.written == s.writer.written
    ensures t.output == OutputRun(s.output, ops)
    decreases |ops|
  {
    if ops == [] {
      assert ops + rest == rest;
      t := s;
    } else {
      BetweenFirst(ops);
      hide Slot, WorkStep, Reachable, Tracks, RefStep, Between, WaitsIn;
      assert (ops + rest)[0] == ops[0] && (ops + rest)[1..] == ops[1..] + rest;
      t := PassesOne(c, d, s, g);
      t := RunsPast(c, d, t, RefStep(d, g, ops[0]), ops[1..], rest);
    }
  }

  lemma BetweenFirst(ops: seq<Op>)
    requires ops != [] && Between(ops)
    ensures (Private(ops[0]) || Waits(ops[0])) && Between(ops[1..])
    ensures WaitsIn(ops) == (if Waits(ops[0]) then 1 else 0) + WaitsIn(ops[1..])
  {
  }

  lemma PassesOne(c: Config, d: Config, s: State, g: Ref) returns (t: State)
    requires Reachable(c, s) && Steady(s) && s.shared.dataSize > 0 && Tracks(c, d, s, g) && s.reader.todo != []
    requires Private(s.reader.todo[0]) || (Waits(s.reader.todo[0]) && StaleWake(c, s))
    ensures Reachable(c, t) && Steady(t) && Tracks(c, d, t, RefStep(d, g, s.reader.todo[0]))
    ensures t.reader.todo == s.reader.todo[1..] && t.output == OutputStep(s.output, s.reader.todo[0])
    ensures t.shared.dataSize == s.shared.dataSize && t.writer.written == s.writer.written
    ensures Private(s.reader.todo[0]) ==> t.writer == s.writer
  {
    assert s.writer.written < c.total by { PendingLeft(c, d, s, g); }
    hide Slot, WorkStep, Reachable, Tracks, RefStep;
    if Private(s.reader.todo[0]) {
      t := RunsPrivate(c, d, s, g);
    } else {
      t := PassesDrain(c, d, s, g);
    }
  }

  lemma PendingLeft(c: Config, d: Config, s: State, g: Ref)
    requires Tracks(c, d, s, g) && s.shared.dataSize > 0
    ensures s.writer.written < c.total
  {
  }

  // ------------------------------------------------------ to a successful end

  predicate NeverOpens(path: Path, ops: seq<Op>)
  {
    forall i :: 0 <= i < |ops| ==> ops[i] != Open(path)
  }

  /** What is at a path that is neither open nor going to be opened stays there. */
  predicate Holds(c: Config, s: State, path: Path, data: seq<byte>)
  {
    path in s.output.disk && s.output.disk[path] == data && s.output.file != Some(path) &&
    NeverOpens(path, s.reader.todo) && NeverOpens(path, c.epilogue)
  }

  /** From any calm moment the dump can go on to be reported as successful. */
  lemma {:induction false} Finishes(c: Config, d: Config, s: State, g: Ref, path: Path, data: seq<byte>) returns (t: State)
    requires Reachable(c, s) && Calm(s) && Tracks(c, d, s, g) && Holds(c, s, path, data)
    ensures Reachable(c, t) && t.supervisor == Ended(true) && path in t.output.disk && t.output.disk[path] == data
    decreases |s.reader.todo|
  {
    if s.reader.todo == [] {
      t := Ends(c, s);
    } else if s.reader.todo[0].StopIfWritten? && s.writer.written >= c.total {
      t := Go(c, s, ReaderStep);
      NoStopIsSafe(d, g, d.epilogue);
      t := Finishes(c, d, t, g, path, data);
    } else {
      t := RunsOne(c, d, s, g);
      StillHolds(c, d, s, t, g, path, data);
      t := Finishes(c, d, t, RefStep(d, g, s.reader.todo[0]), path, data);
    }
  }

  lemma StillHolds(c: Config, d: Config, s: State, t: State, g: Ref, path: Path, data: seq<byte>)
    requires Holds(c, s, path, data) && s.reader.todo != [] && t.reader.todo == s.reader.todo[1..]
    requires t.output == RefStep(d, g.(output := s.output), s.reader.todo[0]).output
    ensures Holds(c, t, path, data)
  {
  }

  lemma Ends(c: Config, s: State) returns (t: State)
    requires Reachable(c, s) && Calm(s) && s.reader.todo == [] && s.writer.written >= c.total
    ensures Reachable(c, t) && t.supervisor == Ended(true) && t.output == s.output
  {
    t := Go(c, s, ReaderStep);
    if t.writer.at.WWaking? {
      t := Go(c, t, WriterStep);
    }
    t := Go(c, t, WriterStep);
    t := Go(c, t, StopPolling);
    t := Go(c, t, JoinNext);
    t := Go(c, t, JoinNext);
  }

  /** A well-formed reader starts out like this. */
  lemma StartsCalm(c: Config, d: Config)
    requires WellFormed(d) && d == c.(wake := d.wake)
    ensures Reachable(c, Init(c)) && Calm(Init(c))
    ensures Tracks(c, d, Init(c), RefInit(d)) && Init(c).output == RefInit(d).output
  {
    InitReachable(c);
  }

  // ------------------------------------------------------- left by the writer

  /** The bytes that are not lost. */
  function NotLost(s: State): nat { s.writer.written + s.shared.dataSize + Owed(s.reader.todo) }

  predicate EndsInDrain(ops: seq<Op>) { |ops| >= 2 && ops[|ops| - 2..] == [FinalDrain, Close] }

  /** The reader goes on although the writer has left, and nobody has noticed. */
  predicate Deserted(c: Config, s: State)
  {
    s.reader.at.Idle? && s.shared.lock.Nobody? && !Failed(s.shared) && s.writer.at.WriterDone? &&
    s.writer.written < c.total && EndsInDrain(s.reader.todo) && Sized(s.reader.todo)
  }

  /** With a block in the slot, or one still to come, it falls asleep and is never woken. */
  lemma {:induction false} SleepsAlone(c: Config, s: State) returns (t: State)
    requires Reachable(c, s) && Deserted(c, s) && !c.wake.Fused? && (s.shared.dataSize > 0 || Owed(s.reader.todo) > 0)
    ensures Reachable(c, t) && ReaderAbandoned(t) && NotLost(t) == NotLost(s)
    decreases |s.reader.todo|
  {
    var op := s.reader.todo[0];
    if AtMailbox(op) && s.shared.dataSize > 0 {
      t := FallsAsleep(c, s);
    } else {
      hide Reachable, RefStep, WorkStep;
      EndsFurtherOn(s.reader.todo, s.shared.dataSize);
      if Private(op) {
        t := StepsPrivate(c, s);
      } else if op.Publish? {
        t := HandsOverAlone(c, s);
      } else {
        t := PassesEmpty(c, s);
      }
      t := SleepsAlone(c, t);
    }
  }

  lemma EndsFurtherOn(ops: seq<Op>, pending: nat)
    requires EndsInDrain(ops) && Sized(ops) && (pending > 0 || Owed(ops) > 0) && !(AtMailbox(ops[0]) && pending > 0)
    ensures EndsInDrain(ops[1..]) && Sized(ops[1..])
  {
    TwoOweNothing(ops);
  }

  lemma TwoOweNothing(ops: seq<Op>)
    ensures |ops| == 2 && EndsInDrain(ops) ==> ops[0].FinalDrain? && Owed(ops) == 0
  {
    if |ops| == 2 && EndsInDrain(ops) {
      assert ops == [FinalDrain] + [Close] && [FinalDrain][1..] == [] && [Close][1..] == [];
      OwedAppend([FinalDrain], [Close]);
    }
  }

  lemma FallsAsleep(c: Config, s: State) returns (t: State)
    requires Reachable(c, s) && Deserted(c, s) && AtMailbox(s.reader.todo[0]) && s.shared.dataSize > 0
    ensures Reachable(c, t) && ReaderAbandoned(t) && NotLost(t) == NotLost(s)
  {
    t := Go(c, s, ReaderStep);
    if s.reader.todo[0].FinalDrain? {
      t := Go(c, t, ReaderStep);
    }
    t := Go(c, t, ReaderStep);
  }

  lemma HandsOverAlone(c: Config, s: State) returns (t: State)
    requires Reachable(c, s) && Deserted(c, s) && !c.wake.Fused? && s.reader.todo[0].Publish? && s.shared.dataSize == 0
    ensures var op := s.reader.todo[0];
      Reachable(c, t) && t == s.(reader := Past(c, s.reader), shared := s.shared.(data := op.buf, dataSize := op.size))
  {
    t := Go(c, s, ReaderStep);
    t := Go(c, t, ReaderStep);
    t := Go(c, t, ReaderStep);
    t := Go(c, t, ReaderStep);
  }

  /** With a block in the slot, past a drain and a close: the writer finds no file, and the reader sleeps. */
  lemma AbandonsPending(c: Config, d: Config, s: State, g: Ref, ops: seq<Op>, rest: seq<Op>) returns (t: State)
    requires Reachable(c, s) && Steady(s) && s.shared.dataSize > 0 && Tracks(c, d, s, g) && s.reader.todo == ops + rest
    requires Between(ops) && CanPass(c, s, WaitsIn(ops)) && OutputRun(s.output, ops).file.None?
    requires !c.wake.Fused? && !c.usb && EndsInDrain(rest) && Sized(rest)
    ensures Reachable(c, t) && ReaderAbandoned(t) && NotLost(t) == c.total
  {
    t := RunsPast(c, d, s, g, ops, rest);
    PendingLeft(c, d, t, RefRun(d, g, ops));
    TracksTotal(c, d, t, RefRun(d, g, ops));
    t := FindsNoFile(c, t);
    t := SleepsAlone(c, t);
  }

  lemma TracksTotal(c: Config, d: Config, s: State, g: Ref)
    requires Tracks(c, d, s, g)
    ensures NotLost(s) == c.total
  {
  }

  lemma FindsNoFile(c: Config, s: State) returns (t: State)
    requires Reachable(c, s) && Steady(s) && s.shared.dataSize > 0 && s.writer.written < c.total
    requires s.output.file.None? && !c.usb
    ensures Reachable(c, t) && t == s.(writer := s.writer.(at := WriterDone), shared := t.shared)
    ensures t.shared == s.shared.(readerWoken := t.shared.readerWoken)
  {
    t := s;
    if t.writer.at.WWaking? {
      t := Go(c, t, WriterStep);
    }
    t := Go(c, t, WriterStep);
    t := Go(c, t, WriterStep);
    t := Go(c, t, WriterStep);
  }

  /** The writer has written everything and gone to sleep, and a wake for the block it wrote has come after that. */
  predicate Dozing(c: Config, s: State)
  {
    s.reader.at.Idle? && s.shared.lock.Nobody? && !Failed(s.shared) && s.shared.dataSize == 0 &&
    s.writer.at.WWaiting? && s.shared.writerWoken && s.writer.written < c.total
  }

  /** The writer overtakes the wake that the reader owes it for the block. */
  lemma HandsOverAhead(c: Config, d: Config, s: State, g: Ref) returns (t: State)
    requires Reachable(c, s) && Calm(s) && Tracks(c, d, s, g) && s.reader.todo != [] && s.reader.todo[0].Publish?
    requires !c.wake.Fused? && Owed(s.reader.todo[1..]) > 0
    ensures Reachable(c, t) && Dozing(c, t) && t.reader.todo == s.reader.todo[1..] && t.output.file == s.output.file
    ensures NotLost(t) == c.total
  {
    TracksNext(c, d, s, g);
    t := HandsOverFirst(c, d, s, g);
    t := WritesAtOnce(c, t);
    t := Go(c, t, ReaderStep);
  }

  lemma HandsOverFirst(c: Config, d: Config, s: State, g: Ref) returns (t: State)
    requires Reachable(c, s) && Calm(s) && Tracks(c, d, s, g) && s.reader.todo != [] && s.reader.todo[0].Publish?
    requires !c.wake.Fused?
    ensures var op := s.reader.todo[0];
      Reachable(c, t) && t.reader.at.Waking? && t.reader.todo == s.reader.todo[1..] && t.output == s.output &&
      t.shared == s.shared.(data := op.buf, dataSize := op.size) && t.writer == s.writer &&
      op.size > 0 && t.output.file.Some?
  {
    TracksNext(c, d, s, g);
    t := Go(c, s, ReaderStep);
    t := Go(c, t, ReaderStep);
    t := Go(c, t, ReaderStep);
  }

  lemma WritesAtOnce(c: Config, s: State) returns (t: State)
    requires Reachable(c, s) && s.reader.at.Waking? && s.shared.lock.Nobody? && !Failed(s.shared) && s.output.file.Some?
    requires (s.writer.at.Top? || s.writer.at.WWaking?) && s.shared.dataSize > 0 && !c.wake.Fused?
    requires s.writer.written + s.shared.dataSize < c.total
    ensures Reachable(c, t) && t.reader == s.reader && t.writer.at.WWaiting? && t.output.file == s.output.file
    ensures t.shared == s.shared.(dataSize := 0, writerWoken := false)
    ensures t.writer.written == s.writer.written + s.shared.dataSize
  {
    t := s;
    if t.writer.at.WWaking? {
      t := Go(c, t, WriterStep);
    }
    t := Go(c, t, WriterStep);
    t := Go(c, t, WriterStep);
    t := Go(c, t, WriterStep);
    t := Go(c, t, WriterStep);
    t := Go(c, t, WriterStep);
    t := Go(c, t, WriterStep);
    t := Go(c, t, WriterStep);
    t := Go(c, t, WriterStep);
  }

  lemma {:induction false} DozesOn(c: Config, s: State, ops: seq<Op>, rest: seq<Op>) returns (t: State)
    requires Reachable(c, s) && Dozing(c, s) && s.reader.todo == ops + rest && Between(ops)
    ensures Reachable(c, t) && Dozing(c, t) && t.reader.todo == rest && t.output == OutputRun(s.output, ops)
    ensures t.writer == s.writer && Owed(rest) == Owed(ops + rest)
    decreases |ops|
  {
    if ops == [] {
      assert ops + rest == rest;
      t := s;
    } else {
      hide RefStep, WorkStep, Reachable;
      assert (ops + rest)[0] == ops[0] && (ops + rest)[1..] == ops[1..] + rest;
      if Private(ops[0]) {
        t := StepsPrivate(c, s);
      } else {
        t := PassesEmpty(c, s);
      }
      t := DozesOn(c, t, ops[1..], rest);
    }
  }

  lemma WakesToNoFile(c: Config, s: State) returns (t: State)
    requires Reachable(c, s) && Dozing(c, s) && s.output.file.None? && !c.usb
    ensures Reachable(c, t) && t == s.(writer := s.writer.(at := WriterDone))
  {
    t := Go(c, s, WriterResume);
    t := Go(c, t, WriterStep);
  }

  /** The wake for a block already written finds the file closed: the writer leaves, and the reader sleeps. */
  lemma AbandonsDozing(c: Config, d: Config, s: State, g: Ref, ops: seq<Op>, rest: seq<Op>) returns (t: State)
    requires Reachable(c, s) && Calm(s) && Tracks(c, d, s, g) && s.reader.todo != [] && s.reader.todo[0].Publish?
    requires s.reader.todo[1..] == ops + rest && Between(ops) && OutputRun(s.output, ops).file.None?
    requires !c.wake.Fused? && !c.usb && EndsInDrain(rest) && Sized(rest) && Owed(rest) > 0
    ensures Reachable(c, t) && ReaderAbandoned(t) && NotLost(t) == c.total
  {
    OwedAppend(ops, rest);
    t := HandsOverAhead(c, d, s, g);
    SameFile(t.output, s.output, ops);
    t := DozesOn(c, t, ops, rest);
    t := WakesToNoFile(c, t);
    t := SleepsAlone(c, t);
  }

  lemma {:induction false} SameFile(o: Output, p: Output, ops: seq<Op>)
    requires o.file == p.file
    ensures OutputRun(o, ops).file == OutputRun(p, ops).file
    decreases |ops|
  {
    if ops != [] {
      SameFile(OutputStep(o, ops[0]), OutputStep(p, ops[0]), ops[1..]);
    }
  }
}
