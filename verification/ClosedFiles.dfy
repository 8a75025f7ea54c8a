// The reader closes its file without the mutex.  For which extracted dumps it can do
// so while the writer, with the mutex, is between looking for the file and writing.
module ClosedFiles {
  import opened Options
  import opened DumpMachine
  import opened DumpInvariants
  import opened DumpTheorems
  import opened DumpLiveness
  import opened DumpPrograms
  import opened DumpSchedules
  import opened ExtractedDump
  import opened LateWakes
  import opened DumpHangs

  /** The writer is about to write, and the reader about to close the file. */
  predicate Race(c: Config, s: State)
  {
    WritesOut(c, s) && s.output.file.Some? && s.reader.at.Idle? && s.reader.todo != [] && s.reader.todo[0].Close?
  }

  ghost predicate CanRace(c: Config) { exists run :: Exec(c, run).Some? && Race(c, Exec(c, run).value) }

  /** With a block in the slot, past one wait and up to the close. */
  lemma Races(c: Config, d: Config, pre: seq<Op>, e: Entry, block: nat, b: Buffer, mid: seq<Op>, post: seq<Op>)
    returns (t: State)
    requires Twin(c, d) && At(c, pre, e, block, b, mid + ([Close] + post))
    requires Between(mid) && KeepsFile(mid) && WaitsIn(mid) == 1
    requires c.wake.Spurious? || (c.wake.Late? && NotFirst(pre, e, block))
    ensures Reachable(c, t) && Race(c, t)
  {
    hide SafeFrom, StopsSafe, Tracks, Reachable, EntryOps, Twin, At, NotFirst, Slot, WorkStep, RefRun;
    var h, m;
    t, h, m := PendsBehind(c, d, pre, e, block, b, mid + ([Close] + post));
    assert [Check] + (mid + ([Close] + post)) == ([Check] + mid) + ([Close] + post) && [Check][1..] == [];
    WaitsInAppend([Check], mid);
    SameFileBehind(t.output, [Check] + mid);
    t := RunsPast(c, d, t, h, [Check] + mid, [Close] + post);
    PendingLeft(c, d, t, RefRun(d, h, [Check] + mid));
    t := AboutToWrite(c, t);
  }

  lemma {:induction false} SameFileBehind(o: Output, ops: seq<Op>)
    requires KeepsFile(ops)
    ensures OutputRun(o, ops) == o
    decreases |ops|
  {
    if ops != [] {
      SameFileBehind(o, ops[1..]);
    }
  }

  lemma AboutToWrite(c: Config, s: State) returns (t: State)
    requires Reachable(c, s) && Steady(s) && s.shared.dataSize > 0 && s.output.file.Some? && s.writer.written < c.total
    ensures Reachable(c, t) && WritesOut(c, t) && t.output == s.output && t.reader == s.reader
  {
    t := s;
    if t.writer.at.WWaking? {
      t := Go(c, t, WriterStep);
      assert t.reader == s.reader;
    }
    t := Go(c, t, WriterStep);
    t := Go(c, t, WriterStep);
  }

  /** Behind an entry there is one wait, and then a close. */
  lemma CloseAhead(job: Job, i: nat, next: Buffer) returns (mid: seq<Op>, post: seq<Op>)
    requires 0 < job.block && i < |job.entries|
    ensures Behind(job, i, next) == mid + ([Close] + post)
    ensures Between(mid) && KeepsFile(mid) && WaitsIn(mid) == 1
  {
    if i + 1 < |job.entries| {
      mid := StopOps(job.stops) + [Poll, Drain];
      StopAndDrain(job.stops);
      post := NextClose(job, i, next);
    } else {
      mid, post := [FinalDrain], [];
      OnlyEndLeft(job, i, next);
    }
  }

  lemma NextClose(job: Job, i: nat, next: Buffer) returns (post: seq<Op>)
    requires 0 < job.block && i + 1 < |job.entries|
    ensures Behind(job, i, next) == (StopOps(job.stops) + [Poll, Drain]) + ([Close] + post)
  {
    var f := job.entries[i + 1];
    NextOpens(job, i, next);
    var inside := (Blocks(PLAIN, f.data, 0, job.block, next) + [Check]) + Rest(job, i, next);
    post := [Lookup, Open(f.path)] + inside;
    hide Behind, StopOps, Blocks, Rest;
    assert SwitchOps(false, f.path) == [Poll, Drain] + ([Close] + [Lookup, Open(f.path)]);
    Regroup7(StopOps(job.stops), [Poll, Drain], [Close], [Lookup, Open(f.path)], inside);
  }

  lemma Regroup7(a: seq<Op>, b: seq<Op>, x: seq<Op>, y: seq<Op>, z: seq<Op>)
    ensures a + ((b + (x + y)) + z) == (a + b) + (x + (y + z))
  {
  }

  lemma OnlyEndLeft(job: Job, i: nat, next: Buffer)
    requires 0 < job.block && i + 1 == |job.entries|
    ensures Behind(job, i, next) == [FinalDrain] + ([Close] + [])
    ensures var mid := [FinalDrain]; Between(mid) && KeepsFile(mid) && WaitsIn(mid) == 1
  {
    assert job.entries[i + 1..] == [] && [FinalDrain][1..] == [];
    assert EntriesOps(false, job.stops, [], job.block, next) == [];
  }

  lemma StopAndDrain(stops: bool)
    ensures var mid := StopOps(stops) + [Poll, Drain]; Between(mid) && KeepsFile(mid) && WaitsIn(mid) == 1
  {
    NothingWaits(stops);
    WaitsInAppend(StopOps(stops), [Poll, Drain]);
    assert [Poll, Drain][1..] == [Drain] && [Drain][1..] == [];
  }

  lemma CanClose(job: Job, wake: Wake)
    requires 0 < job.block && !job.usb && !wake.Fused? && BlocksIn(job.entries, job.block) > if wake.Late? then 1 else 0
    ensures CanRace(ExtractedConfig(job, wake))
  {
    var c, d := ExtractedConfig(job, wake), ExtractedConfig(job, Fused);
    var i := LastFilled(job.entries, job.block);
    ExtractedTwin(job, wake);
    var here, next := ProgramAt(job, wake, i);
    if wake.Late? {
      NotTheFirst(job, i);
    }
    var mid, post := CloseAhead(job, i, next);
    var t := Races(c, d, Before(job, i), job.entries[i], job.block, here, mid, post);
    var run :| Exec(c, run) == Some(t);
  }

  /** A well-behaved reader of one block never does. */
  lemma OneBlockNeverRaces(c: Config, run: seq<Event>)
    requires WellFormed(c) && !c.usb && c.wake.Late? && Exec(c, run).Some? && Publishes(c.program) <= 1
    ensures !Race(c, Exec(c, run).value)
  {
    var s := Exec(c, run).value;
    RunSound(c, run);
    RunAwake(c, run);
    if Race(c, s) {
      var r := s.reader;
      SafeNext(c, r);
      PublishedCount(c, RefInit(c), r.done);
      if r.done + r.todo == c.program {
        PublishesAppend(r.done, r.todo);
        if |r.ref.published| == 1 {
          NoneLeft(r.todo);
        }
      }
    }
  }

  lemma FusedNeverRaces(c: Config, run: seq<Event>)
    requires WellFormed(c) && c.wake.Fused? && Exec(c, run).Some?
    ensures !Race(c, Exec(c, run).value)
  {
    if Race(c, Exec(c, run).value) {
      FileChangesOnEmptySlot(c, run, ReaderStep);
    }
  }

  /**
   * The file of an extracted dump can be closed under the writer exactly with late
   * wakes and more than one block, or with spurious ones and any.
   */
  lemma ClosesUnderWriter(job: Job, wake: Wake)
    requires 0 < job.block && !job.usb
    ensures CanRace(ExtractedConfig(job, wake)) <==>
      !wake.Fused? && BlocksIn(job.entries, job.block) > if wake.Late? then 1 else 0
  {
    var c := ExtractedConfig(job, wake);
    if !wake.Fused? && BlocksIn(job.entries, job.block) > (if wake.Late? then 1 else 0) {
      CanClose(job, wake);
    } else {
      ButLastIsLess(job.entries, job.block);
      ExtractedRuns(job, wake);
      ProgramPublishes(job, wake);
      forall run | Exec(c, run).Some? ensures !Race(c, Exec(c, run).value) {
        if wake.Fused? {
          FusedNeverRaces(c, run);
        } else if wake.Late? {
          OneBlockNeverRaces(c, run);
        } else {
          NothingToWrite(job, wake, run);
        }
      }
    }
  }

  lemma ProgramPublishes(job: Job, wake: Wake)
    requires 0 < job.block && !job.usb
    ensures Publishes(ExtractedConfig(job, wake).program) == BlocksIn(job.entries, job.block)
  {
    EntriesPublish(ExtractedConfig(job, wake), job.stops, job.entries, job.block);
    PublishesAppend(EntriesOps(false, job.stops, job.entries, job.block, First), EndOps(false));
    NonePublished(EndOps(false));
  }

  lemma NothingToWrite(job: Job, wake: Wake, run: seq<Event>)
    requires 0 < job.block && BlocksIn(job.entries, job.block) == 0 && Exec(ExtractedConfig(job, wake), run).Some?
    ensures !Race(ExtractedConfig(job, wake), Exec(ExtractedConfig(job, wake), run).value)
  {
    AtMostOneBlock(job.entries, job.block);
    EmptyData(job.entries);
    RunAwake(ExtractedConfig(job, wake), run);
  }
}
