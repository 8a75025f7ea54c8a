// What holds of every reader, also of one that relies on waits it cannot rely on:
// where the bytes are, and what the reference says about the slot.
module AnyReader {
  import opened DumpMachine
  import opened DumpInvariants
  import opened DumpOrder
  import opened DumpTheorems

  /** No block is handed over without any bytes. */
  predicate Sized(ops: seq<Op>) { forall i :: 0 <= i < |ops| && ops[i].Publish? ==> ops[i].size > 0 }

  /** The statements add up to the total; nothing is said about their order. */
  predicate Accounted(c: Config)
  {
    Owed(c.program) == c.total && Owed(c.epilogue) == 0 && NoStop(c.epilogue) && Sized(c.program) && Sized(c.epilogue)
  }

  lemma {:induction false} SafeIsSized(c: Config, g: Ref, ops: seq<Op>)
    requires SafeFrom(c, g, ops)
    ensures Sized(ops)
    decreases |ops|
  {
    if ops != [] {
      SafeIsSized(c, RefStep(c, g, ops[0]), ops[1..]);
      assert forall i :: 1 <= i < |ops| ==> ops[i] == ops[1..][i - 1];
    }
  }

  lemma {:induction false} RunControl(c: Config, run: seq<Event>)
    requires Exec(c, run).Some?
    ensures Control(Exec(c, run).value)
    decreases |run|
  {
    if run != [] {
      var s, e := Exec(c, run[..|run| - 1]).value, run[|run| - 1];
      RunControl(c, run[..|run| - 1]);
      match e
      case ReaderStep => ReaderControl(c, s);
      case WriterStep => WriterControl(c, s);
      case _ => OtherControl(c, s, e);
    }
  }

  /** Every byte is owed, in the slot, written or overwritten. */
  ghost predicate Kept(c: Config, s: State, lost: nat)
  {
    WaitsHold(c, s) && OnPath(c, s) && Sized(s.reader.todo) && SlotKnown(s) &&
    s.reader.ref == RefRun(c, RefInit(c), s.reader.done) &&
    lost + s.writer.written + s.shared.dataSize + Owed(s.reader.todo) == c.total
  }

  lemma ReaderKept(c: Config, s: State, lost: nat)
    requires Accounted(c) && Control(s) && Kept(c, s, lost) && ReaderEnabled(s.reader, s.shared.lock)
    ensures Kept(c, ReaderNext(c, s), lost + Overwrites(s, ReaderStep))
  {
    var t := ReaderNext(c, s);
    ReaderKind(c, s);
    ReaderLeavesWriter(c, s);
    ReaderOnPath(c, s);
    WaitsEmpty(c, s);
    ReaderWaits(c, s);
    if RunsHere(s) || HandsOver(s) {
      RefRunPush(c, RefInit(c), s.reader.done, s.reader.todo[0]);
    }
  }

  lemma WriterKept(c: Config, s: State, lost: nat)
    requires Control(s) && Kept(c, s, lost) && WriterEnabled(c, s)
    ensures Kept(c, WriterNext(c, s), lost)
  {
    WriterLeavesReader(c, s);
    WriterWaits(c, s);
    SamePathOnPath(c, s, WriterNext(c, s));
  }

  lemma OtherKept(c: Config, s: State, e: Event, lost: nat)
    requires Control(s) && Kept(c, s, lost) && Enabled(c, s, e) && !e.ReaderStep? && !e.WriterStep?
    ensures Kept(c, Next(c, s, e), lost)
  {
    OtherWaits(c, s, e);
    SamePathOnPath(c, s, Next(c, s, e));
  }

  lemma InitKept(c: Config)
    requires Accounted(c)
    ensures Kept(c, Init(c), 0)
  {
    assert Init(c).reader.done + Init(c).reader.todo == c.program;
  }

  /** Over every run of every reader. */
  lemma {:induction false} RunKept(c: Config, run: seq<Event>)
    requires Accounted(c) && Exec(c, run).Some?
    ensures Kept(c, Exec(c, run).value, Overwritten(c, run))
    decreases |run|
  {
    if run == [] {
      InitKept(c);
    } else {
      var shorter, e := run[..|run| - 1], run[|run| - 1];
      var s := Exec(c, shorter).value;
      RunKept(c, shorter);
      RunControl(c, shorter);
      hide Kept, Accounted, Control, Overwrites, ReaderNext, WriterNext;
      match e
      case ReaderStep => ReaderKept(c, s, Overwritten(c, shorter));
      case WriterStep => WriterKept(c, s, Overwritten(c, shorter));
      case _ => OtherKept(c, s, e, Overwritten(c, shorter));
    }
  }

  /** It does not matter for the sums how far waits are relied on. */
  lemma TwinAccounted(c: Config, d: Config)
    requires WellFormed(d) && d == c.(wake := d.wake) && Sized(c.epilogue)
    ensures Accounted(c)
  {
    SafeIsSized(d, RefInit(d), d.program);
  }
}
