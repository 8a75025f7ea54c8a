// How soon a cancellation takes effect: the reader looks for one before every block
// and before every file.
module Cancelling {
  import opened Sequences
  import opened DumpMachine
  import opened DumpInvariants
  import opened DumpPrograms
  import opened AnyReader
  import opened ExtractedDump
  import opened TreeDump
  import opened Paths
  import RawDump

  /** A statement that hands a block over or opens a file. */
  predicate Acts(op: Op) { op.Publish? || op.Open? }

  function ActsIn(ops: seq<Op>): nat
  {
    if ops == [] then 0 else ActsIn(ops[..|ops| - 1]) + if Acts(ops[|ops| - 1]) then 1 else 0
  }

  /** The next such statement comes before the next look at the cancellation. */
  predicate Armed(ops: seq<Op>)
  {
    ops != [] && !ops[0].Poll? && (Acts(ops[0]) || Armed(ops[1..]))
  }

  /** After every such statement there is a look before the next one. */
  predicate Looks(ops: seq<Op>)
  {
    ops == [] || ((Acts(ops[0]) ==> !Armed(ops[1..])) && Looks(ops[1..]))
  }

  /** Nothing is armed by what follows a look. */
  lemma {:induction false} LooksJoin(a: seq<Op>, b: seq<Op>)
    requires Looks(a) && Looks(b) && !Armed(b)
    ensures Looks(a + b) && (Armed(a + b) <==> Armed(a))
  {
    if a == [] {
      assert a + b == b;
    } else {
      assert (a + b)[0] == a[0] && (a + b)[1..] == a[1..] + b;
      LooksJoin(a[1..], b);
    }
  }

  lemma {:induction false} NoActs(ops: seq<Op>)
    requires forall i :: 0 <= i < |ops| ==> !Acts(ops[i])
    ensures Looks(ops) && !Armed(ops)
  {
    if ops != [] {
      NoActs(ops[1..]);
    }
  }

  // ------------------------------------------------------------ every reader

  /** Since the cancellation the reader has acted at most once, and only if it was past its look already. */
  predicate Stopping(s: State, acts: nat)
  {
    s.shared.cancelled && Few(s.reader, acts)
  }

  predicate Few(r: ReaderState, acts: nat)
  {
    Looks(r.todo) && ActsIn(r.done) + (if Armed(r.todo) then 1 else 0) <= acts + 1
  }

  lemma PastStopping(r: ReaderState, t: ReaderState, epilogue: seq<Op>, acts: nat)
    requires r.todo != [] && !r.todo[0].Poll? && Few(r, acts) && t.done == r.done + [r.todo[0]]
    requires t.todo == r.todo[1..] || (t.todo == epilogue && Looks(epilogue) && !Armed(epilogue) && !Acts(r.todo[0]))
    ensures Few(t, acts)
  {
    assert t.done[..|t.done| - 1] == r.done;
  }

  lemma ReaderStopping(c: Config, s: State, acts: nat)
    requires Control(s) && Stopping(s, acts) && ReaderEnabled(s.reader, s.shared.lock)
    requires Looks(c.epilogue) && !Armed(c.epilogue)
    ensures Stopping(ReaderNext(c, s), acts)
  {
    hide Looks, Armed, ActsIn, RefStep, WorkStep;
    ReaderKind(c, s);
    StaysCancelled(c, s);
    if RunsHere(s) || HandsOver(s) {
      hide ReaderNext;
      PastStopping(s.reader, ReaderNext(c, s).reader, c.epilogue, acts);
    }
  }

  lemma StaysCancelled(c: Config, s: State)
    requires ReaderEnabled(s.reader, s.shared.lock)
    ensures ReaderNext(c, s).shared.cancelled == s.shared.cancelled
  {
  }

  lemma OtherStopping(c: Config, s: State, e: Event, acts: nat)
    requires Stopping(s, acts) && Enabled(c, s, e) && !e.ReaderStep?
    ensures Stopping(Next(c, s, e), acts)
  {
    if e.WriterStep? {
      WriterLeavesReader(c, s);
    }
  }

  /** Every reader that looks before it acts. */
  ghost predicate Careful(c: Config) { Looks(c.program) && Looks(c.epilogue) && !Armed(c.epilogue) }

  lemma ReaderLooks(c: Config, s: State)
    requires Control(s) && Looks(s.reader.todo) && Looks(c.epilogue) && ReaderEnabled(s.reader, s.shared.lock)
    ensures Looks(ReaderNext(c, s).reader.todo)
  {
    ReaderKind(c, s);
  }

  lemma {:induction false} RunLooks(c: Config, run: seq<Event>)
    requires Careful(c) && Exec(c, run).Some?
    ensures Looks(Exec(c, run).value.reader.todo)
    decreases |run|
  {
    if run != [] {
      var s, e := Exec(c, run[..|run| - 1]).value, run[|run| - 1];
      RunLooks(c, run[..|run| - 1]);
      RunControl(c, run[..|run| - 1]);
      if e.ReaderStep? {
        ReaderLooks(c, s);
      } else if e.WriterStep? {
        WriterLeavesReader(c, s);
      }
    }
  }

  /**
   * However a run goes on after a cancellation, the reader hands over at most one more
   * block or opens at most one more file, not both.
   */
  lemma {:induction false} CancelTakesEffect(c: Config, run: seq<Event>, more: seq<Event>)
    requires Careful(c) && Exec(c, run).Some? && Exec(c, run).value.shared.cancelled && Exec(c, run + more).Some?
    ensures ActsIn(Exec(c, run + more).value.reader.done) <= ActsIn(Exec(c, run).value.reader.done) + 1
    ensures Stopping(Exec(c, run + more).value, ActsIn(Exec(c, run).value.reader.done))
    decreases |more|
  {
    if more == [] {
      assert run + more == run;
      RunLooks(c, run);
    } else {
      var n := |more| - 1;
      assert (run + more)[..|run + more| - 1] == run + more[..n];
      CancelTakesEffect(c, run, more[..n]);
      RunControl(c, run + more[..n]);
      var s, e := Exec(c, run + more[..n]).value, more[n];
      if e.ReaderStep? {
        ReaderStopping(c, s, ActsIn(Exec(c, run).value.reader.done));
      } else {
        OtherStopping(c, s, e, ActsIn(Exec(c, run).value.reader.done));
      }
    }
  }

  // ----------------------------------------------------- the readers there are

  lemma BlockLooks(t: Treatment, data: seq<byte>, offset: nat, size: nat, b: Buffer)
    requires offset + size <= |data|
    ensures Looks(BlockOps(t, data, offset, size, b)) && !Armed(BlockOps(t, data, offset, size, b))
  {
    var front := [Load(b, data[offset..offset + size])] + (WipeOps(t, offset, b) + SumOps(t, b));
    var publish := [Publish(b, size)];
    assert publish[1..] == [] && Looks(publish);
    QuietLooks(front, publish);
    assert BlockOps(t, data, offset, size, b) == [Poll] + (front + publish);
    assert ([Poll] + (front + publish))[1..] == front + publish;
  }

  lemma {:induction false} QuietLooks(a: seq<Op>, b: seq<Op>)
    requires (forall i :: 0 <= i < |a| ==> !Acts(a[i])) && Looks(b)
    ensures Looks(a + b)
  {
    if a == [] {
      assert a + b == b;
    } else {
      assert (a + b)[0] == a[0] && (a + b)[1..] == a[1..] + b;
      QuietLooks(a[1..], b);
    }
  }

  lemma {:induction false} BlocksLook(t: Treatment, data: seq<byte>, offset: nat, block: nat, b: Buffer)
    requires offset <= |data| && 0 < block
    ensures Looks(Blocks(t, data, offset, block, b)) && !Armed(Blocks(t, data, offset, block, b))
    decreases |data| - offset
  {
    hide Looks, Armed, BlockOps;
    if offset == |data| {
      NoActs([]);
    } else {
      var size := BlockSize(|data| - offset, block);
      BlockLooks(t, data, offset, size, b);
      BlocksLook(t, data, offset + size, block, b.Other());
      LooksJoin(BlockOps(t, data, offset, size, b), Blocks(t, data, offset + size, block, b.Other()));
    }
  }

  lemma SwitchLooks(usb: bool, path: Path)
    ensures Looks(SwitchOps(usb, path)) && !Armed(SwitchOps(usb, path))
  {
    assert [Open(path)][1..] == [] && Looks([Open(path)]);
    if usb {
      QuietLooks([Poll, Lookup, Drain], [Open(path)]);
      assert [Poll, Lookup, Drain] + [Open(path)] == SwitchOps(true, path);
    } else {
      QuietLooks([Poll, Drain, Close, Lookup], [Open(path)]);
      assert [Poll, Drain, Close, Lookup] + [Open(path)] == SwitchOps(false, path);
    }
  }

  lemma EntryLooks(usb: bool, e: Entry, block: nat, b: Buffer)
    requires 0 < block
    ensures Looks(EntryOps(usb, e, block, b)) && !Armed(EntryOps(usb, e, block, b))
  {
    hide Looks, Armed, Blocks, SwitchOps;
    var blocks := Blocks(PLAIN, e.data, 0, block, b);
    SwitchLooks(usb, e.path);
    BlocksLook(PLAIN, e.data, 0, block, b);
    NoActs([Check]);
    LooksJoin(blocks, [Check]);
    LooksJoin(SwitchOps(usb, e.path), blocks + [Check]);
  }

  lemma {:induction false} EntriesLook(usb: bool, stops: bool, entries: seq<Entry>, block: nat, b: Buffer)
    requires 0 < block
    ensures Looks(EntriesOps(usb, stops, entries, block, b)) && !Armed(EntriesOps(usb, stops, entries, block, b))
    decreases |entries|
  {
    hide Looks, Armed, EntryOps;
    if entries == [] {
      NoActs([]);
    } else {
      var e, next := entries[0], NextBuffer(|entries[0].data|, block, b);
      var entry, rest := EntryOps(usb, e, block, b), EntriesOps(usb, stops, entries[1..], block, next);
      EntryLooks(usb, e, block, b);
      EntriesLook(usb, stops, entries[1..], block, next);
      LooksJoin(entry, rest);
      NoActs(StopOps(stops));
      LooksJoin(StopOps(stops), entry + rest);
    }
  }

  lemma {:induction false} TreeLooks(usb: bool, base: string, dir: string, nodes: seq<Node>, block: nat, b: Buffer)
    requires 0 < block && '/' in dir
    ensures Looks(TreeOps(usb, base, dir, nodes, block, b)) && !Armed(TreeOps(usb, base, dir, nodes, block, b))
    decreases nodes
  {
    hide Looks, Armed, EntryOps, OutPath;
    if nodes == [] {
      NoActs([]);
    } else {
      match nodes[0] {
        case File(name, data) =>
          var e, next := Entry(OutPath(base, dir, name), data), NextBuffer(|data|, block, b);
          EntryLooks(usb, e, block, b);
          TreeLooks(usb, base, dir, nodes[1..], block, next);
          LooksJoin(EntryOps(usb, e, block, b), TreeOps(usb, base, dir, nodes[1..], block, next));
        case Dir(name, children) =>
          var inside := TreeOps(usb, base, ChildPath(dir, name), children, block, b);
          var rest := TreeOps(usb, base, dir, nodes[1..], block, b);
          TreeLooks(usb, base, ChildPath(dir, name), children, block, b);
          TreeLooks(usb, base, dir, nodes[1..], block, b);
          NoActs(EndOps(usb));
          LooksJoin(EndOps(usb), rest);
          LooksJoin(inside, EndOps(usb) + rest);
          NoActs(EnterOps(usb));
          LooksJoin(EnterOps(usb), inside + (EndOps(usb) + rest));
      }
    }
  }

  /** All of them look before they act. */
  lemma AllLook(raw: RawDump.Job, extracted: ExtractedDump.Job, tree: TreeJob, wake: Wake)
    ensures raw.Valid() ==> Careful(RawDump.RawConfig(raw, wake))
    ensures 0 < extracted.block ==> Careful(ExtractedConfig(extracted, wake))
    ensures 0 < tree.block ==> Careful(TreeConfig(tree, wake))
  {
    if raw.Valid() {
      RawLooks(raw, wake);
    }
    if 0 < extracted.block {
      ExtractedLooks(extracted, wake);
    }
    if 0 < tree.block {
      DirectoryLooks(tree, wake);
    }
  }

  lemma RawLooks(job: RawDump.Job, wake: Wake)
    requires job.Valid()
    ensures Careful(RawDump.RawConfig(job, wake))
  {
    hide Looks, Armed, Blocks;
    NoActs([]);
    BlocksLook(job.Options(), job.image, 0, job.block, First);
  }

  lemma ExtractedLooks(job: ExtractedDump.Job, wake: Wake)
    requires 0 < job.block
    ensures Careful(ExtractedConfig(job, wake))
  {
    hide Looks, Armed, EntriesOps;
    EntriesLook(job.usb, job.stops, job.entries, job.block, First);
    NoActs(EndOps(job.usb));
    LooksJoin(EntriesOps(job.usb, job.stops, job.entries, job.block, First), EndOps(job.usb));
  }

  lemma DirectoryLooks(job: TreeJob, wake: Wake)
    requires 0 < job.block
    ensures Careful(TreeConfig(job, wake))
  {
    hide Looks, Armed, TreeOps;
    NoActs([]);
    var dir := Render(job.mount, job.above);
    assert dir[|job.mount| + 1] == '/';
    TreeLooks(job.usb, job.base, dir, job.Nodes(), job.block, First);
    NoActs(EndOps(job.usb));
    LooksJoin(TreeOps(job.usb, job.base, dir, job.Nodes(), job.block, First), EndOps(job.usb));
  }
}
