// Which directories can be dumped wrongly because of a late wake, exactly.  Going
// into a directory and coming out of it costs the reader a wait more, and one late
// wake lets it past one wait only; so it is files next to each other that matter.
module LateTrees {
  import opened Options
  import opened DumpMachine
  import opened DumpPrograms
  import opened DumpSchedules
  import opened ExtractedDump
  import opened LateWakes
  import opened Paths
  import opened TreeDump

  /** A file of the walk, and the statements since the file before it. */
  datatype Leg = Leg(mid: seq<Op>, entry: Entry, buf: Buffer)

  /** The walk, file by file, and what follows the last of them. */
  datatype Flat = Flat(legs: seq<Leg>, rest: seq<Op>)

  function LegOps(legs: seq<Leg>, block: nat): seq<Op>
    requires 0 < block
  {
    if legs == [] then []
    else legs[0].mid + (EntryOps(false, legs[0].entry, block, legs[0].buf) + LegOps(legs[1..], block))
  }

  function Flatten(base: string, dir: string, nodes: seq<Node>, block: nat, b: Buffer, mid: seq<Op>): Flat
    requires 0 < block && '/' in dir
    decreases nodes
  {
    if nodes == [] then Flat([], mid)
    else
      match nodes[0]
      case File(name, data) =>
        var f := Flatten(base, dir, nodes[1..], block, NextBuffer(|data|, block, b), []);
        Flat([Leg(mid, Entry(OutPath(base, dir, name), data), b)] + f.legs, f.rest)
      case Dir(name, children) =>
        var f := Flatten(base, ChildPath(dir, name), children, block, b, mid + EnterOps(false));
        var g := Flatten(base, dir, nodes[1..], block, b, f.rest + EndOps(false));
        Flat(f.legs + g.legs, g.rest)
  }

  lemma {:induction false} LegOpsAppend(a: seq<Leg>, b: seq<Leg>, block: nat)
    requires 0 < block
    ensures LegOps(a + b, block) == LegOps(a, block) + LegOps(b, block)
  {
    if a == [] {
      assert a + b == b;
    } else {
      var entry := EntryOps(false, a[0].entry, block, a[0].buf);
      hide EntryOps;
      assert (a + b)[0] == a[0] && (a + b)[1..] == a[1..] + b;
      LegOpsAppend(a[1..], b, block);
      Associates(a[0].mid, entry, LegOps(a[1..], block), LegOps(b, block));
    }
  }

  lemma Associates(a: seq<Op>, b: seq<Op>, c: seq<Op>, d: seq<Op>)
    ensures a + (b + (c + d)) == (a + (b + c)) + d
  {
  }

  /** It is the same walk. */
  lemma {:induction false} FlattenIsWalk(base: string, dir: string, nodes: seq<Node>, block: nat, b: Buffer, mid: seq<Op>)
    requires 0 < block && '/' in dir
    ensures var f := Flatten(base, dir, nodes, block, b, mid);
      mid + TreeOps(false, base, dir, nodes, block, b) == LegOps(f.legs, block) + f.rest
    decreases nodes
  {
    hide EntryOps, EnterOps, EndOps, NextBuffer, OutPath;
    if nodes != [] {
      match nodes[0] {
        case File(name, data) =>
          var next := NextBuffer(|data|, block, b);
          var f, e := Flatten(base, dir, nodes[1..], block, next, []), Entry(OutPath(base, dir, name), data);
          FlattenIsWalk(base, dir, nodes[1..], block, next, []);
          assert ([Leg(mid, e, b)] + f.legs)[1..] == f.legs;
          var others := TreeOps(false, base, dir, nodes[1..], block, next);
          assert [] + others == others;
        case Dir(name, children) =>
          var f := Flatten(base, ChildPath(dir, name), children, block, b, mid + EnterOps(false));
          var g := Flatten(base, dir, nodes[1..], block, b, f.rest + EndOps(false));
          FlattenIsWalk(base, ChildPath(dir, name), children, block, b, mid + EnterOps(false));
          FlattenIsWalk(base, dir, nodes[1..], block, b, f.rest + EndOps(false));
          LegOpsAppend(f.legs, g.legs, block);
          JoinWalk(mid, EnterOps(false), TreeOps(false, base, ChildPath(dir, name), children, block, b), EndOps(false),
            TreeOps(false, base, dir, nodes[1..], block, b), LegOps(f.legs, block), f.rest, LegOps(g.legs, block), g.rest);
      }
    }
  }

  lemma JoinWalk(mid: seq<Op>, enter: seq<Op>, below: seq<Op>, end: seq<Op>, others: seq<Op>,
                 a: seq<Op>, x: seq<Op>, b: seq<Op>, y: seq<Op>)
    requires (mid + enter) + below == a + x && (x + end) + others == b + y
    ensures mid + (enter + (below + (end + others))) == (a + b) + y
  {
    assert mid + (enter + (below + (end + others))) == ((mid + enter) + below) + (end + others);
    assert (a + x) + (end + others) == a + ((x + end) + others);
  }

  /** Statements between two files. */
  predicate Clean(ops: seq<Op>) { Between(ops) && forall i :: 0 <= i < |ops| ==> !ops[i].Open? }

  predicate Tidy(legs: seq<Leg>) { forall i :: 0 <= i < |legs| ==> Clean(legs[i].mid) }

  predicate Follow(legs: seq<Leg>, entries: seq<Entry>)
  {
    |legs| == |entries| && forall i :: 0 <= i < |legs| ==> legs[i].entry == entries[i]
  }

  /** Its files are the leaves, and nothing is opened or handed over in between. */
  lemma {:induction false} FlattenFollows(
    base: string, dir: string, nodes: seq<Node>, block: nat, b: Buffer, mid: seq<Op>)
    requires 0 < block && '/' in dir && Clean(mid)
    ensures var f := Flatten(base, dir, nodes, block, b, mid);
      Follow(f.legs, Leaves(base, dir, nodes)) && Tidy(f.legs) && Clean(f.rest)
    decreases nodes
  {
    hide Clean, NextBuffer, OutPath, Follow, Tidy;
    assert Clean([]) && Follow([], []) && Tidy([]) by { NothingIsClean(); }
    if nodes != [] {
      match nodes[0] {
        case File(name, data) =>
          var e, next := Entry(OutPath(base, dir, name), data), NextBuffer(|data|, block, b);
          FlattenFollows(base, dir, nodes[1..], block, next, []);
          OneLegIsTidy(Leg(mid, e, b));
          JoinLegs([Leg(mid, e, b)], Flatten(base, dir, nodes[1..], block, next, []).legs,
            [e], Leaves(base, dir, nodes[1..]));
        case Dir(name, children) =>
          var f := Flatten(base, ChildPath(dir, name), children, block, b, mid + EnterOps(false));
          BordersClean(mid);
          FlattenFollows(base, ChildPath(dir, name), children, block, b, mid + EnterOps(false));
          BordersClean(f.rest);
          FlattenFollows(base, dir, nodes[1..], block, b, f.rest + EndOps(false));
          JoinLegs(f.legs, Flatten(base, dir, nodes[1..], block, b, f.rest + EndOps(false)).legs,
            Leaves(base, ChildPath(dir, name), children), Leaves(base, dir, nodes[1..]));
      }
    }
  }

  lemma NothingIsClean()
    ensures Clean([]) && Follow([], []) && Tidy([])
  {
  }

  lemma OneLegIsTidy(leg: Leg)
    requires Clean(leg.mid)
    ensures Follow([leg], [leg.entry]) && Tidy([leg])
  {
  }

  /** Going into a directory and coming out of it. */
  lemma BordersClean(mid: seq<Op>)
    requires Clean(mid)
    ensures Clean(mid + EnterOps(false)) && Clean(mid + EndOps(false))
  {
  }

  lemma JoinLegs(a: seq<Leg>, b: seq<Leg>, x: seq<Entry>, y: seq<Entry>)
    requires Follow(a, x) && Tidy(a) && Follow(b, y) && Tidy(b)
    ensures Follow(a + b, x + y) && Tidy(a + b)
  {
    hide Clean;
  }

  // ---------------------------------------------------------- exposed files

  /** A file whose last block the reader can leave pending on its way into the next file. */
  predicate Stays(legs: seq<Leg>, published: nat, i: nat, block: nat)
    requires 0 < block
  {
    i + 1 < |legs| && legs[i].entry.data != [] && legs[i + 1].mid == [] &&
    published + LegBlocks(legs[..i + 1], block) > 1
  }

  function LegBlocks(legs: seq<Leg>, block: nat): nat
    requires 0 < block
  {
    if legs == [] then 0 else BlockCount(|legs[0].entry.data|, block) + LegBlocks(legs[1..], block)
  }

  lemma {:induction false} LegBlocksAre(legs: seq<Leg>, entries: seq<Entry>, block: nat)
    requires 0 < block && Follow(legs, entries)
    ensures LegBlocks(legs, block) == BlocksIn(entries, block)
  {
    if legs != [] {
      LegBlocksAre(legs[1..], entries[1..], block);
    }
  }

  lemma {:induction false} LegBlocksAppend(a: seq<Leg>, b: seq<Leg>, block: nat)
    requires 0 < block
    ensures LegBlocks(a + b, block) == LegBlocks(a, block) + LegBlocks(b, block)
  {
    if a == [] {
      assert a + b == b;
    } else {
      assert (a + b)[0] == a[0] && (a + b)[1..] == a[1..] + b;
      LegBlocksAppend(a[1..], b, block);
    }
  }

  lemma StaysInFront(a: seq<Leg>, b: seq<Leg>, published: nat, i: nat, block: nat)
    requires 0 < block && Stays(a, published, i, block)
    ensures Stays(a + b, published, i, block)
  {
    assert (a + b)[..i + 1] == a[..i + 1];
  }

  lemma StaysBehind(a: seq<Leg>, b: seq<Leg>, published: nat, i: nat, block: nat)
    requires 0 < block && Stays(b, published + LegBlocks(a, block), i, block)
    ensures Stays(a + b, published, |a| + i, block)
  {
    assert (a + b)[..|a| + i + 1] == a + b[..i + 1];
    LegBlocksAppend(a, b[..i + 1], block);
  }

  /** An exposed file is such a file of the walk. */
  lemma {:induction false} ExposedStays(
    base: string, dir: string, nodes: seq<Node>, published: nat, block: nat, b: Buffer, mid: seq<Op>) returns (i: nat)
    requires 0 < block && '/' in dir && Exposed(nodes, published, block)
    ensures Stays(Flatten(base, dir, nodes, block, b, mid).legs, published, i, block)
    decreases nodes
  {
    hide Stays, LegBlocks, NextBuffer, OutPath;
    match nodes[0] {
      case File(name, data) =>
        var next, behind := NextBuffer(|data|, block, b), published + BlockCount(|data|, block);
        var f := Flatten(base, dir, nodes[1..], block, next, []);
        var leg := Leg(mid, Entry(OutPath(base, dir, name), data), b);
        OneLeg(leg, block);
        if Exposed(nodes[1..], behind, block) {
          i := ExposedStays(base, dir, nodes[1..], behind, block, next, []);
          StaysBehind([leg], f.legs, published, i, block);
          i := i + 1;
        } else {
          i := 0;
          NextIsNext(base, dir, nodes[1..], block, next);
          FirstStays(leg, f.legs, published, block);
        }
      case Dir(name, children) =>
        var f := Flatten(base, ChildPath(dir, name), children, block, b, mid + EnterOps(false));
        var g := Flatten(base, dir, nodes[1..], block, b, f.rest + EndOps(false));
        if Exposed(children, published, block) {
          i := ExposedStays(base, ChildPath(dir, name), children, published, block, b, mid + EnterOps(false));
          StaysInFront(f.legs, g.legs, published, i, block);
        } else {
          var behind := published + TreeBlocks(children, block);
          i := ExposedStays(base, dir, nodes[1..], behind, block, b, f.rest + EndOps(false));
          LegBlocksBelow(base, ChildPath(dir, name), children, block, b, mid + EnterOps(false));
          StaysBehind(f.legs, g.legs, published, i, block);
          i := |f.legs| + i;
        }
    }
  }

  lemma OneLeg(leg: Leg, block: nat)
    requires 0 < block
    ensures LegBlocks([leg], block) == BlockCount(|leg.entry.data|, block)
  {
    assert [leg][1..] == [];
  }

  lemma NextIsNext(base: string, dir: string, nodes: seq<Node>, block: nat, b: Buffer)
    requires 0 < block && '/' in dir && nodes != [] && nodes[0].File?
    ensures var legs := Flatten(base, dir, nodes, block, b, []).legs; legs != [] && legs[0].mid == []
  {
  }

  lemma FirstStays(leg: Leg, legs: seq<Leg>, published: nat, block: nat)
    requires 0 < block && legs != [] && legs[0].mid == [] && leg.entry.data != []
    requires published + BlockCount(|leg.entry.data|, block) > 1
    ensures Stays([leg] + legs, published, 0, block)
  {
    OneLeg(leg, block);
    assert ([leg] + legs)[..1] == [leg];
  }

  lemma {:induction false} LegBlocksBelow(base: string, dir: string, nodes: seq<Node>, block: nat, b: Buffer, mid: seq<Op>)
    requires 0 < block && '/' in dir
    ensures LegBlocks(Flatten(base, dir, nodes, block, b, mid).legs, block) == TreeBlocks(nodes, block)
    decreases nodes
  {
    if nodes != [] {
      match nodes[0] {
        case File(name, data) =>
          var next := NextBuffer(|data|, block, b);
          LegBlocksBelow(base, dir, nodes[1..], block, next, []);
          var leg := Leg(mid, Entry(OutPath(base, dir, name), data), b);
          OneLeg(leg, block);
          LegBlocksAppend([leg], Flatten(base, dir, nodes[1..], block, next, []).legs, block);
        case Dir(name, children) =>
          var f := Flatten(base, ChildPath(dir, name), children, block, b, mid + EnterOps(false));
          LegBlocksBelow(base, ChildPath(dir, name), children, block, b, mid + EnterOps(false));
          LegBlocksBelow(base, dir, nodes[1..], block, b, f.rest + EndOps(false));
          LegBlocksAppend(f.legs, Flatten(base, dir, nodes[1..], block, b, f.rest + EndOps(false)).legs, block);
      }
    }
  }

  // ------------------------------------------------------- into the wrong file

  lemma {:induction false} LegsOwe(legs: seq<Leg>, entries: seq<Entry>, block: nat)
    requires 0 < block && Follow(legs, entries) && Tidy(legs)
    ensures Owed(LegOps(legs, block)) == |AllData(entries)|
    decreases |legs|
  {
    if legs != [] {
      LegsOwe(legs[1..], entries[1..], block);
      var e := legs[0].entry;
      EntryOwes(e, block, legs[0].buf);
      NoneOwed(legs[0].mid);
      hide EntryOps;
      OwedAppend(EntryOps(false, e, block, legs[0].buf), LegOps(legs[1..], block));
      OwedAppend(legs[0].mid, EntryOps(false, e, block, legs[0].buf) + LegOps(legs[1..], block));
    }
  }

  lemma EntryOwes(e: Entry, block: nat, b: Buffer)
    requires 0 < block
    ensures Owed(EntryOps(false, e, block, b)) == |e.data|
  {
    var d := Config([], [], 0, false, Fused, None, map[], 0);
    EntryRun(d, RefInit(d), false, e, block, b);
    OneEntry(e, block);
  }

  lemma {:induction false} LegsNeverOpen(path: Path, legs: seq<Leg>, block: nat)
    requires 0 < block && Tidy(legs) && forall i :: 0 <= i < |legs| ==> legs[i].entry.path != path
    ensures NeverOpens(path, LegOps(legs, block))
    decreases |legs|
  {
    if legs != [] {
      var e := legs[0].entry;
      LegsNeverOpen(path, legs[1..], block);
      BlocksNeverOpen(path, e.data, block, legs[0].buf);
      SwitchNeverOpens(path, false, e);
      CleanNeverOpens(path, legs[0].mid);
      hide NeverOpens, SwitchOps, Blocks;
      NeverOpensAppend(path, SwitchOps(false, e.path), Blocks(PLAIN, e.data, 0, block, legs[0].buf) + [Check]);
      NeverOpensAppend(path, EntryOps(false, e, block, legs[0].buf), LegOps(legs[1..], block));
      NeverOpensAppend(path, legs[0].mid, EntryOps(false, e, block, legs[0].buf) + LegOps(legs[1..], block));
    } else {
      EndNeverOpens(path);
    }
  }

  lemma CleanNeverOpens(path: Path, ops: seq<Op>)
    requires Clean(ops)
    ensures NeverOpens(path, ops)
  {
  }

  /** The walk cut at a file and at the next one. */
  lemma CutAtLegs(legs: seq<Leg>, end: seq<Op>, i: nat, block: nat)
    requires 0 < block && i + 1 < |legs|
    ensures var next := legs[i + 1];
      LegOps(legs, block) + end ==
      (LegOps(legs[..i], block) + legs[i].mid) +
      (EntryOps(false, legs[i].entry, block, legs[i].buf) +
       (next.mid + (SwitchOps(false, next.entry.path) + Behind(legs, i, end, block))))
  {
    var rest := legs[i..];
    assert legs == legs[..i] + rest && rest[0] == legs[i] && rest[1..][0] == legs[i + 1] && rest[1..][1..] == legs[i + 2..];
    LegOpsAppend(legs[..i], rest, block);
    var next := legs[i + 1];
    var tail := LegOps(legs[i + 2..], block);
    assert LegOps(rest, block) ==
      legs[i].mid + (EntryOps(false, legs[i].entry, block, legs[i].buf) +
                     (next.mid + (EntryOps(false, next.entry, block, next.buf) + tail)));
    CutUp(LegOps(legs[..i], block), legs[i].mid, EntryOps(false, legs[i].entry, block, legs[i].buf), next.mid,
      SwitchOps(false, next.entry.path), Blocks(PLAIN, next.entry.data, 0, block, next.buf) + [Check], tail, end);
  }

  /** What the reader does once file `i + 1` is open. */
  function Behind(legs: seq<Leg>, i: nat, end: seq<Op>, block: nat): seq<Op>
    requires 0 < block && i + 1 < |legs|
  {
    (Blocks(PLAIN, legs[i + 1].entry.data, 0, block, legs[i + 1].buf) + [Check]) + (LegOps(legs[i + 2..], block) + end)
  }

  lemma CutUp(a: seq<Op>, m: seq<Op>, e: seq<Op>, n: seq<Op>, x: seq<Op>, y: seq<Op>, tail: seq<Op>, end: seq<Op>)
    ensures (a + (m + (e + (n + ((x + y) + tail))))) + end == (a + m) + (e + (n + (x + (y + (tail + end)))))
  {
    var back := n + ((x + y) + tail);
    assert (a + (m + (e + back))) + end == (a + m) + (e + (back + end));
    assert back + end == n + (x + (y + (tail + end)));
  }

  lemma BehindNeverOpens(path: Path, legs: seq<Leg>, i: nat, end: seq<Op>, block: nat)
    requires 0 < block && i + 1 < |legs| && Tidy(legs) && NeverOpens(path, end)
    requires forall j :: i < j < |legs| ==> legs[j].entry.path != path
    ensures NeverOpens(path, Behind(legs, i, end, block))
  {
    var next := legs[i + 1];
    LegsNeverOpen(path, legs[i + 2..], block);
    BlocksNeverOpen(path, next.entry.data, block, next.buf);
    hide NeverOpens, Blocks;
    NeverOpensAppend(path, LegOps(legs[i + 2..], block), end);
    NeverOpensAppend(path, Blocks(PLAIN, next.entry.data, 0, block, next.buf) + [Check], LegOps(legs[i + 2..], block) + end);
  }

  /** The last block of file `i` ends up in file `i + 1`. */
  lemma LegMisfiles(c: Config, d: Config, legs: seq<Leg>, end: seq<Op>, i: nat, block: nat) returns (t: State)
    requires Twin(c, d) && 0 < block && c.program == LegOps(legs, block) + end && c.epilogue == [] && Tidy(legs)
    requires i + 1 < |legs| && legs[i].entry.data != [] && NeverOpens(legs[i].entry.path, end)
    requires forall j :: i < j < |legs| ==> legs[j].entry.path != legs[i].entry.path
    requires c.wake.Spurious? ||
      (c.wake.Late? && legs[i + 1].mid == [] &&
       NotFirst(LegOps(legs[..i], block) + legs[i].mid, legs[i].entry, block))
    ensures var e := legs[i].entry;
      Reachable(c, t) && t.supervisor == Ended(true) && e.path in t.output.disk && t.output.disk[e.path] != e.data
  {
    var e, next := legs[i].entry, legs[i + 1];
    CutAtLegs(legs, end, i, block);
    BehindNeverOpens(e.path, legs, i, end, block);
    CleanNeverOpens(e.path, next.mid);
    t := Misfiles(c, d, LegOps(legs[..i], block) + legs[i].mid, e, block, legs[i].buf,
      next.mid, next.entry.path, Behind(legs, i, end, block));
  }

  /** The walk of a whole dump. */
  function Walk(job: TreeJob): Flat
    requires 0 < job.block
  {
    var dir := Render(job.mount, job.above);
    assert dir[|job.mount| + 1] == '/';
    Flatten(job.base, dir, job.Nodes(), job.block, First, [])
  }

  lemma WalkIsProgram(job: TreeJob, wake: Wake)
    requires 0 < job.block && !job.usb
    ensures var f := Walk(job);
      TreeConfig(job, wake).program == LegOps(f.legs, job.block) + (f.rest + EndOps(false)) &&
      Follow(f.legs, Wanted(job)) && Tidy(f.legs) && Clean(f.rest)
  {
    var dir := Render(job.mount, job.above);
    assert dir[|job.mount| + 1] == '/';
    var walk := TreeOps(false, job.base, dir, job.Nodes(), job.block, First);
    FlattenIsWalk(job.base, dir, job.Nodes(), job.block, First, []);
    FlattenFollows(job.base, dir, job.Nodes(), job.block, First, []);
    assert [] + walk == walk;
  }

  lemma TreeTwin(job: TreeJob, wake: Wake)
    requires 0 < job.block && !job.usb
    ensures Twin(TreeConfig(job, wake), TreeConfig(job, Fused)) && TreeConfig(job, wake).epilogue == []
  {
    TreeWellFormed(job, Fused);
  }

  /** Where a late wake, or a spurious one, does its harm. */
  lemma WhereItStays(job: TreeJob, wake: Wake) returns (i: nat)
    requires 0 < job.block && !job.usb && !job.Reliable(wake)
    ensures !wake.Fused? && i + 1 < |Walk(job).legs| && Walk(job).legs[i].entry.data != []
    ensures wake.Late? ==> Stays(Walk(job).legs, 0, i, job.block)
  {
    WalkIsProgram(job, wake);
    if wake.Late? {
      var dir := Render(job.mount, job.above);
      assert dir[|job.mount| + 1] == '/';
      i := ExposedStays(job.base, dir, job.Nodes(), 0, job.block, First, []);
    } else {
      i := LastFilled(ButLast(Wanted(job)), job.block);
    }
  }

  /** More than one block up to the end of a file: something is written before its last one. */
  lemma StaysNotFirst(legs: seq<Leg>, entries: seq<Entry>, i: nat, block: nat)
    requires 0 < block && Stays(legs, 0, i, block) && Follow(legs, entries) && Tidy(legs)
    ensures NotFirst(LegOps(legs[..i], block) + legs[i].mid, legs[i].entry, block)
  {
    LegsOwe(legs[..i], entries[..i], block);
    NoneOwed(legs[i].mid);
    OwedAppend(LegOps(legs[..i], block), legs[i].mid);
    LegBlocksAre(legs[..i], entries[..i], block);
    assert legs[..i + 1] == legs[..i] + [legs[i]];
    LegBlocksAppend(legs[..i], [legs[i]], block);
    OneLeg(legs[i], block);
    if BlocksIn(entries[..i], block) > 0 {
      SomeData(entries[..i], block);
    } else {
      BlockCountBounds(|legs[i].entry.data|, block, 1);
    }
  }

  lemma TreeMisfiles(job: TreeJob, wake: Wake) returns (run: seq<Event>)
    requires 0 < job.block && !job.usb && DistinctPaths(Wanted(job)) && !job.Reliable(wake)
    ensures Succeeds(TreeConfig(job, wake), run)
    ensures Exec(TreeConfig(job, wake), run).value.output.disk != Saved(job.before, Wanted(job))
  {
    var c, f := TreeConfig(job, wake), Walk(job);
    var i := WhereItStays(job, wake);
    WalkIsProgram(job, wake);
    TreeTwin(job, wake);
    if wake.Late? {
      StaysNotFirst(f.legs, Wanted(job), i, job.block);
    }
    var path := f.legs[i].entry.path;
    CleanNeverOpens(path, f.rest);
    EndNeverOpens(path);
    NeverOpensAppend(path, f.rest, EndOps(false));
    var t := LegMisfiles(c, TreeConfig(job, Fused), f.legs, f.rest + EndOps(false), i, job.block);
    SavedIsEach(job.before, Wanted(job));
    run :| Exec(c, run) == Some(t);
  }

  /**
   * Success of a directory dump to a file system means that every leaf is saved,
   * whatever the schedule, exactly if wakes are fused, or late and no file is exposed,
   * or spurious and all leaves but the last are empty.
   */
  lemma TreeSuccessMeansSaved(job: TreeJob, wake: Wake)
    requires 0 < job.block && !job.usb && SlashFree(job.mount) && Names(job.above) && WellNamed(All(job.items))
    ensures (forall run :: Succeeds(TreeConfig(job, wake), run) ==>
               Exec(TreeConfig(job, wake), run).value.output.disk == Saved(job.before, Wanted(job))) <==>
      wake.Fused? || (wake.Late? && !Exposed(job.Nodes(), 0, job.block)) ||
      (wake.Spurious? && BlocksIn(ButLast(Wanted(job)), job.block) == 0)
  {
    HighlightedNamed(job.items);
    LeavesDistinct(job.base, job.mount, job.above, job.Nodes());
    ReliableMeans(job, wake);
    if job.Reliable(wake) {
      forall run | Succeeds(TreeConfig(job, wake), run)
        ensures Exec(TreeConfig(job, wake), run).value.output.disk == Saved(job.before, Wanted(job))
      {
        EveryLeafSaved(job, wake, run);
      }
    } else {
      var run := TreeMisfiles(job, wake);
    }
  }

  lemma ReliableMeans(job: TreeJob, wake: Wake)
    requires 0 < job.block && !job.usb
    ensures job.Reliable(wake) <==>
      wake.Fused? || (wake.Late? && !Exposed(job.Nodes(), 0, job.block)) ||
      (wake.Spurious? && BlocksIn(ButLast(Wanted(job)), job.block) == 0)
  {
    NoBlocksIn(job.block);
  }
}
