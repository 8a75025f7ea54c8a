// The dump of the highlighted entries of a directory, which recurses into
// subdirectories.  The two buffers are passed down by value, so a call that
// swapped them returns to a caller that still has them the old way round.
module TreeDump {
  import opened Options
  import opened Sequences
  import opened DumpMachine
  import opened DumpInvariants
  import opened DumpTheorems
  import opened DumpPrograms
  import opened ExtractedDump
  import opened Paths

  datatype Node =
    | File(name: string, data: seq<byte>)
    | Dir(name: string, children: seq<Node>)

  /** An entry of the directory that is shown, and whether the user has highlighted it. */
  datatype Item = Item(node: Node, highlight: bool)

  /** What the topmost call goes through; directories further down are taken whole. */
  function Highlighted(items: seq<Item>): seq<Node>
  {
    if items == [] then []
    else (if items[0].highlight then [items[0].node] else []) + Highlighted(items[1..])
  }

  /** The input path of an entry: the directory's path ends with a slash only at the root. */
  function ChildPath(dir: string, name: string): (r: string)
    requires dir != ""
    ensures '/' in dir ==> '/' in r
  {
    dir + (if dir[|dir| - 1] != '/' then "/" else "") + name
  }

  /** The output path: whatever follows the first slash of the input directory, below `base`. */
  function OutPath(base: string, dir: string, name: string): string
    requires '/' in dir
  {
    var start := dir[FirstSlash(dir) + 1..];
    if start != "" then base + "/" + start + "/" + name else base + "/" + name
  }

  /** The statements of the recursive loop over `nodes`, entered with `b` as first buffer to fill. */
  function TreeOps(usb: bool, base: string, dir: string, nodes: seq<Node>, block: nat, b: Buffer): seq<Op>
    requires 0 < block && '/' in dir
    decreases nodes
  {
    if nodes == [] then []
    else
      match nodes[0]
      case File(name, data) =>
        EntryOps(usb, Entry(OutPath(base, dir, name), data), block, b) +
        TreeOps(usb, base, dir, nodes[1..], block, NextBuffer(|data|, block, b))
      case Dir(name, children) =>
        EnterOps(usb) +
        (TreeOps(usb, base, ChildPath(dir, name), children, block, b) +
         (EndOps(usb) +
          TreeOps(usb, base, dir, nodes[1..], block, b)))
  }

  /** Up to the first entry of a subdirectory. */
  function EnterOps(usb: bool): seq<Op> { if usb then [Poll, Lookup] else [Poll, Drain, Close, Lookup] }

  /** The files of the tree in the order of the walk, each with its output path. */
  function Leaves(base: string, dir: string, nodes: seq<Node>): seq<Entry>
    requires '/' in dir
    decreases nodes
  {
    if nodes == [] then []
    else
      (match nodes[0]
       case File(name, data) => [Entry(OutPath(base, dir, name), data)]
       case Dir(name, children) => Leaves(base, ChildPath(dir, name), children)) +
      Leaves(base, dir, nodes[1..])
  }

  lemma EnterRun(c: Config, g: Ref)
    ensures Saves(c, g, EnterOps(c.usb), [])
    ensures RefRun(c, g, EnterOps(c.usb)).published == g.published
    ensures !c.usb ==> RefRun(c, g, EnterOps(c.usb)).passed
  {
    if c.usb {
      assert [Poll, Lookup] == [Poll] + ([Lookup] + []);
      Cons(c, g, Poll, [Lookup] + []);
      Cons(c, g, Lookup, []);
    } else {
      var g1 := RefStep(c, g, Drain);
      assert [Poll, Drain, Close, Lookup] == [Poll] + ([Drain] + ([Close] + ([Lookup] + [])));
      Cons(c, g, Poll, [Drain] + ([Close] + ([Lookup] + [])));
      Cons(c, g, Drain, [Close] + ([Lookup] + []));
      Cons(c, g1, Close, [Lookup] + []);
      Cons(c, g1.(output := g.output.(file := None)), Lookup, []);
    }
    assert Concat(g.published) + [] == Concat(g.published);
  }

  /** How many blocks the files take. */
  function TreeBlocks(nodes: seq<Node>, block: nat): nat
    requires 0 < block
    decreases nodes
  {
    if nodes == [] then 0
    else
      (match nodes[0]
       case File(_, data) => BlockCount(|data|, block)
       case Dir(_, children) => TreeBlocks(children, block)) + TreeBlocks(nodes[1..], block)
  }

  /**
   * A file that holds data is followed, in the same directory, by another file, and
   * a block was handed over before its last one.  Between other files there are two
   * waits for the slot, of which a late wake lets only one pass.
   */
  predicate Exposed(nodes: seq<Node>, published: nat, block: nat)
    requires 0 < block
    decreases nodes
  {
    nodes != [] &&
    match nodes[0]
    case File(_, data) =>
      var behind := published + BlockCount(|data|, block);
      (data != [] && behind > 1 && |nodes| > 1 && nodes[1].File?) || Exposed(nodes[1..], behind, block)
    case Dir(_, children) =>
      Exposed(children, published, block) || Exposed(nodes[1..], published + TreeBlocks(children, block), block)
  }

  /** Every file is opened while the slot is sure to be empty. */
  predicate TreeFits(wake: Wake, usb: bool, published: nat, nodes: seq<Node>, leaves: seq<Entry>, block: nat)
    requires 0 < block
  {
    if wake.Late? && !usb then !Exposed(nodes, published, block) else Fits(wake, published, leaves, block)
  }

  /** If the first entry is a file, it may be opened. */
  predicate MayOpen(c: Config, g: Ref, nodes: seq<Node>) { nodes != [] && nodes[0].File? ==> Frees(c.wake, g) }

  lemma {:induction false} TreeBlocksIn(base: string, dir: string, nodes: seq<Node>, block: nat)
    requires 0 < block && '/' in dir
    ensures BlocksIn(Leaves(base, dir, nodes), block) == TreeBlocks(nodes, block)
    decreases nodes
  {
    if nodes != [] {
      TreeBlocksIn(base, dir, nodes[1..], block);
      match nodes[0] {
        case File(name, data) =>
          OneEntry(Entry(OutPath(base, dir, name), data), block);
          BlocksInAppend([Entry(OutPath(base, dir, name), data)], Leaves(base, dir, nodes[1..]), block);
        case Dir(name, children) =>
          TreeBlocksIn(base, ChildPath(dir, name), children, block);
          BlocksInAppend(Leaves(base, ChildPath(dir, name), children), Leaves(base, dir, nodes[1..]), block);
      }
    }
  }

  /** The walk is safe and saves exactly the leaves. */
  lemma {:induction false} TreeRun(
    c: Config, g: Ref, base: string, dir: string, nodes: seq<Node>, block: nat, b: Buffer)
    requires 0 < block && '/' in dir && MayOpen(c, g, nodes)
    requires TreeFits(c.wake, c.usb, |g.published|, nodes, Leaves(base, dir, nodes), block)
    ensures Walked(c, g, TreeOps(c.usb, base, dir, nodes, block, b), Leaves(base, dir, nodes), block)
    decreases nodes
  {
    hide Walked, EntryOps, EnterOps, EndOps, NextBuffer, TreeFits, MayOpen, OutPath, TreeOps, Leaves, RefRun;
    if nodes == [] {
      NothingWalked(c, g, base, dir, block, b);
    } else if nodes[0].File? {
      var e, next := LeafOf(base, dir, nodes[0]), NextBuffer(|nodes[0].data|, block, b);
      FileFits(c, g, base, dir, nodes, block, b);
      TreeRun(c, RefRun(c, g, EntryOps(c.usb, e, block, b)), base, dir, nodes[1..], block, next);
      FileWalked(c, g, base, dir, nodes, block, b);
    } else {
      var below, children := ChildPath(dir, nodes[0].name), nodes[0].children;
      var g1 := RefRun(c, g, EnterOps(c.usb));
      DirFits(c, g, base, dir, nodes, block);
      TreeRun(c, g1, base, below, children, block, b);
      var g2 := RefRun(c, g1, TreeOps(c.usb, base, below, children, block, b));
      EndWalked(c, g1, base, dir, nodes, block, b);
      TreeRun(c, RefRun(c, g2, EndOps(c.usb)), base, dir, nodes[1..], block, b);
      DirWalked(c, g, base, dir, nodes, block, b);
    }
  }

  /** The file that stands first. */
  function LeafOf(base: string, dir: string, node: Node): Entry
    requires '/' in dir && node.File?
  {
    Entry(OutPath(base, dir, node.name), node.data)
  }

  lemma NothingWalked(c: Config, g: Ref, base: string, dir: string, block: nat, b: Buffer)
    requires 0 < block && '/' in dir
    ensures Walked(c, g, TreeOps(c.usb, base, dir, [], block, b), Leaves(base, dir, []), block)
  {
    assert Concat(g.published) + [] == Concat(g.published);
  }

  lemma FileWalked(c: Config, g: Ref, base: string, dir: string, nodes: seq<Node>, block: nat, b: Buffer)
    requires 0 < block && '/' in dir && nodes != [] && nodes[0].File?
    requires var e := LeafOf(base, dir, nodes[0]);
      Walked(c, g, EntryOps(c.usb, e, block, b), [e], block) &&
      Walked(c, RefRun(c, g, EntryOps(c.usb, e, block, b)),
             TreeOps(c.usb, base, dir, nodes[1..], block, NextBuffer(|e.data|, block, b)),
             Leaves(base, dir, nodes[1..]), block)
    ensures Walked(c, g, TreeOps(c.usb, base, dir, nodes, block, b), Leaves(base, dir, nodes), block)
  {
    hide Walked, EntryOps, NextBuffer, OutPath, RefRun;
    var e := LeafOf(base, dir, nodes[0]);
    JoinWalked(c, g, EntryOps(c.usb, e, block, b),
      TreeOps(c.usb, base, dir, nodes[1..], block, NextBuffer(|e.data|, block, b)), [e],
      Leaves(base, dir, nodes[1..]), block);
  }

  lemma DirWalked(c: Config, g: Ref, base: string, dir: string, nodes: seq<Node>, block: nat, b: Buffer)
    requires 0 < block && '/' in dir && nodes != [] && nodes[0].Dir? && Walked(c, g, EnterOps(c.usb), [], block)
    requires var g1, below := RefRun(c, g, EnterOps(c.usb)), ChildPath(dir, nodes[0].name);
      var ops := TreeOps(c.usb, base, below, nodes[0].children, block, b);
      var g2 := RefRun(c, g1, ops);
      Walked(c, g1, ops, Leaves(base, below, nodes[0].children), block) && Walked(c, g2, EndOps(c.usb), [], block) &&
      Walked(c, RefRun(c, g2, EndOps(c.usb)), TreeOps(c.usb, base, dir, nodes[1..], block, b),
             Leaves(base, dir, nodes[1..]), block)
    ensures Walked(c, g, TreeOps(c.usb, base, dir, nodes, block, b), Leaves(base, dir, nodes), block)
  {
    hide Walked, EnterOps, EndOps, RefRun;
    var below := ChildPath(dir, nodes[0].name);
    JoinDirectory(c, g, EnterOps(c.usb), TreeOps(c.usb, base, below, nodes[0].children, block, b), EndOps(c.usb),
      TreeOps(c.usb, base, dir, nodes[1..], block, b), Leaves(base, below, nodes[0].children),
      Leaves(base, dir, nodes[1..]), block);
  }

  /** What has to fit behind a file. */
  lemma FileFits(c: Config, g: Ref, base: string, dir: string, nodes: seq<Node>, block: nat, b: Buffer)
    requires 0 < block && '/' in dir && MayOpen(c, g, nodes) && nodes != [] && nodes[0].File?
    requires TreeFits(c.wake, c.usb, |g.published|, nodes, Leaves(base, dir, nodes), block)
    ensures var e := LeafOf(base, dir, nodes[0]);
      var h := RefRun(c, g, EntryOps(c.usb, e, block, b));
      Walked(c, g, EntryOps(c.usb, e, block, b), [e], block) && MayOpen(c, h, nodes[1..]) &&
      TreeFits(c.wake, c.usb, |h.published|, nodes[1..], Leaves(base, dir, nodes[1..]), block)
  {
    hide Walked, EntryOps, TreeFits, MayOpen, OutPath, RefRun;
    FirstLeaf(base, dir, nodes[1..]);
    EntryWalked(c, g, nodes, LeafOf(base, dir, nodes[0]), Leaves(base, dir, nodes[1..]), block, b);
  }

  lemma LeavesOfDir(base: string, dir: string, nodes: seq<Node>)
    requires '/' in dir && nodes != [] && nodes[0].Dir?
    ensures Leaves(base, dir, nodes) ==
      Leaves(base, ChildPath(dir, nodes[0].name), nodes[0].children) + Leaves(base, dir, nodes[1..])
  {
  }

  /** What has to fit in a directory and behind it. */
  lemma DirFits(c: Config, g: Ref, base: string, dir: string, nodes: seq<Node>, block: nat)
    requires 0 < block && '/' in dir && nodes != [] && nodes[0].Dir?
    requires TreeFits(c.wake, c.usb, |g.published|, nodes, Leaves(base, dir, nodes), block)
    ensures Walked(c, g, EnterOps(c.usb), [], block)
    ensures var g1, inside := RefRun(c, g, EnterOps(c.usb)), Leaves(base, ChildPath(dir, nodes[0].name), nodes[0].children);
      TreeFits(c.wake, c.usb, |g1.published|, nodes[0].children, inside, block) && MayOpen(c, g1, nodes[0].children) &&
      TreeFits(c.wake, c.usb, |g1.published| + BlocksIn(inside, block), nodes[1..], Leaves(base, dir, nodes[1..]), block)
  {
    hide Walked, EnterOps, TreeFits, MayOpen, RefRun, Leaves, TreeBlocks, BlocksIn, ChildPath;
    var inside, others := Leaves(base, ChildPath(dir, nodes[0].name), nodes[0].children), Leaves(base, dir, nodes[1..]);
    LeavesOfDir(base, dir, nodes);
    TreeBlocksIn(base, ChildPath(dir, nodes[0].name), nodes[0].children, block);
    FirstLeaf(base, ChildPath(dir, nodes[0].name), nodes[0].children);
    EnterWalked(c, g, nodes, inside, others, block);
  }

  lemma FirstLeaf(base: string, dir: string, nodes: seq<Node>)
    requires '/' in dir
    ensures nodes != [] && nodes[0].File? ==> Leaves(base, dir, nodes) != []
  {
  }

  /** A file, with what has to fit behind it. */
  lemma EntryWalked(c: Config, g: Ref, nodes: seq<Node>, e: Entry, others: seq<Entry>, block: nat, b: Buffer)
    requires 0 < block && TreeFits(c.wake, c.usb, |g.published|, nodes, [e] + others, block) && MayOpen(c, g, nodes)
    requires nodes != [] && nodes[0].File? && nodes[0].data == e.data
    requires |nodes| > 1 && nodes[1].File? ==> others != []
    ensures Walked(c, g, EntryOps(c.usb, e, block, b), [e], block)
    ensures var h := RefRun(c, g, EntryOps(c.usb, e, block, b));
      TreeFits(c.wake, c.usb, |h.published|, nodes[1..], others, block) && MayOpen(c, h, nodes[1..])
  {
    hide Saves, EntryOps, BlocksIn;
    EntryRun(c, g, c.usb, e, block, b);
    OneEntry(e, block);
    if !(c.wake.Late? && !c.usb) {
      FitsAppend(c.wake, |g.published|, [e], others, block);
    }
  }

  lemma EnterWalked(c: Config, g: Ref, nodes: seq<Node>, inside: seq<Entry>, others: seq<Entry>, block: nat)
    requires 0 < block && TreeFits(c.wake, c.usb, |g.published|, nodes, inside + others, block)
    requires nodes != [] && nodes[0].Dir? && BlocksIn(inside, block) == TreeBlocks(nodes[0].children, block)
    requires nodes[0].children != [] && nodes[0].children[0].File? ==> inside != []
    ensures Walked(c, g, EnterOps(c.usb), [], block)
    ensures var g1 := RefRun(c, g, EnterOps(c.usb));
      TreeFits(c.wake, c.usb, |g1.published|, nodes[0].children, inside, block) && MayOpen(c, g1, nodes[0].children) &&
      TreeFits(c.wake, c.usb, |g1.published| + BlocksIn(inside, block), nodes[1..], others, block)
  {
    hide Saves, EnterOps, BlocksIn, RefRun, TreeFits, Settles;
    NoBlocksIn(block);
    EnterRun(c, g);
    DirSplits(c.wake, c.usb, |g.published|, nodes, inside, others, block);
  }

  /** What fits as a whole fits in the directory and behind it. */
  lemma DirSplits(
    wake: Wake, usb: bool, published: nat, nodes: seq<Node>, inside: seq<Entry>, others: seq<Entry>, block: nat)
    requires 0 < block && TreeFits(wake, usb, published, nodes, inside + others, block)
    requires nodes != [] && nodes[0].Dir? && BlocksIn(inside, block) == TreeBlocks(nodes[0].children, block)
    ensures TreeFits(wake, usb, published, nodes[0].children, inside, block)
    ensures TreeFits(wake, usb, published + BlocksIn(inside, block), nodes[1..], others, block)
    ensures inside != [] ==> Settles(wake, published) || (wake.Late? && !usb)
  {
    hide BlocksIn, TreeBlocks;
    if !(wake.Late? && !usb) {
      FitsAppend(wake, published, inside, others, block);
    }
  }

  /** Coming out of a directory. */
  lemma EndWalked(c: Config, g: Ref, base: string, dir: string, nodes: seq<Node>, block: nat, b: Buffer)
    requires 0 < block && '/' in dir && nodes != [] && nodes[0].Dir?
    requires var below := ChildPath(dir, nodes[0].name);
      var inside := Leaves(base, below, nodes[0].children);
      Walked(c, g, TreeOps(c.usb, base, below, nodes[0].children, block, b), inside, block) &&
      TreeFits(c.wake, c.usb, |g.published| + BlocksIn(inside, block), nodes[1..], Leaves(base, dir, nodes[1..]), block)
    ensures var g2 := RefRun(c, g, TreeOps(c.usb, base, ChildPath(dir, nodes[0].name), nodes[0].children, block, b));
      var h := RefRun(c, g2, EndOps(c.usb));
      Walked(c, g2, EndOps(c.usb), [], block) && MayOpen(c, h, nodes[1..]) &&
      TreeFits(c.wake, c.usb, |h.published|, nodes[1..], Leaves(base, dir, nodes[1..]), block)
  {
    hide Saves, EndOps, BlocksIn, RefRun, TreeOps, Leaves;
    NoBlocksIn(block);
    FirstLeaf(base, dir, nodes[1..]);
    EndRun(c, RefRun(c, g, TreeOps(c.usb, base, ChildPath(dir, nodes[0].name), nodes[0].children, block, b)));
  }

  lemma JoinWalked(c: Config, g: Ref, a: seq<Op>, b: seq<Op>, x: seq<Entry>, y: seq<Entry>, block: nat)
    requires 0 < block && Walked(c, g, a, x, block) && Walked(c, RefRun(c, g, a), b, y, block)
    ensures Walked(c, g, a + b, x + y, block) && RefRun(c, g, a + b) == RefRun(c, RefRun(c, g, a), b)
  {
    hide Saves, BlocksIn;
    SavesTwice(c, g, a, b, x, y);
    BlocksInAppend(x, y, block);
  }

  ghost predicate Walked(c: Config, g: Ref, ops: seq<Op>, entries: seq<Entry>, block: nat)
    requires 0 < block
  {
    Saves(c, g, ops, entries) && |RefRun(c, g, ops).published| == |g.published| + BlocksIn(entries, block)
  }

  lemma JoinDirectory(c: Config, g: Ref, enter: seq<Op>, below: seq<Op>, end: seq<Op>, rest: seq<Op>,
                      inside: seq<Entry>, others: seq<Entry>, block: nat)
    requires 0 < block && Walked(c, g, enter, [], block)
    requires Walked(c, RefRun(c, g, enter), below, inside, block)
    requires Walked(c, RefRun(c, RefRun(c, g, enter), below), end, [], block)
    requires Walked(c, RefRun(c, RefRun(c, RefRun(c, g, enter), below), end), rest, others, block)
    ensures Walked(c, g, enter + (below + (end + rest)), inside + others, block)
  {
    hide Walked;
    var g1 := RefRun(c, g, enter);
    JoinWalked(c, RefRun(c, g1, below), end, rest, [], others, block);
    assert [] + others == others;
    JoinWalked(c, g1, below, end + rest, inside, others, block);
    JoinWalked(c, g, enter, below + (end + rest), [], inside + others, block);
    assert [] + (inside + others) == inside + others;
  }

  datatype TreeJob = TreeJob(base: string, mount: string, above: seq<string>, items: seq<Item>,
                             block: nat, usb: bool, before: map<Path, seq<byte>>)
  {
    function Nodes(): seq<Node> { Highlighted(items) }

    /** Every wait that the next file depends on can be relied on. */
    predicate Reliable(wake: Wake)
      requires 0 < block
    {
      TreeFits(wake, usb, 0, Nodes(), Wanted(this), block)
    }
  }

  /** The files that are to be dumped, each with its output path. */
  function Wanted(job: TreeJob): seq<Entry>
  {
    var dir := Render(job.mount, job.above);
    assert dir[|job.mount| + 1] == '/';
    Leaves(job.base, dir, job.Nodes())
  }

  function TreeConfig(job: TreeJob, wake: Wake): Config
    requires 0 < job.block
  {
    var dir := Render(job.mount, job.above);
    assert dir[|job.mount| + 1] == '/';
    Config(TreeOps(job.usb, job.base, dir, job.Nodes(), job.block, First) + EndOps(job.usb), [],
           |AllData(Wanted(job))|, job.usb, wake, None, job.before, 0)
  }

  lemma {:induction false} TreeNeverStops(usb: bool, base: string, dir: string, nodes: seq<Node>, block: nat, b: Buffer)
    requires 0 < block && '/' in dir
    ensures NoStop(TreeOps(usb, base, dir, nodes, block, b))
    decreases nodes
  {
    if nodes != [] {
      match nodes[0] {
        case File(name, data) =>
          var next := NextBuffer(|data|, block, b);
          EntryNeverStops(usb, Entry(OutPath(base, dir, name), data), block, b);
          TreeNeverStops(usb, base, dir, nodes[1..], block, next);
          NoStopJoin(EntryOps(usb, Entry(OutPath(base, dir, name), data), block, b),
            TreeOps(usb, base, dir, nodes[1..], block, next));
        case Dir(name, children) =>
          var inside := TreeOps(usb, base, ChildPath(dir, name), children, block, b);
          var rest := TreeOps(usb, base, dir, nodes[1..], block, b);
          TreeNeverStops(usb, base, ChildPath(dir, name), children, block, b);
          TreeNeverStops(usb, base, dir, nodes[1..], block, b);
          NoStopJoin(EndOps(usb), rest);
          NoStopJoin(inside, EndOps(usb) + rest);
          NoStopJoin(EnterOps(usb), inside + (EndOps(usb) + rest));
      }
    }
  }

  /**
   * A successful directory dump has saved exactly the leaf files below the
   * highlighted entries, if the waits can be relied on: with fused wakes always,
   * with late ones if no file is exposed.
   */
  lemma EveryLeafSaved(job: TreeJob, wake: Wake, run: seq<Event>)
    requires 0 < job.block && job.Reliable(wake) && Exec(TreeConfig(job, wake), run).Some?
    requires Exec(TreeConfig(job, wake), run).value.supervisor == Ended(true)
    ensures Exec(TreeConfig(job, wake), run).value.output.disk == Saved(job.before, Wanted(job))
  {
    TreeWellFormed(job, wake);
    SuccessRunsAll(TreeConfig(job, wake), run);
  }

  lemma TreeWellFormed(job: TreeJob, wake: Wake)
    requires 0 < job.block && job.Reliable(wake)
    ensures var c := TreeConfig(job, wake);
      WellFormed(c) && NoStop(c.program) && Saves(c, RefInit(c), c.program, Wanted(job))
  {
    var c, dir := TreeConfig(job, wake), Render(job.mount, job.above);
    assert dir[|job.mount| + 1] == '/';
    var walk := TreeOps(job.usb, job.base, dir, job.Nodes(), job.block, First);
    assert RefInit(c).published == [];
    TreeRun(c, RefInit(c), job.base, dir, job.Nodes(), job.block, First);
    EndRun(c, RefRun(c, RefInit(c), walk));
    SavesTwice(c, RefInit(c), walk, EndOps(job.usb), Wanted(job), []);
    assert Wanted(job) + [] == Wanted(job);
    TreeNeverStops(job.usb, job.base, dir, job.Nodes(), job.block, First);
    NoStopIsSafe(c, RefInit(c), c.program);
  }

  /**
   * Whenever the reader has just come back from a directory, in any run, the slot
   * is empty, so the caller's two buffers are both free whichever way round it
   * still has them.
   */
  lemma ReturnsWithEmptySlot(job: TreeJob, wake: Wake, run: seq<Event>, before: seq<Op>)
    requires 0 < job.block && job.Reliable(wake) && Exec(TreeConfig(job, wake), run).Some?
    requires Exec(TreeConfig(job, wake), run).value.reader.done == before + EndOps(job.usb)
    requires Settles(wake, |Exec(TreeConfig(job, wake), run).value.reader.ref.published|)
    ensures Exec(TreeConfig(job, wake), run).value.shared.dataSize == 0
  {
    var c := TreeConfig(job, wake);
    TreeWellFormed(job, wake);
    RunSound(c, run);
    var g := RefRun(c, RefInit(c), before);
    RefRunAppend(c, RefInit(c), before, EndOps(job.usb));
    EndRun(c, g);
    EndLive(c, g);
  }

  lemma EndLive(c: Config, g: Ref)
    requires Settles(c.wake, |g.published|)
    ensures RefRun(c, g, EndOps(c.usb)).live == None
  {
    assert [FinalDrain] == [FinalDrain] + [] && [FinalDrain, Close] == [FinalDrain] + ([Close] + []);
    Cons(c, g, FinalDrain, []);
    Cons(c, g, FinalDrain, [Close] + []);
    Cons(c, g.(live := None), Close, []);
  }

  // ------------------------------------------------ paths mirror the source

  /** Sibling entries have different names, none of them empty or with a slash. */
  predicate WellNamed(nodes: seq<Node>)
    decreases nodes
  {
    (forall i, j :: 0 <= i < j < |nodes| ==> nodes[i].name != nodes[j].name) &&
    (forall i :: 0 <= i < |nodes| ==> Name(nodes[i].name)) &&
    (forall i :: 0 <= i < |nodes| && nodes[i].Dir? ==> WellNamed(nodes[i].children))
  }

  datatype Located = Located(names: seq<string>, data: seq<byte>)

  /** The files of the tree with the names that lead to them from the root of the device. */
  function FilesBelow(above: seq<string>, nodes: seq<Node>): seq<Located>
    decreases nodes
  {
    if nodes == [] then []
    else
      (match nodes[0]
       case File(name, data) => [Located(above + [name], data)]
       case Dir(name, children) => FilesBelow(above + [name], children)) +
      FilesBelow(above, nodes[1..])
  }

  /** Entering a subdirectory adds its name; the output path is the same list of names below `base`. */
  lemma PathsMirror(base: string, mount: string, above: seq<string>, name: string)
    requires SlashFree(mount) && Names(above) && Name(name)
    ensures '/' in Render(mount, above)
    ensures ChildPath(Render(mount, above), name) == Render(mount, above + [name])
    ensures OutPath(base, Render(mount, above), name) == base + "/" + Join(above + [name])
  {
    hide FirstSlash, Join;
    JoinPush(above, name);
    RootSlash(mount, above);
    TrailingSlash(mount, above);
    var dir := Render(mount, above);
    var rest := dir[FirstSlash(dir) + 1..];
    if above != [] {
      JoinNotEmpty(above);
      assert dir + "/" + name == mount + ":/" + (Join(above) + "/" + name);
      assert base + "/" + rest + "/" + name == base + "/" + (Join(above) + "/" + name);
    }
  }

  /** Only the root's path ends in a slash. */
  lemma TrailingSlash(mount: string, above: seq<string>)
    requires Names(above)
    ensures Render(mount, above) != [] && (above == [] ==> Join(above) == "")
    ensures Render(mount, above)[|Render(mount, above)| - 1] == '/' <==> above == []
  {
    var dir := Render(mount, above);
    if above != [] {
      JoinNotEmpty(above);
      assert dir[|dir| - 1] == Join(above)[|Join(above)| - 1];
    }
  }

  /** The first slash is the one after the colon. */
  lemma RootSlash(mount: string, above: seq<string>)
    requires SlashFree(mount)
    ensures '/' in Render(mount, above)
    ensures Render(mount, above)[FirstSlash(Render(mount, above)) + 1..] == Join(above)
  {
    var dir := Render(mount, above);
    assert dir[|mount| + 1] == '/';
    assert forall i :: 0 <= i <= |mount| ==> dir[i] != '/';
    var i := FirstSlash(dir);
    assert i <= |mount| + 1;
  }

  function Placed(base: string, f: Located): Entry { Entry(base + "/" + Join(f.names), f.data) }

  /** The leaves of one list of nodes, in order, are at the mirrored paths. */
  predicate Mirrored(base: string, leaves: seq<Entry>, files: seq<Located>)
  {
    |leaves| == |files| && forall i :: 0 <= i < |files| ==> leaves[i] == Placed(base, files[i])
  }

  lemma MirroredAppend(base: string, a: seq<Entry>, x: seq<Located>, b: seq<Entry>, y: seq<Located>)
    requires Mirrored(base, a, x) && Mirrored(base, b, y)
    ensures Mirrored(base, a + b, x + y)
  {
  }

  /** Every leaf goes to the path that mirrors where it came from. */
  lemma {:induction false} LeavesMirror(base: string, mount: string, above: seq<string>, nodes: seq<Node>)
    requires SlashFree(mount) && Names(above) && WellNamed(nodes)
    ensures '/' in Render(mount, above)
    ensures Mirrored(base, Leaves(base, Render(mount, above), nodes), FilesBelow(above, nodes))
    decreases nodes
  {
    hide Render, OutPath, ChildPath, Join, FirstSlash, Mirrored, Placed, WellNamed, Leaves, FilesBelow;
    RootSlash(mount, above);
    if nodes == [] {
      NoLeaves(base, mount, above);
    } else {
      var name, dir := nodes[0].name, Render(mount, above);
      TailNamed(nodes);
      LeavesMirror(base, mount, above, nodes[1..]);
      PathsMirror(base, mount, above, name);
      if nodes[0].Dir? {
        LeavesMirror(base, mount, above + [name], nodes[0].children);
        DirMirror(base, mount, above, nodes);
      } else {
        FileMirror(base, mount, above, nodes);
      }
    }
  }

  lemma NoLeaves(base: string, mount: string, above: seq<string>)
    requires '/' in Render(mount, above)
    ensures Mirrored(base, Leaves(base, Render(mount, above), []), FilesBelow(above, []))
  {
  }

  lemma FileMirror(base: string, mount: string, above: seq<string>, nodes: seq<Node>)
    requires '/' in Render(mount, above) && nodes != [] && nodes[0].File?
    requires OutPath(base, Render(mount, above), nodes[0].name) == base + "/" + Join(above + [nodes[0].name])
    requires Mirrored(base, Leaves(base, Render(mount, above), nodes[1..]), FilesBelow(above, nodes[1..]))
    ensures Mirrored(base, Leaves(base, Render(mount, above), nodes), FilesBelow(above, nodes))
  {
    hide Render, OutPath, Join, FirstSlash;
    var name, data := nodes[0].name, nodes[0].data;
    MirroredAppend(base, [Entry(OutPath(base, Render(mount, above), name), data)], [Located(above + [name], data)],
      Leaves(base, Render(mount, above), nodes[1..]), FilesBelow(above, nodes[1..]));
  }

  lemma DirMirror(base: string, mount: string, above: seq<string>, nodes: seq<Node>)
    requires '/' in Render(mount, above) && nodes != [] && nodes[0].Dir? && '/' in Render(mount, above + [nodes[0].name])
    requires ChildPath(Render(mount, above), nodes[0].name) == Render(mount, above + [nodes[0].name])
    requires Mirrored(base, Leaves(base, Render(mount, above), nodes[1..]), FilesBelow(above, nodes[1..]))
    requires Mirrored(base, Leaves(base, Render(mount, above + [nodes[0].name]), nodes[0].children),
               FilesBelow(above + [nodes[0].name], nodes[0].children))
    ensures Mirrored(base, Leaves(base, Render(mount, above), nodes), FilesBelow(above, nodes))
  {
    hide Render, ChildPath, Join, FirstSlash, Mirrored;
    var name, children := nodes[0].name, nodes[0].children;
    MirroredAppend(base, Leaves(base, Render(mount, above + [name]), children), FilesBelow(above + [name], children),
      Leaves(base, Render(mount, above), nodes[1..]), FilesBelow(above, nodes[1..]));
  }

  lemma TailNamed(nodes: seq<Node>)
    requires nodes != [] && WellNamed(nodes)
    ensures WellNamed(nodes[1..]) && Name(nodes[0].name)
    ensures nodes[0].Dir? ==> WellNamed(nodes[0].children)
  {
    var tail := nodes[1..];
    assert forall i :: 0 <= i < |tail| ==> tail[i] == nodes[i + 1];
  }

  /** A file below `nodes` has `above` in front and then the name of one of `nodes`. */
  predicate Under(above: seq<string>, nodes: seq<Node>, names: seq<string>)
  {
    |above| < |names| && names[..|above|] == above && Names(names) &&
    exists i :: 0 <= i < |nodes| && nodes[i].name == names[|above|]
  }

  lemma {:induction false} FilesAreUnder(above: seq<string>, nodes: seq<Node>, k: nat)
    requires Names(above) && WellNamed(nodes) && k < |FilesBelow(above, nodes)|
    ensures Under(above, nodes, FilesBelow(above, nodes)[k].names)
    decreases nodes
  {
    TailNamed(nodes);
    var name := nodes[0].name;
    var here := if nodes[0].File? then 1 else |FilesBelow(above + [name], nodes[0].children)|;
    var names := FilesBelow(above, nodes)[k].names;
    if k >= here {
      FilesAreUnder(above, nodes[1..], k - here);
      var i :| 0 <= i < |nodes[1..]| && nodes[1..][i].name == names[|above|];
      assert nodes[i + 1].name == names[|above|];
    } else if nodes[0].Dir? {
      FilesAreUnder(above + [name], nodes[0].children, k);
      assert names[..|above|] == names[..|above| + 1][..|above|] == above;
      assert names[|above|] == names[..|above| + 1][|above|] == name;
    }
  }

  /** No two files are reached by the same names. */
  lemma {:induction false} FilesDistinct(above: seq<string>, nodes: seq<Node>, j: nat, k: nat)
    requires Names(above) && WellNamed(nodes) && j < k < |FilesBelow(above, nodes)|
    ensures FilesBelow(above, nodes)[j].names != FilesBelow(above, nodes)[k].names
    decreases nodes
  {
    TailNamed(nodes);
    var name, rest := nodes[0].name, nodes[1..];
    var here := if nodes[0].File? then 1 else |FilesBelow(above + [name], nodes[0].children)|;
    if j >= here {
      FilesDistinct(above, rest, j - here, k - here);
    } else if k < here {
      FilesDistinct(above + [name], nodes[0].children, j, k);
    } else {
      FilesAreUnder(above, rest, k - here);
      FilesAreUnder(above, nodes[..1], j) by { FirstAlone(above, nodes); }
      FirstAlone(above, nodes);
      var names := FilesBelow(above, nodes)[k].names;
      var i :| 0 <= i < |rest| && rest[i].name == names[|above|];
      assert nodes[i + 1].name != nodes[0].name;
    }
  }

  /** The files of the first entry come first. */
  lemma FirstAlone(above: seq<string>, nodes: seq<Node>)
    requires nodes != [] && WellNamed(nodes)
    ensures WellNamed(nodes[..1])
    ensures FilesBelow(above, nodes) == FilesBelow(above, nodes[..1]) + FilesBelow(above, nodes[1..])
  {
    assert nodes[..1][0] == nodes[0] && nodes[..1][1..] == [];
    assert FilesBelow(above, []) == [];
  }

  lemma SamePlace(base: string, f: Located, g: Located)
    requires Names(f.names) && Names(g.names) && f.names != [] && g.names != []
    requires Placed(base, f).path == Placed(base, g).path
    ensures f.names == g.names
  {
    assert Join(f.names) == Placed(base, f).path[|base| + 1..];
    assert Join(g.names) == Placed(base, g).path[|base| + 1..];
    JoinInjective(f.names, g.names);
  }

  /** The output paths of a well-named tree are all different. */
  lemma LeavesDistinct(base: string, mount: string, above: seq<string>, nodes: seq<Node>)
    requires SlashFree(mount) && Names(above) && WellNamed(nodes)
    ensures '/' in Render(mount, above)
    ensures DistinctPaths(Leaves(base, Render(mount, above), nodes))
  {
    LeavesMirror(base, mount, above, nodes);
    var leaves, files := Leaves(base, Render(mount, above), nodes), FilesBelow(above, nodes);
    forall i, j | 0 <= i < j < |leaves| ensures leaves[i].path != leaves[j].path {
      FilesDistinct(above, nodes, i, j);
      FilesAreUnder(above, nodes, i);
      FilesAreUnder(above, nodes, j);
      if leaves[i].path == leaves[j].path {
        SamePlace(base, files[i], files[j]);
      }
    }
  }

  /** The entries are gone through in their order, each on its own. */
  lemma {:induction false} HighlightedInOrder(a: seq<Item>, b: seq<Item>)
    ensures Highlighted(a + b) == Highlighted(a) + Highlighted(b)
    ensures |a| == 1 ==> Highlighted(a) == if a[0].highlight then [a[0].node] else []
  {
    if a == [] {
      assert a + b == b;
    } else {
      assert (a + b)[0] == a[0] && (a + b)[1..] == a[1..] + b;
      HighlightedInOrder(a[1..], b);
    }
  }

  /** Highlighted entries are some of the entries, in their order. */
  lemma {:induction false} HighlightedNamed(items: seq<Item>)
    requires WellNamed(All(items))
    ensures WellNamed(Highlighted(items))
    ensures forall n :: n in Highlighted(items) ==> n in All(items)
  {
    if items != [] {
      TailNamed(All(items));
      assert All(items)[1..] == All(items[1..]);
      HighlightedNamed(items[1..]);
      var rest := Highlighted(items[1..]);
      if items[0].highlight {
        FrontNamed(items[0].node, rest, All(items));
      }
    }
  }

  function All(items: seq<Item>): (r: seq<Node>)
    ensures |r| == |items| && forall i :: 0 <= i < |r| ==> r[i] == items[i].node
  {
    seq(|items|, i requires 0 <= i < |items| => items[i].node)
  }

  lemma FrontNamed(node: Node, rest: seq<Node>, all: seq<Node>)
    requires all != [] && WellNamed(all) && all[0] == node && WellNamed(rest) && forall n :: n in rest ==> n in all[1..]
    ensures WellNamed([node] + rest)
  {
    forall j | 0 <= j < |rest| ensures node.name != rest[j].name {
      assert rest[j] in all[1..];
    }
    assert forall i :: 0 < i <= |rest| ==> ([node] + rest)[i] == rest[i - 1];
  }

  /** A file below an entry that is not highlighted has a path of its own. */
  lemma NotHighlightedApart(job: TreeJob, i: nat, j: nat, k: nat)
    requires SlashFree(job.mount) && Names(job.above) && WellNamed(All(job.items))
    requires i < |job.items| && !job.items[i].highlight && j < |FilesBelow(job.above, [job.items[i].node])|
    requires k < |FilesBelow(job.above, job.Nodes())|
    ensures FilesBelow(job.above, [job.items[i].node])[j].names != FilesBelow(job.above, job.Nodes())[k].names
  {
    HighlightedNamed(job.items);
    var node := job.items[i].node;
    OneNamed(All(job.items), i);
    FilesAreUnder(job.above, [node], j);
    FilesAreUnder(job.above, job.Nodes(), k);
    var names := FilesBelow(job.above, job.Nodes())[k].names;
    var n :| 0 <= n < |job.Nodes()| && job.Nodes()[n].name == names[|job.above|];
    NotAmong(job.items, i, job.Nodes()[n]);
  }

  lemma OneNamed(nodes: seq<Node>, i: nat)
    requires WellNamed(nodes) && i < |nodes|
    ensures WellNamed([nodes[i]])
  {
  }

  lemma {:induction false} NotAmong(items: seq<Item>, i: nat, node: Node)
    requires WellNamed(All(items)) && i < |items| && !items[i].highlight && node in Highlighted(items)
    ensures node.name != items[i].node.name
  {
    TailNamed(All(items));
    assert All(items)[1..] == All(items[1..]);
    HighlightedNamed(items[1..]);
    if node in Highlighted(items[1..]) {
      if i == 0 {
        assert node in All(items)[1..];
      } else {
        NotAmong(items[1..], i - 1, node);
      }
    } else {
      assert node == All(items)[0] && All(items)[i] == items[i].node;
    }
  }

  /**
   * The directory dump as a whole: after success every file below the highlighted
   * entries is at the path that mirrors its own, with its own content, and no
   * other path has changed.
   */
  lemma TreeMirrored(job: TreeJob, wake: Wake, run: seq<Event>)
    requires 0 < job.block && SlashFree(job.mount) && Names(job.above) && WellNamed(All(job.items))
    requires job.Reliable(wake) && Exec(TreeConfig(job, wake), run).Some?
    requires Exec(TreeConfig(job, wake), run).value.supervisor == Ended(true)
    ensures var disk, files := Exec(TreeConfig(job, wake), run).value.output.disk, FilesBelow(job.above, job.Nodes());
      (forall i :: 0 <= i < |files| ==>
         Placed(job.base, files[i]).path in disk && disk[Placed(job.base, files[i]).path] == files[i].data) &&
      (forall p :: (forall i :: 0 <= i < |files| ==> Placed(job.base, files[i]).path != p) ==> SameAt(disk, job.before, p))
  {
    hide Leaves, FilesBelow, DistinctPaths, WellNamed, Render, TreeConfig, Exec;
    HighlightedNamed(job.items);
    EveryLeafSaved(job, wake, run);
    LeavesMirror(job.base, job.mount, job.above, job.Nodes());
    LeavesDistinct(job.base, job.mount, job.above, job.Nodes());
    SavedIsEach(job.before, Wanted(job));
    var files := FilesBelow(job.above, job.Nodes());
    assert forall i :: 0 <= i < |files| ==> Wanted(job)[i].path == Placed(job.base, files[i]).path;
  }

  /** A path that the dump has left as it was. */
  predicate SameAt(disk: map<Path, seq<byte>>, before: map<Path, seq<byte>>, p: Path)
  {
    (p in disk <==> p in before) && (p in disk ==> disk[p] == before[p])
  }

  lemma OthersApart(job: TreeJob, i: nat, j: nat)
    requires SlashFree(job.mount) && Names(job.above) && WellNamed(All(job.items))
    requires i < |job.items| && !job.items[i].highlight && j < |FilesBelow(job.above, [job.items[i].node])|
    ensures forall k :: 0 <= k < |FilesBelow(job.above, job.Nodes())| ==>
      Placed(job.base, FilesBelow(job.above, job.Nodes())[k]).path !=
      Placed(job.base, FilesBelow(job.above, [job.items[i].node])[j]).path
  {
    HighlightedNamed(job.items);
    OneNamed(All(job.items), i);
    var f := FilesBelow(job.above, [job.items[i].node])[j];
    FilesAreUnder(job.above, [job.items[i].node], j);
    forall k | 0 <= k < |FilesBelow(job.above, job.Nodes())|
      ensures Placed(job.base, FilesBelow(job.above, job.Nodes())[k]).path != Placed(job.base, f).path
    {
      var g := FilesBelow(job.above, job.Nodes())[k];
      FilesAreUnder(job.above, job.Nodes(), k);
      NotHighlightedApart(job, i, j, k);
      if Placed(job.base, g).path == Placed(job.base, f).path {
        SamePlace(job.base, g, f);
      }
    }
  }

  /** In particular nothing that belongs to an entry that is not highlighted has been written. */
  lemma NotHighlightedKept(job: TreeJob, wake: Wake, run: seq<Event>, item: Item, f: Located)
    requires 0 < job.block && SlashFree(job.mount) && Names(job.above) && WellNamed(All(job.items))
    requires job.Reliable(wake) && Exec(TreeConfig(job, wake), run).Some?
    requires Exec(TreeConfig(job, wake), run).value.supervisor == Ended(true)
    requires item in job.items && !item.highlight && f in FilesBelow(job.above, [item.node])
    ensures SameAt(Exec(TreeConfig(job, wake), run).value.output.disk, job.before, Placed(job.base, f).path)
  {
    hide FilesBelow, WellNamed, TreeConfig, Exec, Placed, SameAt, TreeFits, Wanted;
    TreeMirrored(job, wake, run);
    var i :| 0 <= i < |job.items| && job.items[i] == item;
    var j :| 0 <= j < |FilesBelow(job.above, [item.node])| && FilesBelow(job.above, [item.node])[j] == f;
    OthersApart(job, i, j);
  }

  // --------------------------------------------------- the tree, by lookup

  /** The file that a list of names leads to, the first of which names one of `nodes`. */
  function FileAt(nodes: seq<Node>, names: seq<string>): Option<seq<byte>>
    decreases |names|, 1, |nodes|
  {
    if nodes == [] || names == [] then None
    else if nodes[0].name == names[0] then FileIn(nodes[0], names)
    else FileAt(nodes[1..], names)
  }

  function FileIn(node: Node, names: seq<string>): Option<seq<byte>>
    requires names != []
    decreases |names|, 0, 0
  {
    match node
    case File(_, data) => if |names| == 1 then Some(data) else None
    case Dir(_, children) => FileAt(children, names[1..])
  }

  /** What the user wants of it: nothing below an entry that is not highlighted. */
  function FileWanted(items: seq<Item>, names: seq<string>): Option<seq<byte>>
  {
    if items == [] || names == [] then None
    else if items[0].node.name == names[0] then
      if items[0].highlight then FileIn(items[0].node, names) else None
    else FileWanted(items[1..], names)
  }

  /** Nothing is found under a name that no entry has. */
  lemma {:induction false} NotFound(nodes: seq<Node>, names: seq<string>)
    requires names != [] && forall n :: n in nodes ==> n.name != names[0]
    ensures FileAt(nodes, names) == None
  {
    if nodes != [] {
      NotFound(nodes[1..], names);
    }
  }

  /** A file that is found is listed, with the names that led to it. */
  lemma {:induction false} FoundIsListed(above: seq<string>, nodes: seq<Node>, names: seq<string>)
    requires FileAt(nodes, names).Some?
    ensures Located(above + names, FileAt(nodes, names).value) in FilesBelow(above, nodes)
    decreases |names|, |nodes|
  {
    if nodes[0].name != names[0] {
      FoundIsListed(above, nodes[1..], names);
    } else if nodes[0].Dir? {
      FoundIsListed(above + [nodes[0].name], nodes[0].children, names[1..]);
      assert (above + [nodes[0].name]) + names[1..] == above + names;
    } else {
      assert names == [nodes[0].name];
    }
  }

  /** A file that is listed is found under its names. */
  lemma {:induction false} ListedIsFound(above: seq<string>, nodes: seq<Node>, k: nat)
    requires Names(above) && WellNamed(nodes) && k < |FilesBelow(above, nodes)|
    ensures var f := FilesBelow(above, nodes)[k];
      |above| < |f.names| && f.names[..|above|] == above && FileAt(nodes, f.names[|above|..]) == Some(f.data)
    decreases nodes
  {
    FilesAreUnder(above, nodes, k);
    TailNamed(nodes);
    var name := nodes[0].name;
    var here := if nodes[0].File? then 1 else |FilesBelow(above + [name], nodes[0].children)|;
    var f := FilesBelow(above, nodes)[k];
    var names := f.names[|above|..];
    if k >= here {
      FilesAreUnder(above, nodes[1..], k - here);
      ListedIsFound(above, nodes[1..], k - here);
      var i :| 0 <= i < |nodes[1..]| && nodes[1..][i].name == names[0];
      assert nodes[i + 1].name != name;
    } else if nodes[0].Dir? {
      ListedIsFound(above + [name], nodes[0].children, k);
      assert f.names[..|above| + 1] == above + [name];
      assert names[0] == f.names[..|above| + 1][|above|] == name && names[1..] == f.names[|above| + 1..];
    } else {
      assert f.names == above + [name] && names == [name];
    }
  }

  /** Highlighting decides what is wanted, entry by entry. */
  lemma {:induction false} WantedIsHighlighted(items: seq<Item>, names: seq<string>)
    requires WellNamed(All(items))
    ensures FileWanted(items, names) == FileAt(Highlighted(items), names)
  {
    if items != [] && names != [] {
      TailNamed(All(items));
      assert All(items)[1..] == All(items[1..]);
      HighlightedNamed(items[1..]);
      WantedIsHighlighted(items[1..], names);
      var rest := Highlighted(items[1..]);
      if items[0].node.name == names[0] {
        if items[0].highlight {
          assert ([items[0].node] + rest)[0] == items[0].node;
        } else {
          forall n | n in rest ensures n.name != names[0] {
            assert n in All(items)[1..] && All(items)[0] == items[0].node;
          }
          NotFound(rest, names);
          assert Highlighted(items) == [] + rest == rest;
        }
      } else {
        assert ([items[0].node] + rest)[1..] == rest && [] + rest == rest;
      }
    }
  }

  function OutputOf(job: TreeJob, names: seq<string>): Path { job.base + "/" + Join(job.above + names) }

  /**
   * The directory dump by lookup: after success whatever file a list of names leads
   * to, from a highlighted entry on, is at the same names below the output directory,
   * and every other path is as it was before.
   */
  lemma TreeByName(job: TreeJob, wake: Wake, run: seq<Event>)
    requires 0 < job.block && SlashFree(job.mount) && Names(job.above) && WellNamed(All(job.items))
    requires job.Reliable(wake) && Exec(TreeConfig(job, wake), run).Some?
    requires Exec(TreeConfig(job, wake), run).value.supervisor == Ended(true)
    ensures var disk := Exec(TreeConfig(job, wake), run).value.output.disk;
      (forall names :: FileWanted(job.items, names).Some? ==>
         OutputOf(job, names) in disk && disk[OutputOf(job, names)] == FileWanted(job.items, names).value) &&
      (forall p :: (forall names :: FileWanted(job.items, names).Some? ==> OutputOf(job, names) != p) ==>
         SameAt(disk, job.before, p))
  {
    hide FilesBelow, WellNamed, TreeConfig, Exec, TreeFits, Wanted, SameAt, FileAt, FileWanted, Join, Highlighted;
    TreeMirrored(job, wake, run);
    HighlightedNamed(job.items);
    var disk, files := Exec(TreeConfig(job, wake), run).value.output.disk, FilesBelow(job.above, job.Nodes());
    forall names | FileWanted(job.items, names).Some?
      ensures OutputOf(job, names) in disk && disk[OutputOf(job, names)] == FileWanted(job.items, names).value
    {
      WantedIsHighlighted(job.items, names);
      FoundIsListed(job.above, job.Nodes(), names);
    }
    forall p | forall names :: FileWanted(job.items, names).Some? ==> OutputOf(job, names) != p
      ensures SameAt(disk, job.before, p)
    {
      forall i | 0 <= i < |files| ensures Placed(job.base, files[i]).path != p {
        ListedIsFound(job.above, job.Nodes(), i);
        WantedIsHighlighted(job.items, files[i].names[|job.above|..]);
        assert job.above + files[i].names[|job.above|..] == files[i].names;
      }
    }
  }

  /** In particular every file below a highlighted entry has been saved. */
  lemma HighlightedSaved(job: TreeJob, wake: Wake, run: seq<Event>, item: Item, f: Located)
    requires 0 < job.block && SlashFree(job.mount) && Names(job.above) && WellNamed(All(job.items))
    requires job.Reliable(wake) && Exec(TreeConfig(job, wake), run).Some?
    requires Exec(TreeConfig(job, wake), run).value.supervisor == Ended(true)
    requires item in job.items && item.highlight && f in FilesBelow(job.above, [item.node])
    ensures var disk := Exec(TreeConfig(job, wake), run).value.output.disk;
      Placed(job.base, f).path in disk && disk[Placed(job.base, f).path] == f.data
  {
    hide TreeConfig, Exec, TreeFits, Wanted, SameAt, Join, FilesBelow;
    TreeByName(job, wake, run);
    var i :| 0 <= i < |job.items| && job.items[i] == item;
    OneNamed(All(job.items), i);
    var k :| 0 <= k < |FilesBelow(job.above, [item.node])| && FilesBelow(job.above, [item.node])[k] == f;
    ListedIsFound(job.above, [item.node], k);
    var names := f.names[|job.above|..];
    OneLookup(item.node, names);
    ItemWanted(job.items, i, names);
    assert job.above + names == f.names;
  }

  lemma OneLookup(node: Node, names: seq<string>)
    requires FileAt([node], names).Some?
    ensures names != [] && node.name == names[0] && FileIn(node, names) == FileAt([node], names)
  {
    assert [node][1..] == [];
  }

  lemma {:induction false} ItemWanted(items: seq<Item>, i: nat, names: seq<string>)
    requires WellNamed(All(items)) && i < |items| && items[i].highlight && names != [] && items[i].node.name == names[0]
    ensures FileWanted(items, names) == FileIn(items[i].node, names)
  {
    if i > 0 {
      TailNamed(All(items));
      assert All(items)[1..] == All(items[1..]);
      assert All(items)[0].name != All(items)[i].name;
      ItemWanted(items[1..], i - 1, names);
    }
  }
}
