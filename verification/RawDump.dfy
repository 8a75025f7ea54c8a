// The raw dumps: a gamecard image, with its optional key area, certificate
// removal and checksums, and the raw partition and section dumps, which are the
// same loop without those options.
module RawDump {
  import opened Options
  import opened Sequences
  import opened DumpMachine
  import opened DumpInvariants
  import opened DumpOrder
  import opened DumpTheorems
  import opened DumpLiveness
  import opened AnyReader
  import opened DumpPrograms

  datatype Job = Job(
    image: seq<byte>, block: nat, usb: bool, path: Path,
    keepCertificate: bool, checksum: bool, prependKeyArea: bool, keyArea: seq<byte>,
    before: map<Path, seq<byte>>
  ) {
    /** The caller refuses an empty image; BLOCK_SIZE is 0x800000. */
    predicate Valid() { image != [] && block >= CERTIFICATE_AT + CERTIFICATE_SIZE }

    function Options(): Treatment { Treatment(!keepCertificate, checksum, prependKeyArea) }

    /** What precedes the image in the output. */
    function Prefix(): seq<byte> { if prependKeyArea then keyArea else [] }

    /** The image with the certificate blanked unless it is kept. */
    function Dumped(): (r: seq<byte>)
      ensures |r| == |image|
      ensures forall k :: 0 <= k < |r| ==> r[k] == if !keepCertificate && 0x7000 <= k < 0x7200 then 0xFF else image[k]
    {
      Treated(Options(), image)
    }
  }

  function RawConfig(job: Job, wake: Wake): Config
    requires job.Valid()
  {
    Config(Blocks(job.Options(), job.image, 0, job.block, First), [], |job.image|, job.usb, wake,
           Some(job.path), job.before[job.path := job.Prefix()],
           if job.checksum && job.prependKeyArea then Crc32.OneShot(job.keyArea) else 0)
  }

  lemma RawRuns(job: Job, wake: Wake)
    requires job.Valid()
    ensures var c := RawConfig(job, wake);
      Moves(c, RefInit(c), job.Options(), c.program, job.Dumped()) && WellFormed(c) && SingleFile(c)
  {
    var c := RawConfig(job, wake);
    BlocksRun(c, RefInit(c), job.Options(), job.image, 0, job.block, First);
    BlocksAreLocal(job.Options(), job.image, 0, job.block, First);
    NoStopIsSafe(c, RefInit(c), c.program);
    assert job.Dumped()[0..] == job.Dumped();
  }

  /**
   * Under every schedule, late and spurious wakes included, a gamecard dump that
   * is reported successful holds the key area, if asked for, and then the whole
   * image, bytes 0x7000 to 0x71FF at 0xFF unless the certificate is kept, and touches
   * no other file; the checksums shown are the one-shot CRC-32 of the image as
   * dumped and of all of the file, and zero where they are not asked for.
   */
  lemma SuccessfulImage(job: Job, wake: Wake, run: seq<Event>)
    requires job.Valid() && Exec(RawConfig(job, wake), run).Some?
    requires Exec(RawConfig(job, wake), run).value.supervisor == Ended(true)
    ensures var s := Exec(RawConfig(job, wake), run).value;
      job.path in s.output.disk && s.output.disk == job.before[job.path := s.output.disk[job.path]] &&
      s.writer.written == |job.image| &&
      HoldsImage(job, s.output.disk[job.path]) && ShowsSums(job, s.output.disk[job.path], s.reader.work)
  {
    var c := RawConfig(job, wake);
    RawRuns(job, wake);
    BlocksAreLocal(job.Options(), job.image, 0, job.block, First);
    SuccessRunsAll(c, run);
    ImageOutcome(job, wake, RefRun(c, RefInit(c), c.program));
    ImageHeld(job);
  }

  /** The file, byte for byte. */
  predicate HoldsImage(job: Job, file: seq<byte>)
  {
    var keys := if job.prependKeyArea then |job.keyArea| else 0;
    |file| == keys + |job.image| &&
    (forall k :: 0 <= k < keys ==> file[k] == job.keyArea[k]) &&
    forall k :: 0 <= k < |job.image| ==>
      file[keys + k] == if !job.keepCertificate && 0x7000 <= k < 0x7200 then 0xFF else job.image[k]
  }

  predicate ShowsSums(job: Job, file: seq<byte>, work: Work)
  {
    var keys := if job.prependKeyArea then |job.keyArea| else 0;
    keys <= |file| &&
    work.crc == (if job.checksum then Crc32.OneShot(file[keys..]) else 0) &&
    work.fullCrc == if job.checksum && job.prependKeyArea then Crc32.OneShot(file) else 0
  }

  lemma ImageHeld(job: Job)
    ensures HoldsImage(job, job.Prefix() + job.Dumped())
    ensures (job.Prefix() + job.Dumped())[|job.Prefix()|..] == job.Dumped()
    ensures job.prependKeyArea ==> job.Prefix() + job.Dumped() == job.keyArea + job.Dumped()
  {
  }

  /** What moving the treated image amounts to, in the output and in the checksums. */
  lemma ImageOutcome(job: Job, wake: Wake, g: Ref)
    requires job.Valid() && Moved(job.Options(), RefInit(RawConfig(job, wake)), g, job.Dumped())
    ensures g.output.disk == job.before[job.path := job.Prefix() + job.Dumped()]
    ensures g.work.crc == if job.checksum then Crc32.OneShot(job.Dumped()) else 0
    ensures g.work.fullCrc == if job.checksum && job.prependKeyArea then Crc32.OneShot(job.keyArea + job.Dumped()) else 0
  {
    Crc32.Resume(0, job.keyArea, job.Dumped());
  }

  /**
   * At every moment of every schedule, the output file holds an in-order
   * selection of the blocks published so far, and those are a first part of the
   * image to be dumped.
   */
  lemma ImageInProgress(job: Job, wake: Wake, run: seq<Event>)
    requires job.Valid() && Exec(RawConfig(job, wake), run).Some?
    ensures var s := Exec(RawConfig(job, wake), run).value;
      s.output.disk == job.before[job.path := job.Prefix() + Concat(s.writer.emitted)] &&
      Subsequence(s.writer.emitted, s.reader.ref.published) &&
      Concat(s.reader.ref.published) <= job.Dumped() &&
      s.writer.written == |Concat(s.writer.emitted)| <= |job.image|
  {
    var c := RawConfig(job, wake);
    RawRuns(job, wake);
    BlocksAreLocal(job.Options(), job.image, 0, job.block, First);
    EverySchedule(c, run);
    OnProgram(c, run);
    PublishedGrows(c, Exec(c, run).value.reader.ref, Exec(c, run).value.reader.todo);
    assert Concat(RefRun(c, RefInit(c), c.program).published) == Concat([]) + job.Dumped() == job.Dumped();
  }

  /** A program only ever adds to the end of what has been published. */
  lemma {:induction false} PublishedGrows(c: Config, g: Ref, ops: seq<Op>)
    ensures Concat(g.published) <= Concat(RefRun(c, g, ops).published)
    decreases |ops|
  {
    if ops != [] {
      if ops[0].Publish? {
        ConcatPush(g.published, g.work.mem.Get(ops[0].buf));
      }
      PublishedGrows(c, RefStep(c, g, ops[0]), ops[1..]);
    }
  }

  lemma {:induction false} ConcatPrefix(a: seq<seq<byte>>, b: seq<seq<byte>>)
    requires a <= b
    ensures Concat(a) <= Concat(b)
  {
    assert b == a + b[|a|..];
    ConcatAppend(a, b[|a|..]);
  }

  /**
   * While the waits can be relied on, so with fused wakes at all times, the output
   * file is a first part of what it is to become.
   */
  lemma ImageGrowsInOrder(job: Job, wake: Wake, run: seq<Event>)
    requires job.Valid() && Exec(RawConfig(job, wake), run).Some?
    requires Early(wake, |Exec(RawConfig(job, wake), run).value.reader.ref.published|)
    ensures var s := Exec(RawConfig(job, wake), run).value;
      job.path in s.output.disk && s.output.disk[job.path] <= job.Prefix() + job.Dumped()
  {
    ImageInProgress(job, wake, run);
    RawRuns(job, wake);
    OneBlockBehind(RawConfig(job, wake), run);
    var s := Exec(RawConfig(job, wake), run).value;
    ConcatPrefix(s.writer.emitted, s.reader.ref.published);
    assert job.Prefix() + Concat(s.writer.emitted) <= job.Prefix() + job.Dumped();
  }

  predicate NeverDrains(ops: seq<Op>) { forall i :: 0 <= i < |ops| ==> !ops[i].Drain? && !ops[i].FinalDrain? }

  lemma {:induction false} BlocksNeverDrain(t: Treatment, data: seq<byte>, offset: nat, block: nat, b: Buffer)
    requires offset <= |data| && 0 < block
    ensures NeverDrains(Blocks(t, data, offset, block, b))
    decreases |data| - offset
  {
    if offset < |data| {
      BlocksNeverDrain(t, data, offset + BlockSize(|data| - offset, block), block, b.Other());
    }
  }

  /** A raw reader never is at a drain. */
  lemma NoDrains(job: Job, wake: Wake, run: seq<Event>)
    requires job.Valid() && Exec(RawConfig(job, wake), run).Some?
    ensures var r := Exec(RawConfig(job, wake), run).value.reader;
      r.todo != [] ==> !r.todo[0].Drain? && !r.todo[0].FinalDrain?
  {
    var c := RawConfig(job, wake);
    RawRuns(job, wake);
    BlocksAreLocal(job.Options(), job.image, 0, job.block, First);
    BlocksNeverDrain(job.Options(), job.image, 0, job.block, First);
    OnProgram(c, run);
    var r := Exec(c, run).value.reader;
    assert r.todo != [] ==> r.todo[0] == c.program[|r.done|];
  }

  /** If no wait returns unasked, a raw dump hangs only after a cancellation, a failed read or an overwritten block. */
  lemma RawHangs(job: Job, wake: Wake, run: seq<Event>)
    requires job.Valid() && !wake.Spurious? && Exec(RawConfig(job, wake), run).Some?
    requires Hung(RawConfig(job, wake), Exec(RawConfig(job, wake), run).value)
    ensures var m := Exec(RawConfig(job, wake), run).value.shared;
      m.cancelled || m.readError || Overwritten(RawConfig(job, wake), run) > 0
  {
    hide Hung, RawConfig, WellFormed, Accounted, KeepsOpen, Overwritten, Exec;
    var c := RawConfig(job, wake);
    RawAccounted(job, wake);
    NoDrains(job, wake, run);
    OnlyStrandings(c, run);
    NeverAbandoned(c, run);
  }

  lemma RawAccounted(job: Job, wake: Wake)
    requires job.Valid()
    ensures var c := RawConfig(job, wake); c.wake == wake && WellFormed(c) && Accounted(c) && KeepsOpen(c)
  {
    RawRuns(job, wake);
    TwinAccounted(RawConfig(job, wake), RawConfig(job, wake));
  }
}
