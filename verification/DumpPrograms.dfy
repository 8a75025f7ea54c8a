// The block loop that every reader function shares: read a block, treat it,
// hand it over, swap the buffers.
module DumpPrograms {
  import opened Options
  import opened Sequences
  import opened DumpMachine

  // ------------------------------------------------- programs put together

  lemma {:induction false} SafeAppend(c: Config, g: Ref, a: seq<Op>, b: seq<Op>)
    ensures SafeFrom(c, g, a + b) <==> SafeFrom(c, g, a) && SafeFrom(c, RefRun(c, g, a), b)
    decreases |a|
  {
    if a == [] {
      assert a + b == b;
    } else {
      assert (a + b)[0] == a[0] && (a + b)[1..] == a[1..] + b;
      SafeAppend(c, RefStep(c, g, a[0]), a[1..], b);
    }
  }

  /** One statement in front of a program. */
  lemma Cons(c: Config, g: Ref, op: Op, rest: seq<Op>)
    ensures RefRun(c, g, [op] + rest) == RefRun(c, RefStep(c, g, op), rest)
    ensures SafeFrom(c, g, [op] + rest) <==> OpSafe(c, g, op) && SafeFrom(c, RefStep(c, g, op), rest)
    ensures Owed([op] + rest) == (if op.Publish? then op.size else 0) + Owed(rest)
  {
    assert ([op] + rest)[0] == op && ([op] + rest)[1..] == rest;
  }

  /** How many blocks `ops` hands over. */
  function Publishes(ops: seq<Op>): nat
  {
    if ops == [] then 0 else (if ops[0].Publish? then 1 else 0) + Publishes(ops[1..])
  }

  lemma {:induction false} PublishesAppend(a: seq<Op>, b: seq<Op>)
    ensures Publishes(a + b) == Publishes(a) + Publishes(b)
  {
    if a == [] {
      assert a + b == b;
    } else {
      assert (a + b)[0] == a[0] && (a + b)[1..] == a[1..] + b;
      PublishesAppend(a[1..], b);
    }
  }

  lemma {:induction false} PublishedCount(c: Config, g: Ref, ops: seq<Op>)
    ensures |RefRun(c, g, ops).published| == |g.published| + Publishes(ops)
    decreases |ops|
  {
    if ops != [] {
      PublishedCount(c, RefStep(c, g, ops[0]), ops[1..]);
    }
  }

  /** What hands nothing over owes nothing. */
  lemma {:induction false} NoneLeft(ops: seq<Op>)
    requires Publishes(ops) == 0
    ensures Owed(ops) == 0
  {
    if ops != [] {
      NoneLeft(ops[1..]);
    }
  }

  lemma NoStopJoin(a: seq<Op>, b: seq<Op>)
    requires NoStop(a) && NoStop(b)
    ensures NoStop(a + b)
  {
  }

  // --------------------------------------------------------- the block loop

  /** GAMECARD_CERTIFICATE_OFFSET and the size of a gamecard certificate. */
  const CERTIFICATE_AT: nat := 0x7000
  const CERTIFICATE_SIZE: nat := 0x200

  /** What happens to a block between reading it and handing it over. */
  datatype Treatment = Treatment(wipe: bool, sum: bool, full: bool)

  const PLAIN: Treatment := Treatment(false, false, false)

  /** The data as it is to be written. */
  function Treated(t: Treatment, data: seq<byte>): (r: seq<byte>)
    ensures |r| == |data|
  {
    if t.wipe then Overwrite(data, CERTIFICATE_AT, CERTIFICATE_SIZE, 0xFF) else data
  }

  function BlockSize(left: nat, block: nat): nat { if left < block then left else block }

  function WipeOps(t: Treatment, offset: nat, b: Buffer): seq<Op>
  {
    if t.wipe && offset == 0 then [Wipe(b, CERTIFICATE_AT, CERTIFICATE_SIZE)] else []
  }

  function SumOps(t: Treatment, b: Buffer): seq<Op>
  {
    if t.sum then [Checksum(b, t.full)] else []
  }

  /** One turn of the loop, reading the bytes of `data` from `offset` on. */
  function BlockOps(t: Treatment, data: seq<byte>, offset: nat, size: nat, b: Buffer): seq<Op>
    requires offset + size <= |data|
  {
    [Poll] + ([Load(b, data[offset..offset + size])] + (WipeOps(t, offset, b) + (SumOps(t, b) + [Publish(b, size)])))
  }

  /** The loop from `offset` on, with `b` as the buffer to fill first. */
  function Blocks(t: Treatment, data: seq<byte>, offset: nat, block: nat, b: Buffer): seq<Op>
    requires offset <= |data| && 0 < block
    decreases |data| - offset
  {
    if offset == |data| then []
    else
      var size := BlockSize(|data| - offset, block);
      BlockOps(t, data, offset, size, b) + Blocks(t, data, offset + size, block, b.Other())
  }

  /** The buffer that is `buf1` once the loop has ended. */
  function NextBuffer(left: nat, block: nat, b: Buffer): Buffer
    requires 0 < block
    decreases left
  {
    if left == 0 then b else NextBuffer(left - BlockSize(left, block), block, b.Other())
  }

  /** The number of turns the loop takes. */
  function BlockCount(left: nat, block: nat): nat
    requires 0 < block
    decreases left
  {
    if left == 0 then 0 else 1 + BlockCount(left - BlockSize(left, block), block)
  }

  lemma BlockPublishes(t: Treatment, data: seq<byte>, offset: nat, size: nat, b: Buffer)
    requires offset + size <= |data|
    ensures Publishes(BlockOps(t, data, offset, size, b)) == 1
  {
    var wipe, sum, publish := WipeOps(t, offset, b), SumOps(t, b), [Publish(b, size)];
    assert publish[1..] == [] && Publishes(publish) == 1;
    assert wipe != [] ==> wipe[1..] == [];
    assert sum != [] ==> sum[1..] == [];
    var load := [Load(b, data[offset..offset + size])];
    assert [Poll][1..] == [] && load[1..] == [];
    PublishesAppend(sum, publish);
    PublishesAppend(wipe, sum + publish);
    PublishesAppend(load, wipe + (sum + publish));
    PublishesAppend([Poll], load + (wipe + (sum + publish)));
  }

  lemma {:induction false} BlocksPublish(t: Treatment, data: seq<byte>, offset: nat, block: nat, b: Buffer)
    requires offset <= |data| && 0 < block
    ensures Publishes(Blocks(t, data, offset, block, b)) == BlockCount(|data| - offset, block)
    decreases |data| - offset
  {
    if offset < |data| {
      var size := BlockSize(|data| - offset, block);
      BlockPublishes(t, data, offset, size, b);
      BlocksPublish(t, data, offset + size, block, b.Other());
      PublishesAppend(BlockOps(t, data, offset, size, b), Blocks(t, data, offset + size, block, b.Other()));
    }
  }

  lemma AppendTwice(o: Output, x: seq<byte>, y: seq<byte>)
    requires o.file.Some? && o.file.value in o.disk
    ensures Append(Append(o, x), y) == Append(o, x + y)
    ensures Append(o, []) == o
  {
    var f := o.file.value;
    assert (o.disk[f] + x) + y == o.disk[f] + (x + y);
    assert o.disk[f] + [] == o.disk[f];
    assert Append(Append(o, x), y).disk == Append(o, x + y).disk;
    assert Append(o, []).disk == o.disk;
  }

  /** `h` is `g` after the bytes `bytes` went through the loop. */
  ghost predicate Moved(t: Treatment, g: Ref, h: Ref, bytes: seq<byte>)
  {
    Concat(h.published) == Concat(g.published) + bytes &&
    h.output == Append(g.output, bytes) &&
    h.work.crc == (if t.sum then Crc32.WithSeed(g.work.crc, bytes) else g.work.crc) &&
    h.work.fullCrc == (if t.sum && t.full then Crc32.WithSeed(g.work.fullCrc, bytes) else g.work.fullCrc)
  }

  /** Treating the block just read gives the block of the treated data. */
  lemma TreatedBlock(t: Treatment, data: seq<byte>, offset: nat, size: nat, block: nat)
    requires offset + size <= |data| && size == BlockSize(|data| - offset, block)
    requires t.wipe ==> block >= CERTIFICATE_AT + CERTIFICATE_SIZE
    requires offset == 0 || offset >= block
    ensures var chunk := data[offset..offset + size];
      (if t.wipe && offset == 0 then Overwrite(chunk, CERTIFICATE_AT, CERTIFICATE_SIZE, 0xFF) else chunk)
      == Treated(t, data)[offset..offset + size]
  {
  }

  /** Running `ops` from `g` is safe, owes its bytes, and moves exactly `bytes`. */
  ghost predicate Moves(c: Config, g: Ref, t: Treatment, ops: seq<Op>, bytes: seq<byte>)
  {
    SafeFrom(c, g, ops) && Owed(ops) == |bytes| && Moved(t, g, RefRun(c, g, ops), bytes)
  }

  lemma PublishRun(c: Config, g: Ref, t: Treatment, b: Buffer, size: nat)
    requires 0 < size == |g.work.mem.Get(b)| && g.output.file.Some?
    ensures SafeFrom(c, g, [Publish(b, size)]) && Owed([Publish(b, size)]) == size
    ensures RefRun(c, g, [Publish(b, size)]) == RefStep(c, g, Publish(b, size))
    ensures Concat(RefStep(c, g, Publish(b, size)).published) == Concat(g.published) + g.work.mem.Get(b)
  {
    Cons(c, g, Publish(b, size), []);
    assert [Publish(b, size)] + [] == [Publish(b, size)];
    ConcatPush(g.published, g.work.mem.Get(b));
  }

  lemma SumRun(c: Config, g: Ref, t: Treatment, b: Buffer, size: nat)
    requires 0 < size == |g.work.mem.Get(b)| && g.output.file.Some?
    ensures Moves(c, g, t, SumOps(t, b) + [Publish(b, size)], g.work.mem.Get(b))
    ensures RefRun(c, g, SumOps(t, b) + [Publish(b, size)]).live == Some(b)
  {
    if t.sum {
      Cons(c, g, Checksum(b, t.full), [Publish(b, size)]);
      PublishRun(c, RefStep(c, g, Checksum(b, t.full)), t, b, size);
    } else {
      assert SumOps(t, b) + [Publish(b, size)] == [Publish(b, size)];
      PublishRun(c, g, t, b, size);
    }
  }

  lemma WipeRun(c: Config, g: Ref, t: Treatment, offset: nat, b: Buffer, size: nat, bytes: seq<byte>)
    requires 0 < size == |g.work.mem.Get(b)| && g.output.file.Some? && g.live != Some(b)
    requires bytes == (if t.wipe && offset == 0
                       then Overwrite(g.work.mem.Get(b), CERTIFICATE_AT, CERTIFICATE_SIZE, 0xFF) else g.work.mem.Get(b))
    ensures Moves(c, g, t, WipeOps(t, offset, b) + (SumOps(t, b) + [Publish(b, size)]), bytes)
    ensures RefRun(c, g, WipeOps(t, offset, b) + (SumOps(t, b) + [Publish(b, size)])).live == Some(b)
  {
    var rest := SumOps(t, b) + [Publish(b, size)];
    if t.wipe && offset == 0 {
      var wipe := Wipe(b, CERTIFICATE_AT, CERTIFICATE_SIZE);
      Cons(c, g, wipe, rest);
      SumRun(c, RefStep(c, g, wipe), t, b, size);
    } else {
      assert WipeOps(t, offset, b) + rest == rest;
      SumRun(c, g, t, b, size);
    }
  }

  lemma BlockRun(c: Config, g: Ref, t: Treatment, data: seq<byte>, offset: nat, size: nat, b: Buffer, bytes: seq<byte>)
    requires offset + size <= |data| && 0 < size
    requires g.output.file.Some? && g.live != Some(b)
    requires bytes == (if t.wipe && offset == 0
                       then Overwrite(data[offset..offset + size], CERTIFICATE_AT, CERTIFICATE_SIZE, 0xFF)
                       else data[offset..offset + size])
    ensures Moves(c, g, t, BlockOps(t, data, offset, size, b), bytes)
    ensures RefRun(c, g, BlockOps(t, data, offset, size, b)).live == Some(b)
  {
    hide Overwrite, Crc32.WithSeed, Append, WipeOps, SumOps;
    var load := Load(b, data[offset..offset + size]);
    var rest := WipeOps(t, offset, b) + (SumOps(t, b) + [Publish(b, size)]);
    Cons(c, g, Poll, [load] + rest);
    Cons(c, g, load, rest);
    WipeRun(c, RefStep(c, g, load), t, offset, b, size, bytes);
  }

  lemma MovedTwice(t: Treatment, g: Ref, h: Ref, k: Ref, x: seq<byte>, y: seq<byte>)
    requires g.output.file.Some? && g.output.file.value in g.output.disk
    requires Moved(t, g, h, x) && Moved(t, h, k, y)
    ensures Moved(t, g, k, x + y)
  {
    AppendTwice(g.output, x, y);
    Crc32.Resume(g.work.crc, x, y);
    Crc32.Resume(g.work.fullCrc, x, y);
    assert (Concat(g.published) + x) + y == Concat(g.published) + (x + y);
  }

  lemma MovedNothing(t: Treatment, g: Ref)
    requires g.output.file.Some? && g.output.file.value in g.output.disk
    ensures Moved(t, g, g, [])
  {
    AppendTwice(g.output, [], []);
    Crc32.NoMore(g.work.crc);
    Crc32.NoMore(g.work.fullCrc);
  }

  /** Two programs that move bytes, one after the other. */
  lemma MovesTwice(c: Config, g: Ref, t: Treatment, a: seq<Op>, b: seq<Op>, x: seq<byte>, y: seq<byte>)
    requires g.output.file.Some? && g.output.file.value in g.output.disk
    requires Moves(c, g, t, a, x) && Moves(c, RefRun(c, g, a), t, b, y)
    ensures Moves(c, g, t, a + b, x + y)
    ensures RefRun(c, g, a + b) == RefRun(c, RefRun(c, g, a), b)
  {
    RefRunAppend(c, g, a, b);
    SafeAppend(c, g, a, b);
    OwedAppend(a, b);
    MovedTwice(t, g, RefRun(c, g, a), RefRun(c, RefRun(c, g, a), b), x, y);
  }

  /** The first turn of the loop, from a state in which the slot holds another buffer. */
  lemma FirstBlock(c: Config, g: Ref, t: Treatment, data: seq<byte>, offset: nat, block: nat, b: Buffer, size: nat)
    requires offset < |data| && 0 < block && size == BlockSize(|data| - offset, block) && (offset == 0 || offset >= block)
    requires t.wipe ==> block >= CERTIFICATE_AT + CERTIFICATE_SIZE
    requires CanFill(g, b)
    ensures Moves(c, g, t, BlockOps(t, data, offset, size, b), Treated(t, data)[offset..offset + size])
    ensures CanFill(RefRun(c, g, BlockOps(t, data, offset, size, b)), b.Other())
  {
    TreatedBlock(t, data, offset, size, block);
    BlockRun(c, g, t, data, offset, size, b, Treated(t, data)[offset..offset + size]);
  }

  /** A file is open and buffer `b` is not in the slot. */
  predicate CanFill(g: Ref, b: Buffer)
  {
    g.output.file.Some? && g.output.file.value in g.output.disk && g.live != Some(b)
  }

  lemma BlocksUnroll(t: Treatment, data: seq<byte>, offset: nat, block: nat, b: Buffer, size: nat)
    requires offset < |data| && 0 < block && size == BlockSize(|data| - offset, block)
    ensures Blocks(t, data, offset, block, b) ==
            BlockOps(t, data, offset, size, b) + Blocks(t, data, offset + size, block, b.Other())
    ensures NextBuffer(|data| - offset, block, b) == NextBuffer(|data| - (offset + size), block, b.Other())
    ensures Treated(t, data)[offset..] == Treated(t, data)[offset..offset + size] + Treated(t, data)[offset + size..]
  {
  }

  /** The loop never fills the buffer in the slot, and moves exactly the treated data. */
  lemma {:induction false} BlocksRun(c: Config, g: Ref, t: Treatment, data: seq<byte>, offset: nat, block: nat, b: Buffer)
    requires offset <= |data| && 0 < block && (offset == 0 || offset >= block || offset == |data|)
    requires t.wipe ==> block >= CERTIFICATE_AT + CERTIFICATE_SIZE
    requires CanFill(g, b)
    ensures Moves(c, g, t, Blocks(t, data, offset, block, b), Treated(t, data)[offset..])
    ensures CanFill(RefRun(c, g, Blocks(t, data, offset, block, b)), NextBuffer(|data| - offset, block, b))
    decreases |data| - offset
  {
    hide Moves, SafeFrom, Blocks, BlockOps, Treated, NextBuffer, RefRun;
    if offset == |data| {
      NoBlocks(c, g, t, data, block, b);
    } else {
      var size := BlockSize(|data| - offset, block);
      var here, rest := BlockOps(t, data, offset, size, b), Blocks(t, data, offset + size, block, b.Other());
      FirstBlock(c, g, t, data, offset, block, b, size);
      BlocksRun(c, RefRun(c, g, here), t, data, offset + size, block, b.Other());
      BlocksUnroll(t, data, offset, block, b, size);
      MovesTwice(c, g, t, here, rest, Treated(t, data)[offset..offset + size], Treated(t, data)[offset + size..]);
    }
  }

  lemma NoBlocks(c: Config, g: Ref, t: Treatment, data: seq<byte>, block: nat, b: Buffer)
    requires 0 < block && CanFill(g, b)
    ensures Moves(c, g, t, Blocks(t, data, |data|, block, b), Treated(t, data)[|data|..])
    ensures CanFill(RefRun(c, g, Blocks(t, data, |data|, block, b)), NextBuffer(0, block, b))
  {
    assert Treated(t, data)[|data|..] == [];
    MovedNothing(t, g);
  }

  lemma {:induction false} BlocksAreLocal(t: Treatment, data: seq<byte>, offset: nat, block: nat, b: Buffer)
    requires offset <= |data| && 0 < block
    ensures NoStop(Blocks(t, data, offset, block, b)) && KeepsFile(Blocks(t, data, offset, block, b))
    decreases |data| - offset
  {
    if offset < |data| {
      BlocksAreLocal(t, data, offset + BlockSize(|data| - offset, block), block, b.Other());
    }
  }
}
