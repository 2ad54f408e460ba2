/**
 Seeding a disk from a stream in chunks of any size. Zero blocks are skipped, and
 the image sink writes runs of blocks in batches; the finished disk is the stream
 all the same.
 */
module Seeder {
  import opened Bytes

  const BLOCK: nat := 4096
  const BATCH: nat := 1024 * 1024
  const MAX_BLOCKS: nat := 0xffff_ffff

  predicate WholeBlocks(blocks: map<nat, seq<byte>>) {
    forall index :: index in blocks ==> |blocks[index]| == BLOCK
  }

  /** The disk a sparse table of blocks stands for. */
  function Rendered(blocks: map<nat, seq<byte>>, size: nat): (r: seq<byte>)
    requires WholeBlocks(blocks)
    ensures |r| == size
  {
    seq(size, i requires 0 <= i < size => if i / BLOCK in blocks then blocks[i / BLOCK][i % BLOCK] else 0)
  }

  /** The first `done` bytes of a stream on an otherwise empty disk. */
  function Partly(stream: seq<byte>, done: nat, size: nat): (r: seq<byte>)
    requires done <= |stream| && done <= size
    ensures |r| == size
  {
    stream[..done] + Zeros(size - done)
  }

  /** One more block of the stream on the disk. */
  lemma NextBlock(stream: seq<byte>, index: nat, size: nat)
    requires (index + 1) * BLOCK <= |stream| && (index + 1) * BLOCK <= size
    ensures var block := stream[index * BLOCK..(index + 1) * BLOCK];
            && Partly(stream, (index + 1) * BLOCK, size)
               == Splice(Partly(stream, index * BLOCK, size), index * BLOCK, block)
            && (Zero(block) ==> Partly(stream, (index + 1) * BLOCK, size) == Partly(stream, index * BLOCK, size))
  {
  }

  lemma RenderedInsert(blocks: map<nat, seq<byte>>, index: nat, block: seq<byte>, size: nat)
    requires WholeBlocks(blocks) && |block| == BLOCK && (index + 1) * BLOCK <= size
    ensures Rendered(blocks[index := block], size) == Splice(Rendered(blocks, size), index * BLOCK, block)
  {
    var r := Rendered(blocks[index := block], size);
    var t := Splice(Rendered(blocks, size), index * BLOCK, block);
    forall i | 0 <= i < size ensures r[i] == t[i] {
      if i / BLOCK == index {
        assert i == index * BLOCK + i % BLOCK;
      }
    }
  }

  lemma SpliceTwice(image: seq<byte>, at: nat, batch: seq<byte>, block: seq<byte>)
    requires at + |batch| + |block| <= |image|
    ensures Splice(image, at, batch + block) == Splice(Splice(image, at, batch), at + |batch|, block)
  {
  }

  lemma SpliceNothing(image: seq<byte>, at: nat)
    requires at <= |image|
    ensures Splice(image, at, []) == image
  {
  }

  predicate Geometry(size: nat) {
    size > 0 && size % BLOCK == 0 && size / BLOCK <= MAX_BLOCKS
  }

  class DiskSeeder {
    const inMemory: bool
    const size: nat
    var image: seq<byte>
    var batch: seq<byte>
    var batchStart: nat
    var blocks: map<nat, seq<byte>>
    var consumed: nat
    var pending: seq<byte>
    var nextBlock: nat

    /** The bytes accepted so far. */
    ghost var stream: seq<byte>

    ghost predicate Sized()
      reads this
    {
      && Geometry(size) && |image| == size && batchStart + |batch| <= size && WholeBlocks(blocks)
      && nextBlock * BLOCK <= |stream| <= size
    }

    /** What the sink holds, counting a batch that is not written yet. */
    ghost function Disk(): seq<byte>
      requires Sized()
      reads this
    {
      if inMemory then Rendered(blocks, size) else Splice(image, batchStart, batch)
    }

    ghost predicate Valid()
      reads this
    {
      && Sized()
      && Disk() == Partly(stream, nextBlock * BLOCK, size)
      && pending == stream[nextBlock * BLOCK..] && |pending| < BLOCK
      && |stream| <= consumed && (consumed <= size ==> consumed == |stream|)
    }

    /** An empty disk of `size` bytes, in memory or in an image that is all zeros. */
    constructor (inMemory: bool, size: nat)
      requires Geometry(size)
      ensures Valid() && stream == [] && consumed == 0 && this.inMemory == inMemory && this.size == size
    {
      this.inMemory, this.size := inMemory, size;
      image, batch, batchStart, blocks := Zeros(size), [], 0, map[];
      consumed, pending, nextBlock, stream := 0, [], 0, [];
      new;
      SpliceNothing(image, 0);
      assert Rendered(map[], size) == Zeros(size);
      assert Partly([], 0, size) == Zeros(size);
    }

    /** Write the batch to the image. */
    method FlushBatch()
      requires Sized()
      modifies this`image, this`batch
      ensures Sized() && batch == [] && image == Splice(old(image), batchStart, old(batch))
    {
      if batch == [] {
        SpliceNothing(image, batchStart);
        return;
      }
      image := Splice(image, batchStart, batch);
      batch := [];
    }

    /** The next block of the stream goes to the sink, unless it is all zeros. */
    method Emit(block: seq<byte>)
      requires Sized() && Disk() == Partly(stream, nextBlock * BLOCK, size)
      requires (nextBlock + 1) * BLOCK <= |stream| && block == stream[nextBlock * BLOCK..(nextBlock + 1) * BLOCK]
      modifies this`image, this`batch, this`batchStart, this`blocks, this`nextBlock
      ensures Sized() && nextBlock == old(nextBlock) + 1
      ensures Disk() == Partly(stream, nextBlock * BLOCK, size)
    {
      var index := nextBlock;
      NextBlock(stream, index, size);
      nextBlock := nextBlock + 1;
      var zero := IsZero(block);
      if zero {
        return;
      }
      if inMemory {
        RenderedInsert(blocks, index, block, size);
        blocks := blocks[index := block];
      } else {
        Batch(index * BLOCK, block);
      }
    }

    /** Add a block to the batch, writing the batch out when the block does not follow it or it is full. */
    method Batch(offset: nat, block: seq<byte>)
      requires Sized() && offset + |block| <= size && !inMemory
      modifies this`image, this`batch, this`batchStart
      ensures Sized() && Splice(image, batchStart, batch) == Splice(old(Splice(image, batchStart, batch)), offset, block)
    {
      MakeRoom(offset);
      SpliceTwice(image, batchStart, batch, block);
      batch := batch + block;
      if |batch| >= BATCH {
        FlushBatch();
        SpliceNothing(image, batchStart);
      }
    }

    /** Make the batch end where the next block goes. */
    method MakeRoom(offset: nat)
      requires Sized() && offset <= size && !inMemory
      modifies this`image, this`batch, this`batchStart
      ensures Sized() && batchStart + |batch| == offset
      ensures Splice(image, batchStart, batch) == old(Splice(image, batchStart, batch))
    {
      if batch != [] && batchStart + |batch| != offset {
        FlushBatch();
        SpliceNothing(image, batchStart);
      }
      if batch == [] {
        SpliceNothing(image, batchStart);
        SpliceNothing(image, offset);
        batchStart := offset;
      }
    }

    /** Take in a chunk of any length; a stream longer than the disk is refused. */
    method Write(chunk: seq<byte>) returns (ok: bool)
      requires Valid()
      modifies this
      ensures Valid() && consumed == old(consumed) + |chunk|
      ensures ok <==> consumed <= size
      ensures stream == if ok then old(stream) + chunk else old(stream)
    {
      consumed := consumed + |chunk|;
      if consumed > size {
        return false;
      }
      stream := stream + chunk;
      var rest := chunk;
      assert stream == old(stream) + chunk;
      while rest != []
        invariant Sized() && stream == old(stream) + chunk && consumed == old(consumed) + |chunk| == |stream|
        invariant Disk() == Partly(stream, nextBlock * BLOCK, size)
        invariant |pending| < BLOCK && pending + rest == stream[nextBlock * BLOCK..]
        decreases |rest|
      {
        rest := Step(rest);
      }
      return true;
    }

    /** One round: a whole block straight from the chunk, or bytes to fill the pending block. */
    method Step(rest: seq<byte>) returns (left: seq<byte>)
      requires Sized() && rest != []
      requires Disk() == Partly(stream, nextBlock * BLOCK, size)
      requires |pending| < BLOCK && pending + rest == stream[nextBlock * BLOCK..]
      modifies this`image, this`batch, this`batchStart, this`blocks, this`nextBlock, this`pending
      ensures Sized() && Disk() == Partly(stream, nextBlock * BLOCK, size)
      ensures |pending| < BLOCK && pending + left == stream[nextBlock * BLOCK..] && |left| < |rest|
    {
      if pending == [] && |rest| >= BLOCK {
        assert rest == stream[nextBlock * BLOCK..];
        Emit(rest[..BLOCK]);
        left := rest[BLOCK..];
      } else {
        var take := if BLOCK - |pending| < |rest| then BLOCK - |pending| else |rest|;
        var filled := pending + rest[..take];
        left := rest[take..];
        assert filled + left == pending + rest;
        pending := filled;
        if |filled| == BLOCK {
          assert filled == stream[nextBlock * BLOCK..][..BLOCK];
          Emit(filled);
          pending := [];
        }
      }
    }

    /** The finished disk is the stream; any other length is refused. */
    method Finish() returns (ok: bool, disk: seq<byte>)
      requires Valid()
      modifies this`image, this`batch
      ensures Sized() && (ok <==> consumed == size)
      ensures ok ==> disk == stream
      ensures ok && inMemory ==> disk == Rendered(blocks, size)
      ensures ok && !inMemory ==> disk == image
    {
      ok, disk := consumed == size, [];
      if !ok {
        return;
      }
      assert nextBlock * BLOCK == size by { WholeNumber(size, nextBlock, |pending|); }
      assert Partly(stream, size, size) == stream;
      if inMemory {
        disk := Rendered(blocks, size);
      } else {
        FlushBatch();
        disk := image;
      }
    }
  }

  lemma WholeNumber(size: nat, blocks: nat, left: nat)
    requires size % BLOCK == 0 && blocks * BLOCK + left == size && left < BLOCK
    ensures blocks * BLOCK == size
  {
  }

  /**
   Seed a disk from a stream in any chunks: it succeeds exactly when the size is
   usable and the stream has that length, and then the disk is the stream, whichever
   sink holds it and however the stream was cut.
   */
  method Seed(inMemory: bool, size: nat, chunks: seq<seq<byte>>) returns (ok: bool, disk: seq<byte>)
    ensures ok <==> Geometry(size) && |Concat(chunks)| == size
    ensures ok ==> disk == Concat(chunks)
  {
    ok, disk := false, [];
    if size == 0 || size % BLOCK != 0 || size / BLOCK > MAX_BLOCKS {
      return;
    }
    var seeder := new DiskSeeder(inMemory, size);
    assert chunks[..0] == [];
    for i := 0 to |chunks|
      invariant fresh(seeder) && seeder.size == size && seeder.Valid()
      invariant seeder.consumed == |Concat(chunks[..i])|
      invariant seeder.consumed <= size ==> seeder.stream == Concat(chunks[..i])
    {
      ConcatSnoc(chunks[..i], chunks[i]);
      assert chunks[..i + 1] == chunks[..i] + [chunks[i]];
      var _ := seeder.Write(chunks[i]);
    }
    assert chunks[..|chunks|] == chunks;
    ok, disk := seeder.Finish();
  }
}
