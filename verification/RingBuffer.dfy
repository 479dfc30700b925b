/** sxe-ring-buffer: an array that a writer overwrites in rounds, and contexts that read from it. */
module RingBuffer {
  import opened Bytes
  import opened RingModel

  class Buffer {
    const size: nat
    const data: array<byte>
    var iteration: nat
    var current: nat
    var wend: int

    ghost predicate Sized()
      reads this, data
    {
      data.Length == size && current < size
    }

    ghost function Model(): Ring
      reads this, data
    {
      Ring(size, data[..], iteration, current, wend)
    }

    constructor (size: nat)
      requires size > 0
      ensures Sized() && fresh(data) && this.size == size && Model() == NewRing(size, data[..])
    {
      this.size := size;
      data := new byte[size];
      iteration, current, wend := 0, 0, 0;
    }

    /** Copies bytes to the current place. */
    method Copy(b: bytes)
      requires Sized() && current + |b| <= size
      modifies data
      ensures Sized() && Model() == Fill(old(Model()), b)
    {
      ghost var was := data[..];
      var i := 0;
      while i < |b|
        invariant 0 <= i <= |b|
        invariant forall j :: 0 <= j < size ==> data[j] == if current <= j < current + i then b[j - current] else was[j]
      {
        data[current + i] := b[i];
        i := i + 1;
      }
      assert data[..] == Write(was, current, b) by {
        var w := Write(was, current, b);
        forall j | 0 <= j < size
          ensures data[j] == w[j]
        {
          assert current <= j < current + |b| ==> w[current..current + |b|][j - current] == w[j];
        }
      }
    }

    /** Moves the pointers past `len` bytes written. */
    method MoveOn(len: nat)
      requires Sized() && current + len <= size
      modifies `iteration, `current, `wend
      ensures Sized() && Model() == Advance(old(Model()), len)
    {
      current := current + len;
      if current == size {
        iteration := iteration + 1;
        current := 0;
        wend := size - 1;
      } else if wend < current {
        wend := current - 1;
      }
    }

    method Add(b: bytes)
      requires Sized() && |b| <= size
      modifies this, data
      ensures Sized() && Model() == RingModel.Add(old(Model()), b)
    {
      ghost var r := Model();
      var room := size - current;
      if room >= |b| {
        Copy(b);
        MoveOn(|b|);
      } else {
        Copy(b[..room]);
        wend := size - 1;
        iteration := iteration + 1;
        current := 0;
        assert Model() == Advance(Fill(r, b[..room]), room);
        Copy(b[room..]);
        current := current + (|b| - room);
      }
    }

    /** The place and the length of the block that the writer may fill next. */
    method NextWritableBlock() returns (block: nat, len: nat)
      requires Sized()
      ensures block == current && len == size - current > 0
    {
      block, len := current, size - current;
    }

    method WroteBlock(block: nat, len: nat)
      requires Sized() && block == current && current + len <= size
      modifies `iteration, `current, `wend
      ensures Sized() && Model() == Advance(old(Model()), len)
    {
      MoveOn(len);
    }

    method ForceRingWrap()
      requires Sized()
      modifies `iteration, `current, `wend
      ensures Sized() && Model() == ForceWrap(old(Model()))
    {
      wend := current - 1;
      current := 0;
      iteration := iteration + 1;
    }

    /** A block of at least the size wanted, after an early wrap when the rest of the array is too short. */
    method NextWritableBlockSize(want: nat) returns (block: nat, len: nat)
      requires Sized() && want <= size
      modifies `iteration, `current, `wend
      ensures Sized() && block == current && len == size - current >= want
      ensures Model() == if size - old(current) < want then ForceWrap(old(Model())) else old(Model())
    {
      block, len := NextWritableBlock();
      if len < want {
        ForceRingWrap();
        block, len := NextWritableBlock();
      }
    }
  }

  /** A reader of a buffer. */
  class Context {
    const ring: Buffer
    var iteration: nat
    var block: nat
    var len: nat

    ghost function Model(): Reader
      reads this
    {
      Reader(iteration, block, len)
    }

    constructor Join(ring: Buffer)
      ensures this.ring == ring && Model() == RingModel.Join(ring.Model())
    {
      this.ring := ring;
      iteration, block, len := ring.iteration, ring.current, 0;
    }

    /** Says whether the reader has fallen behind, and if so moves it to where the writer is. */
    method CheckOverRun() returns (overrun: bool)
      modifies this
      ensures overrun == OverRun(ring.Model(), old(Model()))
      ensures forall g, pending, at :: RingOk(ring.Model(), g, pending) && ReaderOk(ring.Model(), g, old(Model()), at) ==>
        (overrun <==> Passed(ring.Model(), g, old(Model()), at))
      ensures Model() == if overrun then RingModel.Join(ring.Model()) else old(Model())
    {
      forall g, pending, at | RingOk(ring.Model(), g, pending) && ReaderOk(ring.Model(), g, Model(), at)
        ensures OverRun(ring.Model(), Model()) <==> Passed(ring.Model(), g, Model(), at)
      {
        OverRunIff(ring.Model(), g, pending, Model(), at);
      }
      hide RingOk, ReaderOk, Passed;
      overrun := ring.iteration > iteration + 1 || (ring.iteration > iteration && ring.current > block);
      if overrun {
        iteration, block, len := ring.iteration, ring.current, 0;
      }
    }

    /** Moves to the next block: up to the writer, to the start of the ring, or to the end of the iteration. */
    method FindBlock()
      requires ring.iteration > iteration ==> ring.wend >= block - 1
      modifies this
      ensures Model() == RingModel.NextBlock(ring.Model(), old(Model()))
    {
      if ring.current > block {
        len := ring.current - block;
      } else if ring.current <= block && ring.iteration == iteration + 1 && ring.wend == block - 1 {
        block := 0;
        iteration := iteration + 1;
        len := ring.current - block;
      } else if ring.iteration > iteration {
        len := ring.wend - block + 1;
      }
    }

    /** Finds the next block to read. */
    method NextBlock(ghost g: Log, ghost pending: nat, ghost at: nat) returns (overrun: bool)
      requires ring.Sized() && RingOk(ring.Model(), g, pending) && ReaderOk(ring.Model(), g, Model(), at)
      modifies this
      ensures overrun == OverRun(ring.Model(), old(Model())) == Passed(ring.Model(), g, old(Model()), at)
      ensures ReaderOk(ring.Model(), g, Model(), if overrun then |g.stream| else at)
      ensures !overrun ==> (Model().len == 0 <==> at == |g.stream|)
      ensures !overrun ==> at + len == if iteration == ring.iteration then |g.stream| else g.start
      ensures !overrun && Undisturbed(ring.Model(), Model(), pending) ==> Reads(ring.Model(), g, Model(), at, len)
    {
      ghost var r, c := ring.Model(), Model();
      hide RingOk, ReaderOk, Reads, Passed;
      JoinOk(r, g, pending);
      overrun := CheckOverRun();
      if overrun {
        return;
      }
      NextBlockOk(r, g, pending, c, at);
      FindBlock();
      hide RingModel.NextBlock, Holds;
      hide OverRun;
      if Undisturbed(r, Model(), pending) {
        BlockIs(r, g, pending, Model(), at);
      }
    }

    /** Notes that the first `n` bytes of the block have been read. */
    method Consumed(n: nat, ghost g: Log, ghost pending: nat, ghost at: nat) returns (overrun: bool)
      requires ring.Sized() && RingOk(ring.Model(), g, pending) && ReaderOk(ring.Model(), g, Model(), at) && n <= len
      modifies this
      ensures overrun == OverRun(ring.Model(), old(Model())) == Passed(ring.Model(), g, old(Model()), at)
      ensures ReaderOk(ring.Model(), g, Model(), if overrun then |g.stream| else at + n)
      ensures !overrun && Undisturbed(ring.Model(), old(Model()), pending) ==> Reads(ring.Model(), g, old(Model()), at, n)
    {
      ghost var r, c := ring.Model(), Model();
      hide RingOk, ReaderOk, Reads, Passed;
      JoinOk(r, g, pending);
      overrun := CheckOverRun();
      if overrun {
        return;
      }
      ConsumeOk(r, g, pending, c, at, n);
      block := block + n;
      len := len - n;
      if block == ring.wend + 1 && block != ring.current {
        block := 0;
        iteration := iteration + 1;
      }
      assert Model() == RingModel.Consume(r, c, n);
      hide OverRun, RingModel.Consume;
      if Undisturbed(r, c, pending) {
        FirstOfBlock(r, g, pending, c, at, n);
      }
    }
  }

  lemma FirstOfBlock(r: Ring, g: Log, pending: nat, c: Reader, at: nat, n: nat)
    requires RingOk(r, g, pending) && ReaderOk(r, g, c, at) && !OverRun(r, c) && Undisturbed(r, c, pending) && n <= c.len
    ensures Reads(r, g, c, at, n)
  {
    BlockIs(r, g, pending, c, at);
    hide RingOk, ReaderOk, OverRun, Undisturbed;
    SubSlice(r.mem, c.block, c.block + c.len, 0, n);
    SubSlice(g.stream, at, at + c.len, 0, n);
  }
}
