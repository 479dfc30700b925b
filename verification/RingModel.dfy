/**
 * The ring of sxe-ring-buffer on values: one writer that wraps early or at the end, and readers that carry an
 * iteration and a place. A log says which bytes of the written stream the memory still holds.
 */
module RingModel {
  import opened Bytes

  /** Places count from the start of the array; `wend` is the last place written, -1 when there is none. */
  datatype Ring = Ring(size: nat, mem: bytes, iteration: nat, current: nat, wend: int)

  /** A reader: the iteration and the place of the block it stands on, and the length of the block. */
  datatype Reader = Reader(iteration: nat, block: nat, len: nat)

  /** All bytes written; the current iteration starts at `start` of them, and `kept` of them were written in the one before. */
  datatype Log = Log(stream: bytes, start: nat, kept: nat)

  function Max(a: int, b: int): int {
    if a < b then b else a
  }

  /**
   * The memory holds the current iteration up to `current`, and after it what is left of the iteration before. The
   * first `pending` places from `current` on may already hold bytes of a block that the writer has not yet finished.
   */
  ghost predicate RingOk(r: Ring, g: Log, pending: nat) {
    && PointersOk(r, g)
    && Holds(r.mem, 0, r.current, g.stream, g.start) && Holds(r.mem, r.current + pending, g.kept, g.stream, g.start - g.kept)
  }

  ghost predicate PointersOk(r: Ring, g: Log) {
    && |r.mem| == r.size && r.current < r.size
    && g.kept <= r.size && g.kept <= g.start && |g.stream| == g.start + r.current
    && (r.iteration == 0 ==> g.start == 0)
    && (r.wend == Max(g.kept, r.current) - 1 || (r.iteration == 0 && r.current == 0 && r.wend == 0))
  }

  /** The places `from..to` of the memory hold bytes of the stream, place 0 standing for byte `base` of it. */
  ghost predicate Holds(mem: bytes, from: nat, to: nat, stream: bytes, base: nat) {
    from < to ==> to <= |mem| && base + to <= |stream| && mem[from..to] == stream[base + from..base + to]
  }

  lemma HoldsLonger(mem: bytes, from: nat, to: nat, stream: bytes, base: nat, b: bytes)
    requires Holds(mem, from, to, stream, base)
    ensures Holds(mem, from, to, stream + b, base)
  {
    if from < to {
      assert (stream + b)[base + from..base + to] == stream[base + from..base + to];
    }
  }

  /** The reader stands at byte `at` of the stream, unless it is more than an iteration behind. */
  ghost predicate ReaderOk(r: Ring, g: Log, c: Reader, at: nat) {
    && c.iteration <= r.iteration && at <= |g.stream|
    && (c.iteration == r.iteration ==> at == g.start + c.block && c.block + c.len <= r.current)
    && (c.iteration + 1 == r.iteration ==> at == g.start - g.kept + c.block && c.block + c.len <= g.kept <= g.start)
    && (c.iteration + 1 < r.iteration ==> at <= g.start - g.kept)
  }

  // ---------------------------------------------------------------- the writer

  function NewRing(size: nat, mem: bytes): Ring
    requires |mem| == size
  {
    Ring(size, mem, 0, 0, 0)
  }

  /** The pointers after `len` more bytes: at the end of the array they wrap. */
  function Advance(r: Ring, len: nat): Ring
    requires r.current + len <= r.size
  {
    var current := r.current + len;
    if current == r.size then r.(iteration := r.iteration + 1, current := 0, wend := r.size - 1)
    else r.(current := current, wend := if r.wend < current then current - 1 else r.wend)
  }

  /** Bytes put at the current place, not yet counted as written. */
  function Fill(r: Ring, b: bytes): Ring
    requires |r.mem| == r.size && r.current + |b| <= r.size
  {
    r.(mem := Write(r.mem, r.current, b))
  }

  function Add(r: Ring, b: bytes): (r': Ring)
    requires |r.mem| == r.size && r.current < r.size && |b| <= r.size
  {
    var room := r.size - r.current;
    if |b| <= room then Advance(Fill(r, b), |b|)
    else Advance(Fill(Advance(Fill(r, b[..room]), room), b[room..]), |b| - room)
  }

  function ForceWrap(r: Ring): Ring {
    r.(wend := r.current - 1, current := 0, iteration := r.iteration + 1)
  }

  /** The log after `len` bytes from the current place on are counted as written. */
  ghost function Advanced(r: Ring, g: Log, len: nat): Log
    requires |r.mem| == r.size && r.current + len <= r.size
  {
    var stream := g.stream + r.mem[r.current..r.current + len];
    if r.current + len == r.size then Log(stream, g.start + r.size, r.size) else g.(stream := stream)
  }

  ghost function Added(r: Ring, g: Log, b: bytes): Log
    requires |r.mem| == r.size && r.current < r.size && |b| <= r.size
  {
    var room := r.size - r.current;
    if |b| <= room then Advanced(Fill(r, b), g, |b|)
    else
      var r1, g1 := Advance(Fill(r, b[..room]), room), Advanced(Fill(r, b[..room]), g, room);
      Advanced(Fill(r1, b[room..]), g1, |b| - room)
  }

  ghost function Wrapped(r: Ring, g: Log): Log {
    Log(g.stream, g.start + r.current, r.current)
  }

  lemma FillOk(r: Ring, g: Log, pending: nat, b: bytes)
    requires RingOk(r, g, pending) && r.current + |b| <= r.size
    ensures RingOk(Fill(r, b), g, Max(pending, |b|))
  {
    hide Holds, PointersOk, Write;
    FillPointers(r, g, b);
    FillHolds(r.mem, 0, r.current, g.stream, g.start, r.current, b);
    var from := r.current + Max(pending, |b|);
    Within(r.mem, r.current + pending, g.kept, g.stream, g.start - g.kept, from, g.kept);
    FillHolds(r.mem, from, g.kept, g.stream, g.start - g.kept, r.current, b);
  }

  lemma FillHolds(mem: bytes, from: nat, to: nat, stream: bytes, base: nat, i: nat, b: bytes)
    requires Holds(mem, from, to, stream, base) && i + |b| <= |mem| && (to <= i || i + |b| <= from)
    ensures Holds(Write(mem, i, b), from, to, stream, base)
  {
    if from < to {
      assert Write(mem, i, b)[from..to] == mem[from..to];
    }
  }

  lemma AdvanceHolds(mem: bytes, stream: bytes, start: nat, current: nat, len: nat)
    requires Holds(mem, 0, current, stream, start) && |stream| == start + current && current + len <= |mem|
    ensures Holds(mem, 0, current + len, stream + mem[current..current + len], start)
  {
    assert mem[0..current + len] == mem[0..current] + mem[current..current + len];
    assert stream[start..start + current] == stream[start..];
    assert (stream + mem[current..current + len])[start..] == stream[start..] + mem[current..current + len];
  }

  /** How many places stay pending after `len` bytes are written. */
  function StillPending(r: Ring, pending: nat, len: nat): nat {
    if r.current + len >= r.size then 0 else Max(pending - len, 0)
  }

  lemma AdvanceOk(r: Ring, g: Log, pending: nat, len: nat)
    requires RingOk(r, g, pending) && r.current + len <= r.size
    ensures RingOk(Advance(r, len), Advanced(r, g, len), StillPending(r, pending, len))
  {
    hide Holds, PointersOk;
    AdvancePointers(r, g, len);
    var b := r.mem[r.current..r.current + len];
    var kept := g.start - g.kept;
    AdvanceHolds(r.mem, g.stream, g.start, r.current, len);
    HoldsLonger(r.mem, r.current + pending, g.kept, g.stream, kept, b);
    Within(r.mem, r.current + pending, g.kept, g.stream + b, kept, r.current + len + StillPending(r, pending, len), g.kept);
    NoneHeld(r.mem, g.stream + b, g.start + r.size);
  }

  lemma FillPointers(r: Ring, g: Log, b: bytes)
    requires PointersOk(r, g) && r.current + |b| <= r.size
    ensures |r.mem| == r.size && g.kept <= g.start && PointersOk(Fill(r, b), g)
  {
    hide Write;
  }

  lemma AdvancePointers(r: Ring, g: Log, len: nat)
    requires PointersOk(r, g) && r.current + len <= r.size
    ensures |r.mem| == r.size && g.kept <= g.start && g.kept <= r.size && |g.stream| == g.start + r.current
    ensures PointersOk(Advance(r, len), Advanced(r, g, len))
  {
  }

  lemma NoneHeld(mem: bytes, stream: bytes, base: nat)
    ensures Holds(mem, 0, 0, stream, base)
  {
  }

  lemma Within(mem: bytes, from: nat, to: nat, stream: bytes, base: nat, from': nat, to': nat)
    requires Holds(mem, from, to, stream, base) && (from <= from' || to <= from') && to' <= to
    ensures Holds(mem, from', to', stream, base)
  {
    if from' < to' {
      SameBytes(mem, from, to, stream, base, from', to' - from', base + from');
    }
  }

  lemma WrapOk(r: Ring, g: Log, pending: nat)
    requires RingOk(r, g, pending)
    ensures RingOk(ForceWrap(r), Wrapped(r, g), 0)
  {
  }

  /** Bytes that are filled in and counted are the next bytes of the stream. */
  lemma FilledStream(r: Ring, g: Log, b: bytes)
    requires |r.mem| == r.size && r.current + |b| <= r.size
    ensures Advanced(Fill(r, b), g, |b|).stream == g.stream + b
  {
  }

  /** Adding bytes makes them the next bytes of the stream, whether they fit at the end of the array or wrap around it. */
  lemma AddOk(r: Ring, g: Log, pending: nat, b: bytes)
    requires RingOk(r, g, pending) && |b| <= r.size
    ensures RingOk(Add(r, b), Added(r, g, b), StillPending(r, pending, |b|))
    ensures Added(r, g, b).stream == g.stream + b
  {
    hide Holds, RingOk, Write;
    SizesOk(r, g, pending);
    var room := r.size - r.current;
    if |b| <= room {
      FillOk(r, g, pending, b);
      FilledStream(r, g, b);
      AdvanceOk(Fill(r, b), g, Max(pending, |b|), |b|);
    } else {
      AddWraps(r, g, pending, b);
    }
  }

  lemma SizesOk(r: Ring, g: Log, pending: nat)
    requires RingOk(r, g, pending)
    ensures |r.mem| == r.size && r.current < r.size
  {
  }

  lemma AddWraps(r: Ring, g: Log, pending: nat, b: bytes)
    requires RingOk(r, g, pending) && |r.mem| == r.size && r.current < r.size && r.size - r.current < |b| <= r.size
    ensures RingOk(Add(r, b), Added(r, g, b), 0)
    ensures Added(r, g, b).stream == g.stream + b
  {
    hide Holds, RingOk, Write;
    var room := r.size - r.current;
    FillOk(r, g, pending, b[..room]);
    FilledStream(r, g, b[..room]);
    AdvanceOk(Fill(r, b[..room]), g, Max(pending, room), room);
    var r1, g1 := Advance(Fill(r, b[..room]), room), Advanced(Fill(r, b[..room]), g, room);
    hide Advanced;
    FillOk(r1, g1, 0, b[room..]);
    FilledStream(r1, g1, b[room..]);
    AdvanceOk(Fill(r1, b[room..]), g1, |b| - room, |b| - room);
    assert b[..room] + b[room..] == b;
    assert g.stream + b[..room] + b[room..] == g.stream + (b[..room] + b[room..]);
  }

  // ---------------------------------------------------------------- readers

  function Join(r: Ring): Reader {
    Reader(r.iteration, r.current, 0)
  }

  /** The reader's block may have been overwritten. */
  predicate OverRun(r: Ring, c: Reader) {
    r.iteration > c.iteration + 1 || (r.iteration > c.iteration && r.current > c.block)
  }

  /** The next block to read: up to the writer, or to the end of the iteration. */
  function NextBlock(r: Ring, c: Reader): (c': Reader)
    requires r.iteration > c.iteration ==> r.wend >= c.block - 1
  {
    if r.current > c.block then c.(len := r.current - c.block)
    else if r.iteration == c.iteration + 1 && r.wend == c.block - 1 then Reader(c.iteration + 1, 0, r.current)
    else if r.iteration > c.iteration then c.(len := r.wend - c.block + 1)
    else c
  }

  /** The reader after it has read the first `len` bytes of its block. */
  function Consume(r: Ring, c: Reader, len: nat): (c': Reader)
    requires len <= c.len
  {
    var block := c.block + len;
    if block == r.wend + 1 && block != r.current then Reader(c.iteration + 1, 0, c.len - len)
    else Reader(c.iteration, block, c.len - len)
  }

  lemma JoinOk(r: Ring, g: Log, pending: nat)
    requires RingOk(r, g, pending)
    ensures ReaderOk(r, g, Join(r), |g.stream|) && !OverRun(r, Join(r))
  {
  }

  /** Where a reader that was not overrun stands. */
  lemma ReaderPlace(r: Ring, g: Log, pending: nat, c: Reader, at: nat)
    requires RingOk(r, g, pending) && ReaderOk(r, g, c, at) && !OverRun(r, c)
    ensures c.iteration == r.iteration || (c.iteration + 1 == r.iteration && r.current <= c.block <= g.kept && r.wend == g.kept - 1)
    ensures at + c.len <= |g.stream| && c.block + c.len <= |r.mem|
  {
    hide Holds;
  }

  /** The reader's place was passed: the writer is a whole iteration further, or has written over the place. */
  predicate Passed(r: Ring, g: Log, c: Reader, at: nat) {
    c.iteration + 1 < r.iteration || (c.iteration < r.iteration && at < g.start - g.kept + r.current)
  }

  /** An overrun is reported if and only if the reader's place was passed, and so never in the writer's own iteration. */
  lemma OverRunIff(r: Ring, g: Log, pending: nat, c: Reader, at: nat)
    requires RingOk(r, g, pending) && ReaderOk(r, g, c, at)
    ensures OverRun(r, c) <==> Passed(r, g, c, at)
  {
    hide Holds;
  }

  /** The ring still holds a byte of the stream: of the current iteration, or of the one before where it is not written over. */
  predicate Held(r: Ring, g: Log, at: nat) {
    at < |g.stream| && (at >= g.start || (at + g.kept >= g.start && at + g.kept - g.start >= r.current))
  }

  function PlaceOf(g: Log, at: nat): int {
    if at >= g.start then at - g.start else at + g.kept - g.start
  }

  lemma HeldIsThere(r: Ring, g: Log, at: nat)
    requires RingOk(r, g, 0) && Held(r, g, at)
    ensures 0 <= PlaceOf(g, at) < |r.mem| && r.mem[PlaceOf(g, at)] == g.stream[at]
  {
    var place := PlaceOf(g, at);
    if at >= g.start {
      SameBytes(r.mem, 0, r.current, g.stream, g.start, place, 1, at);
      assert r.mem[place..place + 1][0] == g.stream[at..at + 1][0];
    } else {
      SameBytes(r.mem, r.current, g.kept, g.stream, g.start - g.kept, place, 1, at);
      assert r.mem[place..place + 1][0] == g.stream[at..at + 1][0];
    }
  }

  /** The place of a byte of the iteration before that is not held has a later byte of the stream. */
  lemma NotHeldIsOverwritten(r: Ring, g: Log, pending: nat, at: nat)
    requires RingOk(r, g, pending) && g.start - g.kept <= at < g.start && !Held(r, g, at)
    ensures var place := PlaceOf(g, at);
      0 <= place < r.current <= |r.mem| && at < g.start + place < |g.stream| && r.mem[place] == g.stream[g.start + place]
  {
    var place := PlaceOf(g, at);
    SameBytes(r.mem, 0, r.current, g.stream, g.start, place, 1, g.start + place);
    assert r.mem[place..place + 1][0] == g.stream[g.start + place..g.start + place + 1][0];
  }

  /**
   * An overrun that loses nothing: the reader has read all of its iteration, and that is the one before and shorter than
   * what is written since, or the one before that with an empty one or nothing after it.
   */
  predicate FalseAlarm(r: Ring, g: Log, c: Reader, at: nat) {
    && c.iteration < r.iteration
    && if c.iteration + 1 == r.iteration then at == g.start && g.kept < r.current
       else at == g.start - g.kept && (g.kept == 0 || r.current == 0)
  }

  /** An overrun is reported if and only if the reader's next byte is lost, or it is a false alarm; never both. */
  lemma OverRunLoses(r: Ring, g: Log, pending: nat, c: Reader, at: nat)
    requires RingOk(r, g, pending) && ReaderOk(r, g, c, at)
    ensures OverRun(r, c) <==> (at < |g.stream| && !Held(r, g, at)) || FalseAlarm(r, g, c, at)
    ensures FalseAlarm(r, g, c, at) ==> at == |g.stream| || Held(r, g, at)
  {
    hide Holds;
  }

  /** Finding the next block leaves the reader at the same byte of the stream. */
  lemma NextBlockOk(r: Ring, g: Log, pending: nat, c: Reader, at: nat)
    requires RingOk(r, g, pending) && ReaderOk(r, g, c, at) && !OverRun(r, c)
    ensures (r.iteration > c.iteration ==> r.wend >= c.block - 1) && ReaderOk(r, g, NextBlock(r, c), at) && !OverRun(r, NextBlock(r, c))
    // and there is something to read unless the reader has seen all of the stream
    ensures NextBlock(r, c).len == 0 <==> at == |g.stream|
    // the block goes as far as the iteration that it is in
    ensures at + NextBlock(r, c).len == if NextBlock(r, c).iteration == r.iteration then |g.stream| else g.start
  {
    ReaderPlace(r, g, pending, c, at);
    hide Holds;
  }

  /** The places of a block that a writer may be filling. */
  predicate Undisturbed(r: Ring, c: Reader, pending: nat) {
    c.iteration == r.iteration || c.block >= r.current + pending || c.len == 0
  }

  /** The first `n` bytes of the reader's block are the bytes of the stream from `at` on. */
  ghost predicate Reads(r: Ring, g: Log, c: Reader, at: nat, n: nat) {
    at + n <= |g.stream| && c.block + n <= |r.mem| && r.mem[c.block..c.block + n] == g.stream[at..at + n]
  }

  /** The bytes of a block that was not overrun are the next bytes of the stream. */
  lemma BlockIs(r: Ring, g: Log, pending: nat, c: Reader, at: nat)
    requires RingOk(r, g, pending) && ReaderOk(r, g, c, at) && !OverRun(r, c) && Undisturbed(r, c, pending)
    ensures Reads(r, g, c, at, c.len)
  {
    hide Holds;
    ReaderPlace(r, g, pending, c, at);
    if c.iteration == r.iteration {
      SameBytes(r.mem, 0, r.current, g.stream, g.start, c.block, c.len, at);
    } else if c.len > 0 {
      SameBytes(r.mem, r.current + pending, g.kept, g.stream, g.start - g.kept, c.block, c.len, at);
    }
  }

  lemma SameBytes(mem: bytes, from: nat, to: nat, stream: bytes, base: nat, block: nat, len: nat, at: nat)
    requires Holds(mem, from, to, stream, base) && from <= block && block + len <= to
    requires block + len <= |mem| && at == base + block && at + len <= |stream|
    ensures mem[block..block + len] == stream[at..at + len]
  {
    if len > 0 {
      SubSlice(mem, from, to, block - from, block - from + len);
      SubSlice(stream, base + from, base + to, block - from, block - from + len);
    }
  }

  /** Reading bytes moves the reader on by as many bytes of the stream; it wraps only with nothing left to read. */
  lemma ConsumeOk(r: Ring, g: Log, pending: nat, c: Reader, at: nat, len: nat)
    requires RingOk(r, g, pending) && ReaderOk(r, g, c, at) && !OverRun(r, c) && len <= c.len
    ensures ReaderOk(r, g, Consume(r, c, len), at + len) && !OverRun(r, Consume(r, c, len))
    ensures Consume(r, c, len).len == c.len - len
    ensures c.block + len <= r.wend + 1 && (Consume(r, c, len).iteration != c.iteration ==> Consume(r, c, len).len == 0)
  {
    ReaderPlace(r, g, pending, c, at);
    hide Holds;
  }

  /** A block is safe from what the writer puts in its next `n` places just when the check for `n` more bytes would pass. */
  lemma BlockSafeIff(r: Ring, g: Log, c: Reader, at: nat, n: nat)
    requires RingOk(r, g, 0) && ReaderOk(r, g, c, at) && !OverRun(r, c) && r.current + n <= r.size
    ensures (forall b: bytes :: |b| == n ==> Reads(Fill(r, b), g, c, at, c.len)) <==> Undisturbed(r, c, n)
  {
    ReaderPlace(r, g, 0, c, at);
    if Undisturbed(r, c, n) {
      forall b: bytes | |b| == n
        ensures Reads(Fill(r, b), g, c, at, c.len)
      {
        FillOk(r, g, 0, b);
        FillKeepsReader(r, g, b, c, at);
        BlockIs(Fill(r, b), g, n, c, at);
      }
    } else {
      var x := g.stream[at];
      var y: byte := if x == 0 then 1 else 0;
      var b: bytes := seq(n, _ => y);
      hide RingOk, ReaderOk, Holds;
      assert Fill(r, b).mem[r.current..r.current + n] == b;
      assert Fill(r, b).mem[c.block] == b[c.block - r.current] == y;
      assert Fill(r, b).mem[c.block..c.block + c.len][0] == y;
      assert g.stream[at..at + c.len][0] == x;
      assert !Reads(Fill(r, b), g, c, at, c.len);
    }
  }

  lemma FillKeepsReader(r: Ring, g: Log, b: bytes, c: Reader, at: nat)
    requires ReaderOk(r, g, c, at) && |r.mem| == r.size && r.current + |b| <= r.size
    ensures ReaderOk(Fill(r, b), g, c, at) && OverRun(Fill(r, b), c) == OverRun(r, c)
  {
  }

  // ---------------------------------------------------------------- the writer and the readers

  lemma AdvanceKeepsReader(r: Ring, g: Log, pending: nat, len: nat, c: Reader, at: nat)
    requires RingOk(r, g, pending) && ReaderOk(r, g, c, at) && r.current + len <= r.size
    ensures ReaderOk(Advance(r, len), Advanced(r, g, len), c, at)
  {
    hide Holds;
  }

  lemma WrapKeepsReader(r: Ring, g: Log, pending: nat, c: Reader, at: nat)
    requires RingOk(r, g, pending) && ReaderOk(r, g, c, at)
    ensures ReaderOk(ForceWrap(r), Wrapped(r, g), c, at)
  {
    hide Holds;
  }

  lemma AddKeepsReader(r: Ring, g: Log, pending: nat, b: bytes, c: Reader, at: nat)
    requires RingOk(r, g, pending) && ReaderOk(r, g, c, at) && |b| <= r.size
    ensures ReaderOk(Add(r, b), Added(r, g, b), c, at)
  {
    SizesOk(r, g, pending);
    hide RingOk, ReaderOk, Holds, Advance, Advanced, Write, OverRun;
    var room := r.size - r.current;
    if |b| <= room {
      FillOk(r, g, pending, b);
      FillKeepsReader(r, g, b, c, at);
      AdvanceKeepsReader(Fill(r, b), g, Max(pending, |b|), |b|, c, at);
    } else {
      AddWrapsKeepsReader(r, g, pending, b, c, at);
    }
  }

  lemma AddWrapsKeepsReader(r: Ring, g: Log, pending: nat, b: bytes, c: Reader, at: nat)
    requires RingOk(r, g, pending) && ReaderOk(r, g, c, at) && |r.mem| == r.size
    requires r.current < r.size && r.size - r.current < |b| <= r.size
    ensures ReaderOk(Add(r, b), Added(r, g, b), c, at)
  {
    hide RingOk, ReaderOk, Holds, Write, OverRun;
    var room := r.size - r.current;
    var r0 := Fill(r, b[..room]);
    FillOk(r, g, pending, b[..room]);
    FillKeepsReader(r, g, b[..room], c, at);
    AdvanceOk(r0, g, Max(pending, room), room);
    AdvanceKeepsReader(r0, g, Max(pending, room), room, c, at);
    var r1, g1 := Advance(r0, room), Advanced(r0, g, room);
    FillOk(r1, g1, 0, b[room..]);
    FillKeepsReader(r1, g1, b[room..], c, at);
    AdvanceKeepsReader(Fill(r1, b[room..]), g1, |b| - room, |b| - room, c, at);
  }

  // ---------------------------------------------------------------- runs

  datatype Event = AddBytes(b: bytes) | FillBlock(b: bytes) | WroteBlock(len: nat) | ForcedWrap | JoinNow | FindBlock | Read(len: nat)

  /** A ring with one reader: where the reader joined the stream and where it is, what it has read, and whether it was overrun. */
  datatype Run = Run(ring: Ring, log: Log, pending: nat, reader: Reader, from: nat, at: nat, taken: bytes, overrun: bool)

  ghost predicate RunOk(k: Run) {
    && RingOk(k.ring, k.log, k.pending)
    && (!k.overrun ==> ReaderOk(k.ring, k.log, k.reader, k.at) && k.from <= k.at <= |k.log.stream| && k.taken == k.log.stream[k.from..k.at])
  }

  /** What the source demands of its callers. */
  ghost predicate Legal(k: Run, e: Event) {
    match e
    case AddBytes(b) => |b| <= k.ring.size
    case FillBlock(b) => k.ring.current + |b| <= k.ring.size
    case WroteBlock(len) => k.ring.current + len <= k.ring.size
    case Read(len) => len <= k.reader.len
    case _ => true
  }

  ghost function Apply(k: Run, e: Event): Run
    requires RunOk(k) && Legal(k, e)
  {
    hide Holds;
    match e
    case AddBytes(b) =>
      k.(ring := Add(k.ring, b), log := Added(k.ring, k.log, b), pending := StillPending(k.ring, k.pending, |b|))
    case FillBlock(b) => k.(ring := Fill(k.ring, b), pending := Max(k.pending, |b|))
    case WroteBlock(len) =>
      k.(ring := Advance(k.ring, len), log := Advanced(k.ring, k.log, len), pending := StillPending(k.ring, k.pending, len))
    case ForcedWrap => k.(ring := ForceWrap(k.ring), log := Wrapped(k.ring, k.log), pending := 0)
    case JoinNow => Run(k.ring, k.log, k.pending, Join(k.ring), |k.log.stream|, |k.log.stream|, [], false)
    case FindBlock =>
      if k.overrun || OverRun(k.ring, k.reader) then k.(overrun := true)
      else
        NextBlockOk(k.ring, k.log, k.pending, k.reader, k.at);
        k.(reader := NextBlock(k.ring, k.reader))
    case Read(len) =>
      if k.overrun || OverRun(k.ring, k.reader) then k.(overrun := true)
      else
        ReaderPlace(k.ring, k.log, k.pending, k.reader, k.at);
        k.(reader := Consume(k.ring, k.reader, len), at := k.at + len,
           taken := k.taken + k.ring.mem[k.reader.block..k.reader.block + len])
  }

  /** The reader reads only from places that the writer is not filling. */
  ghost predicate Clear(k: Run, e: Event) {
    e.Read? && !k.overrun && !OverRun(k.ring, k.reader) ==> Undisturbed(k.ring, k.reader, k.pending)
  }

  lemma StreamOnlyGrows(k: Run, e: Event)
    requires RunOk(k) && Legal(k, e)
    ensures k.log.stream <= Apply(k, e).log.stream
  {
    hide Holds;
    if e.AddBytes? {
      AddOk(k.ring, k.log, k.pending, e.b);
      hide Added, RingOk;
    }
  }

  lemma WriterStep(k: Run, e: Event)
    requires RunOk(k) && Legal(k, e) && !e.JoinNow? && !e.FindBlock? && !e.Read?
    ensures RunOk(Apply(k, e))
  {
    StreamOnlyGrows(k, e);
    hide RingOk, ReaderOk, Added, Add, Write, Holds, Advance, Advanced, Fill, ForceWrap, Wrapped;
    SizesOk(k.ring, k.log, k.pending);
    match e
    case AddBytes(b) =>
      AddOk(k.ring, k.log, k.pending, b);
      if !k.overrun {
        AddKeepsReader(k.ring, k.log, k.pending, b, k.reader, k.at);
      }
    case FillBlock(b) =>
      FillOk(k.ring, k.log, k.pending, b);
      if !k.overrun {
        FillKeepsReader(k.ring, k.log, b, k.reader, k.at);
      }
    case WroteBlock(len) =>
      AdvanceOk(k.ring, k.log, k.pending, len);
      if !k.overrun {
        AdvanceKeepsReader(k.ring, k.log, k.pending, len, k.reader, k.at);
      }
    case ForcedWrap =>
      WrapOk(k.ring, k.log, k.pending);
      if !k.overrun {
        WrapKeepsReader(k.ring, k.log, k.pending, k.reader, k.at);
      }
  }

  lemma ReaderStep(k: Run, e: Event)
    requires RunOk(k) && Legal(k, e) && (e.JoinNow? || e.FindBlock? || e.Read?) && Clear(k, e)
    ensures RunOk(Apply(k, e))
  {
    hide RingOk, ReaderOk;
    JoinOk(k.ring, k.log, k.pending);
    if !k.overrun && !OverRun(k.ring, k.reader) {
      if e.FindBlock? {
        NextBlockOk(k.ring, k.log, k.pending, k.reader, k.at);
      } else if e.Read? {
        ReaderPlace(k.ring, k.log, k.pending, k.reader, k.at);
        BlockIs(k.ring, k.log, k.pending, k.reader, k.at);
        ConsumeOk(k.ring, k.log, k.pending, k.reader, k.at, e.len);
        hide OverRun, Consume, NextBlock, Undisturbed;
        TakenMore(k.log.stream, k.taken, k.from, k.at, k.ring.mem, k.reader.block, k.reader.len, e.len);
      }
    }
  }

  lemma TakenMore(stream: bytes, taken: bytes, from: nat, at: nat, mem: bytes, block: nat, blockLen: nat, len: nat)
    requires from <= at && at + blockLen <= |stream| && taken == stream[from..at] && len <= blockLen
    requires block + blockLen <= |mem| && mem[block..block + blockLen] == stream[at..at + blockLen]
    ensures taken + mem[block..block + len] == stream[from..at + len]
  {
    assert mem[block..block + len] == mem[block..block + blockLen][..len];
    assert stream[at..at + len] == stream[at..at + blockLen][..len];
    assert stream[from..at] + stream[at..at + len] == stream[from..at + len];
  }

  lemma StepOk(k: Run, e: Event)
    requires RunOk(k) && Legal(k, e) && Clear(k, e)
    ensures RunOk(Apply(k, e))
  {
    hide RunOk, Legal, Clear, Apply;
    if e.JoinNow? || e.FindBlock? || e.Read? {
      ReaderStep(k, e);
    } else {
      WriterStep(k, e);
    }
  }

  /** Events that are legal and clear, each in the state that the ones before it lead to. */
  ghost predicate Allowed(k: Run, events: seq<Event>)
    requires RunOk(k)
    decreases |events|
  {
    events == [] ||
    (Legal(k, events[0]) && Clear(k, events[0]) && (StepOk(k, events[0]); Allowed(Apply(k, events[0]), events[1..])))
  }

  ghost function RunAll(k: Run, events: seq<Event>): (k': Run)
    requires RunOk(k) && Allowed(k, events)
    ensures RunOk(k')
    decreases |events|
  {
    if events == [] then k
    else
      StepOk(k, events[0]);
      RunAll(Apply(k, events[0]), events[1..])
  }

  /** A new ring, with a reader that joins at the start. */
  ghost function NewRun(size: nat, mem: bytes): (k: Run)
    requires |mem| == size > 0
    ensures RunOk(k)
  {
    Run(NewRing(size, mem), Log([], 0, 0), 0, Reader(0, 0, 0), 0, 0, [], false)
  }

  /**
   * However adds, block writes, forced wraps and reads follow each other, what a reader has read is the run of the
   * written stream from the byte where it joined to where it is, for as long as no overrun is reported.
   */
  lemma ReadsTheStream(size: nat, mem: bytes, events: seq<Event>)
    requires |mem| == size > 0 && Allowed(NewRun(size, mem), events)
    ensures var k := RunAll(NewRun(size, mem), events);
      k.overrun || (k.from <= k.at <= |k.log.stream| && k.taken == k.log.stream[k.from..k.at])
  {
    hide RingOk, ReaderOk, Allowed, RunAll, NewRun;
    assert RunOk(RunAll(NewRun(size, mem), events));
  }

  // ---------------------------------------------------------------- overruns of a run

  /** In a run, an overrun is reported by just those calls of the reader that find its place passed. */
  lemma ReportsPassed(k: Run, e: Event)
    requires RunOk(k) && Legal(k, e) && !k.overrun
    ensures Apply(k, e).overrun <==> (e.FindBlock? || e.Read?) && Passed(k.ring, k.log, k.reader, k.at)
  {
    hide Holds, Add, Added, Fill, Advance, Advanced, Wrapped, ForceWrap, NextBlock, Consume, OverRun, Passed;
    OverRunIff(k.ring, k.log, k.pending, k.reader, k.at);
    hide RingOk, ReaderOk;
  }

  /** Some call of the reader finds its place passed. */
  ghost predicate PassedIn(k: Run, events: seq<Event>)
    requires RunOk(k) && Allowed(k, events)
    decreases |events|
  {
    events != [] &&
    (((events[0].FindBlock? || events[0].Read?) && Passed(k.ring, k.log, k.reader, k.at)) ||
     (StepOk(k, events[0]); PassedIn(Apply(k, events[0]), events[1..])))
  }

  /** A run in which the reader does not join again ends overrun if and only if a call found its place passed. */
  lemma {:induction false} OverrunIffPassed(k: Run, events: seq<Event>)
    requires RunOk(k) && Allowed(k, events) && !k.overrun && forall i :: 0 <= i < |events| ==> !events[i].JoinNow?
    ensures RunAll(k, events).overrun <==> PassedIn(k, events)
    decreases |events|
  {
    if events != [] {
      hide RunOk, Legal, Clear, Apply, Passed;
      var e, k' := events[0], Apply(k, events[0]);
      StepOk(k, e);
      ReportsPassed(k, e);
      assert !e.JoinNow? && forall i :: 0 <= i < |events[1..]| ==> events[1..][i] == events[i + 1];
      if k'.overrun {
        StaysOverrun(k', events[1..]);
      } else {
        OverrunIffPassed(k', events[1..]);
      }
    }
  }

  lemma {:induction false} StaysOverrun(k: Run, events: seq<Event>)
    requires RunOk(k) && Allowed(k, events) && k.overrun && forall i :: 0 <= i < |events| ==> !events[i].JoinNow?
    ensures RunAll(k, events).overrun
    decreases |events|
  {
    if events != [] {
      StepOk(k, events[0]);
      assert forall i :: 0 <= i < |events[1..]| ==> events[1..][i] == events[i + 1];
      OverrunKept(k, events[0]);
      hide RunOk, Legal, Clear, Apply;
      StaysOverrun(Apply(k, events[0]), events[1..]);
    }
  }

  lemma OverrunKept(k: Run, e: Event)
    requires RunOk(k) && Legal(k, e) && k.overrun && !e.JoinNow?
    ensures Apply(k, e).overrun
  {
    hide RingOk, ReaderOk, Add, Added, Fill, Advance, Advanced, Wrapped, ForceWrap, NextBlock, Consume;
  }

  lemma AllowedStep(k: Run, e: Event, events: seq<Event>)
    requires RunOk(k) && Legal(k, e) && Clear(k, e) && RunOk(Apply(k, e)) && Allowed(Apply(k, e), events)
    ensures Allowed(k, [e] + events) && RunAll(k, [e] + events) == RunAll(Apply(k, e), events)
  {
    hide RunOk, Legal, Clear, Apply;
    assert ([e] + events)[1..] == events;
  }

  /** One byte was written and read, the writer wrapped early, and wrote two more. */
  ghost function Early(): Run {
    Run(Ring(4, [2, 3, 0, 0], 1, 2, 1), Log([1, 2, 3], 1, 1), 0, Reader(0, 1, 0), 0, 1, [1], false)
  }

  /**
   * A false alarm: a reader that has read everything before the early wrap is told of an overrun, although both bytes
   * written since are held and it has missed none.
   */
  lemma OverrunTooSoon()
    ensures exists events :: Allowed(NewRun(4, [0, 0, 0, 0]), events) && RunAll(NewRun(4, [0, 0, 0, 0]), events) == Early()
    ensures Legal(Early(), FindBlock) && Apply(Early(), FindBlock).overrun
    ensures FalseAlarm(Early().ring, Early().log, Early().reader, 1) && Held(Early().ring, Early().log, 1) && Held(Early().ring, Early().log, 2)
  {
    EarlyRun();
    EarlyReported();
  }

  lemma EarlyRun()
    ensures exists events :: Allowed(NewRun(4, [0, 0, 0, 0]), events) && RunAll(NewRun(4, [0, 0, 0, 0]), events) == Early()
    ensures RunOk(Early())
  {
    EarlyNew();
    hide *;
    var k := NewRun(4, [0, 0, 0, 0]);
    EarlyAdded();
    LeadsTo(k, AddBytes([1]), Early1());
    EarlyRead();
    LeadsTo(Early1(), FindBlock, Early2());
    LeadsTo(Early2(), Read(1), Early3());
    EarlyWrapped();
    LeadsTo(Early3(), ForcedWrap, Early4());
    EarlyWritten();
    LeadsTo(Early4(), AddBytes([2, 3]), Early());
    FiveAllowed(k, Early1(), Early2(), Early3(), Early4(), Early(), AddBytes([1]), FindBlock, Read(1), ForcedWrap, AddBytes([2, 3]));
  }

  lemma EarlyNew()
    ensures RunOk(NewRun(4, [0, 0, 0, 0]))
  {
  }

  lemma LeadsTo(k: Run, e: Event, k': Run)
    requires RunOk(k) && Legal(k, e) && Clear(k, e) && Apply(k, e) == k' && RunOk(k')
    ensures Leads(k, e, k')
  {
    hide RunOk, Legal, Clear, Apply;
  }

  /** From one state to another by an event that is legal and clear. */
  ghost predicate Leads(k: Run, e: Event, k': Run) {
    RunOk(k) && Legal(k, e) && Clear(k, e) && Apply(k, e) == k' && RunOk(k')
  }

  lemma FiveAllowed(k0: Run, k1: Run, k2: Run, k3: Run, k4: Run, k5: Run, a: Event, b: Event, c: Event, d: Event, e: Event)
    requires Leads(k0, a, k1) && Leads(k1, b, k2) && Leads(k2, c, k3) && Leads(k3, d, k4) && Leads(k4, e, k5)
    ensures RunOk(k0) && RunOk(k5) && exists events :: Allowed(k0, events) && RunAll(k0, events) == k5
  {
    hide RunOk, Legal, Clear, Apply;
    assert Allowed(k5, []) && RunAll(k5, []) == k5;
    hide Allowed, RunAll;
    var e4 := [e] + [];
    AllowedStep(k4, e, []);
    var e3 := [d] + e4;
    AllowedStep(k3, d, e4);
    var e2 := [c] + e3;
    AllowedStep(k2, c, e3);
    AllowedStep(k1, b, e2);
    AllowedStep(k0, a, [b] + e2);
  }

  ghost function Early1(): Run {
    Run(Ring(4, [1, 0, 0, 0], 0, 1, 0), Log([1], 0, 0), 0, Reader(0, 0, 0), 0, 0, [], false)
  }

  ghost function Early2(): Run {
    Early1().(reader := Reader(0, 0, 1))
  }

  ghost function Early3(): Run {
    Early1().(reader := Reader(0, 1, 0), at := 1, taken := [1])
  }

  ghost function Early4(): Run {
    Early3().(ring := Ring(4, [1, 0, 0, 0], 1, 0, 0), log := Log([1], 1, 1))
  }

  lemma EarlyAdded()
    ensures Legal(NewRun(4, [0, 0, 0, 0]), AddBytes([1])) && Clear(NewRun(4, [0, 0, 0, 0]), AddBytes([1]))
    ensures Apply(NewRun(4, [0, 0, 0, 0]), AddBytes([1])) == Early1() && RunOk(Early1())
  {
    hide RunOk;
    var k := NewRun(4, [0, 0, 0, 0]);
    assert Legal(k, AddBytes([1])) && Clear(k, AddBytes([1]));
    StepOk(k, AddBytes([1]));
    hide Legal, Clear;
    EarlyAdd();
  }

  lemma EarlyAdd()
    ensures Apply(NewRun(4, [0, 0, 0, 0]), AddBytes([1])) == Early1()
  {
    assert Write([0, 0, 0, 0], 0, [1]) == [1, 0, 0, 0];
    assert [] + [1, 0, 0, 0][0..1] == [1];
  }

  lemma EarlyRead()
    requires RunOk(Early1())
    ensures Legal(Early1(), FindBlock) && Clear(Early1(), FindBlock) && Apply(Early1(), FindBlock) == Early2() && RunOk(Early2())
    ensures Legal(Early2(), Read(1)) && Clear(Early2(), Read(1)) && Apply(Early2(), Read(1)) == Early3() && RunOk(Early3())
  {
    hide *;
    EarlyFound();
    StepOk(Early1(), FindBlock);
    EarlyTaken();
    StepOk(Early2(), Read(1));
  }

  lemma EarlyFound()
    requires RunOk(Early1())
    ensures Legal(Early1(), FindBlock) && Clear(Early1(), FindBlock) && Apply(Early1(), FindBlock) == Early2()
  {
    hide RunOk;
  }

  lemma EarlyTaken()
    requires RunOk(Early2())
    ensures Legal(Early2(), Read(1)) && Clear(Early2(), Read(1)) && Apply(Early2(), Read(1)) == Early3()
  {
    EarlyMayRead();
    EarlyByte();
    hide RunOk, Legal, Clear, Consume, Apply, OverRun;
    ReadIs(Early2(), 1, Reader(0, 1, 0), [1]);
  }

  lemma EarlyMayRead()
    ensures Legal(Early2(), Read(1)) && Clear(Early2(), Read(1)) && !OverRun(Early2().ring, Early2().reader)
    ensures Consume(Early2().ring, Early2().reader, 1) == Reader(0, 1, 0)
  {
  }

  lemma EarlyByte()
    ensures Early2().taken + Early2().ring.mem[0..1] == [1]
  {
  }

  lemma ReadIs(k: Run, len: nat, c: Reader, t: bytes)
    requires RunOk(k) && Legal(k, Read(len)) && !k.overrun && !OverRun(k.ring, k.reader) && Consume(k.ring, k.reader, len) == c
    requires k.reader.block + len <= |k.ring.mem| && k.taken + k.ring.mem[k.reader.block..k.reader.block + len] == t
    ensures Apply(k, Read(len)) == k.(reader := c, at := k.at + len, taken := t)
  {
    hide RunOk, Legal, Consume, OverRun;
  }

  lemma EarlyWrapped()
    requires RunOk(Early3())
    ensures Legal(Early3(), ForcedWrap) && Clear(Early3(), ForcedWrap) && Apply(Early3(), ForcedWrap) == Early4() && RunOk(Early4())
  {
    hide RunOk;
    StepOk(Early3(), ForcedWrap);
  }

  lemma EarlyWritten()
    requires RunOk(Early4())
    ensures Legal(Early4(), AddBytes([2, 3])) && Clear(Early4(), AddBytes([2, 3]))
    ensures Apply(Early4(), AddBytes([2, 3])) == Early() && RunOk(Early())
  {
    hide RunOk;
    var k := Early4();
    assert Legal(k, AddBytes([2, 3])) && Clear(k, AddBytes([2, 3]));
    StepOk(k, AddBytes([2, 3]));
    hide Legal, Clear;
    EarlyWrite();
  }

  lemma EarlyWrite()
    requires RunOk(Early4())
    ensures Apply(Early4(), AddBytes([2, 3])) == Early()
  {
    hide RunOk;
    assert Write([1, 0, 0, 0], 0, [2, 3]) == [2, 3, 0, 0];
    assert [1] + [2, 3, 0, 0][0..2] == [1, 2, 3];
  }

  lemma EarlyReported()
    requires RunOk(Early())
    ensures Legal(Early(), FindBlock) && Apply(Early(), FindBlock).overrun
    ensures FalseAlarm(Early().ring, Early().log, Early().reader, 1) && Held(Early().ring, Early().log, 1) && Held(Early().ring, Early().log, 2)
  {
    hide RunOk;
  }

  // ---------------------------------------------------------------- reading what is being filled

  /** What the reader has read is the run of the stream from where it joined to where it is. */
  ghost predicate InStream(k: Run) {
    !k.overrun && k.from <= k.at <= |k.log.stream| && k.taken == k.log.stream[k.from..k.at]
  }

  /** The writer puts bytes at its place, and before it reports them the reader reads all of its block. */
  ghost function FillThenRead(k: Run, b: bytes): Run
    requires RunOk(k) && Legal(k, FillBlock(b))
  {
    StepOk(k, FillBlock(b));
    Apply(Apply(k, FillBlock(b)), Read(k.reader.len))
  }

  lemma FillThenReadIs(k: Run, b: bytes)
    requires RunOk(k) && Legal(k, FillBlock(b)) && !k.overrun && !OverRun(k.ring, k.reader)
    ensures var r, c := Fill(k.ring, b), k.reader;
      && c.block + c.len <= |r.mem| && k.at + c.len <= |k.log.stream| && k.from <= k.at && k.taken == k.log.stream[k.from..k.at]
      && var k' := FillThenRead(k, b);
         && !k'.overrun && k'.log == k.log && k'.from == k.from && k'.at == k.at + c.len
         && k'.taken == k.taken + r.mem[c.block..c.block + c.len]
  {
    ReaderPlace(k.ring, k.log, k.pending, k.reader, k.at);
    FillKeepsReader(k.ring, k.log, b, k.reader, k.at);
    hide RingOk, ReaderOk, Write, OverRun, Consume, Holds;
  }

  lemma TakenIff(stream: bytes, from: nat, at: nat, more: bytes)
    requires from <= at && at + |more| <= |stream|
    ensures stream[from..at] + more == stream[from..at + |more|] <==> more == stream[at..at + |more|]
  {
    var a, b := stream[from..at], stream[at..at + |more|];
    assert stream[from..at + |more|] == a + b;
    assert (a + more)[|a|..] == more && (a + b)[|a|..] == b;
  }

  lemma FilledReadIff(k: Run, b: bytes)
    requires RunOk(k) && Legal(k, FillBlock(b)) && !k.overrun && !OverRun(k.ring, k.reader)
    ensures InStream(FillThenRead(k, b)) <==> Reads(Fill(k.ring, b), k.log, k.reader, k.at, k.reader.len)
  {
    hide RingOk, ReaderOk, Holds, OverRun, Apply, Write;
    SizesOk(k.ring, k.log, k.pending);
    FillThenReadIs(k, b);
    var r, c, k' := Fill(k.ring, b), k.reader, FillThenRead(k, b);
    hide RunOk, Fill, FillThenRead;
    TakenIff(k.log.stream, k.from, k.at, r.mem[c.block..c.block + c.len]);
    assert k'.log.stream == k.log.stream;
  }

  /**
   * A reader that reads its block while the writer fills `n` places that it has not reported reads bytes of the stream
   * whatever is filled in just when the check for `n` more bytes passes. The run goes on without an overrun either way.
   */
  lemma ReadWhileFilledIff(k: Run, n: nat)
    requires RunOk(k) && k.pending == 0 && !k.overrun && !OverRun(k.ring, k.reader) && k.ring.current + n <= k.ring.size
    ensures (forall b: bytes :: |b| == n ==> InStream(FillThenRead(k, b))) <==> Undisturbed(k.ring, k.reader, n)
  {
    hide ReaderOk, FillThenRead, InStream, Undisturbed, OverRun, Reads, Holds;
    BlockSafeIff(k.ring, k.log, k.reader, k.at, n);
    forall b: bytes | |b| == n
      ensures InStream(FillThenRead(k, b)) <==> Reads(Fill(k.ring, b), k.log, k.reader, k.at, k.reader.len)
    {
      FilledReadIff(k, b);
    }
  }

  /** Two bytes are written and are the reader's block, and a third is put over the first and not yet reported. */
  ghost function Filled(): Run {
    Run(Ring(2, [3, 2], 1, 0, 1), Log([1, 2], 2, 2), 1, Reader(0, 0, 2), 0, 0, [], false)
  }

  /** The first of them is read. */
  ghost function Misread(): Run {
    Filled().(reader := Reader(0, 1, 1), at := 1, taken := [3])
  }

  /**
   * It happens: in a ring of two bytes that is written full, the reader finds both bytes as its block, the writer puts a
   * byte of its next block over the first, and the reader reads that byte. No overrun is reported.
   */
  lemma FilledBlockIsRead()
    ensures var events := [AddBytes([1, 2]), FindBlock, FillBlock([3])];
      Allowed(NewRun(2, [0, 0]), events) && RunAll(NewRun(2, [0, 0]), events) == Filled()
    ensures Legal(Filled(), Read(1)) && !Clear(Filled(), Read(1)) && Apply(Filled(), Read(1)) == Misread()
    ensures !Misread().overrun && Misread().at == 1 && Misread().taken == [3] && Misread().log.stream == [1, 2]
  {
    hide RunOk, Legal, Clear, Apply, NewRun;
    TwoWritten();
    TwoFound();
    OneFilled();
    ThreeAllowed(NewRun(2, [0, 0]), AddBytes([1, 2]), FindBlock, FillBlock([3]));
    OneMisread();
  }

  /** The ring when two bytes are written. */
  ghost function Written(): Run {
    Run(Ring(2, [1, 2], 1, 0, 1), Log([1, 2], 2, 2), 0, Reader(0, 0, 0), 0, 0, [], false)
  }

  lemma TwoWritten()
    ensures Legal(NewRun(2, [0, 0]), AddBytes([1, 2])) && Clear(NewRun(2, [0, 0]), AddBytes([1, 2]))
    ensures Apply(NewRun(2, [0, 0]), AddBytes([1, 2])) == Written() && RunOk(Written())
  {
    hide RunOk;
    var k := NewRun(2, [0, 0]);
    assert Legal(k, AddBytes([1, 2])) && Clear(k, AddBytes([1, 2]));
    StepOk(k, AddBytes([1, 2]));
    hide Legal, Clear;
    TwoAdded();
  }

  lemma TwoAdded()
    ensures Apply(NewRun(2, [0, 0]), AddBytes([1, 2])) == Written()
  {
    assert Write([0, 0], 0, [1, 2]) == [1, 2];
    assert [] + [1, 2][0..2] == [1, 2];
  }

  lemma TwoFound()
    requires RunOk(Written())
    ensures Legal(Written(), FindBlock) && Clear(Written(), FindBlock)
    ensures Apply(Written(), FindBlock) == Written().(reader := Reader(0, 0, 2)) && RunOk(Written().(reader := Reader(0, 0, 2)))
  {
    hide RunOk;
    StepOk(Written(), FindBlock);
  }

  lemma OneFilled()
    requires RunOk(Written().(reader := Reader(0, 0, 2)))
    ensures var k := Written().(reader := Reader(0, 0, 2));
      Legal(k, FillBlock([3])) && Clear(k, FillBlock([3])) && Apply(k, FillBlock([3])) == Filled() && RunOk(Filled())
  {
    hide RunOk;
    StepOk(Written().(reader := Reader(0, 0, 2)), FillBlock([3]));
    assert Write([1, 2], 0, [3]) == [3, 2];
  }

  lemma OneMisread()
    requires RunOk(Filled())
    ensures Legal(Filled(), Read(1)) && !Clear(Filled(), Read(1))
    ensures Apply(Filled(), Read(1)) == Misread()
  {
    hide RunOk, Holds;
    var k := Filled();
    assert !OverRun(k.ring, k.reader);
    assert Consume(k.ring, k.reader, 1) == Reader(0, 1, 1);
    OneTaken();
  }

  lemma OneTaken()
    ensures [] + [3, 2][0..1] == [3]
  {
  }

  lemma ThreeAllowed(k: Run, a: Event, b: Event, c: Event)
    requires RunOk(k) && Legal(k, a) && Clear(k, a)
    requires RunOk(Apply(k, a)) && Legal(Apply(k, a), b) && Clear(Apply(k, a), b)
    requires var k2 := Apply(Apply(k, a), b); RunOk(k2) && Legal(k2, c) && Clear(k2, c)
    ensures Allowed(k, [a, b, c]) && RunAll(k, [a, b, c]) == Apply(Apply(Apply(k, a), b), c)
  {
    hide RunOk, Legal, Clear, Apply;
    var k1, k2 := Apply(k, a), Apply(Apply(k, a), b);
    StepOk(k2, c);
    assert [a, b, c][1..] == [b, c] && [b, c][1..] == [c] && [c][1..] == [];
    var k3 := Apply(k2, c);
    assert Allowed(k3, []) && RunAll(k3, []) == k3;
    assert Allowed(k2, [c]) && RunAll(k2, [c]) == k3;
    assert Allowed(k1, [b, c]) && RunAll(k1, [b, c]) == k3;
  }
}
