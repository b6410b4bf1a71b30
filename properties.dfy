/**
 * Properties of the globalmem file operations that relate several calls:
 * round trips, which bytes a write can disturb, clearing, and the cursor
 * bound that every sequence of calls on an open file keeps.
 */
module GlobalMemProperties {
  import opened GlobalMem

  /**
   * Writing bytes that fit at cursor p, seeking back to p with SEEK_SET and
   * reading as many bytes gives back exactly the bytes written.
   */
  lemma WriteSeekReadRoundTrip(mem: seq<bv8>, p: int, buf: seq<bv8>)
    requires |mem| == SIZE && InRange(p) && p + |buf| <= SIZE
    ensures WriteSpec(mem, p, buf, false).ret == |buf|
    ensures SeekSpec(WriteSpec(mem, p, buf, false).pos, p, SEEK_SET) == SeekResult(p, p)
    ensures ReadSpec(WriteSpec(mem, p, buf, false).mem, p, |buf|, false) == ReadResult(|buf|, buf, p + |buf|)
  {
  }

  /**
   * The same round trip, stepping back from where the write left the cursor
   * with a SEEK_CUR of minus the number of bytes written.
   */
  lemma WriteRewindReadRoundTrip(mem: seq<bv8>, p: int, buf: seq<bv8>)
    requires |mem| == SIZE && InRange(p) && p + |buf| <= SIZE
    ensures WriteSpec(mem, p, buf, false).ret == |buf|
    ensures SeekSpec(WriteSpec(mem, p, buf, false).pos, -|buf|, SEEK_CUR) == SeekResult(p, p)
    ensures ReadSpec(WriteSpec(mem, p, buf, false).mem, SeekSpec(WriteSpec(mem, p, buf, false).pos, -|buf|, SEEK_CUR).pos, |buf|, false)
      == ReadResult(|buf|, buf, p + |buf|)
  {
  }

  /**
   * A write leaves every read whose window lies outside the bytes it wrote
   * exactly as it was.
   */
  lemma WriteInvisibleOutsideItsWindow(mem: seq<bv8>, p: int, buf: seq<bv8>, q: int, size: nat)
    requires |mem| == SIZE && InRange(q)
    requires WriteSpec(mem, p, buf, false).ret >= 0
    requires q + Clip(size, q) <= p || WriteSpec(mem, p, buf, false).pos <= q
    ensures ReadSpec(WriteSpec(mem, p, buf, false).mem, q, size, false) == ReadSpec(mem, q, size, false)
  {
  }

  /** After GLOBALMEM_CLEAR every successful read, from any cursor, returns zeros. */
  lemma ClearThenReadIsZero(mem: seq<bv8>, p: int, size: nat)
    requires |mem| == SIZE
    ensures ReadSpec(IoctlSpec(mem, CLEAR), p, size, false).ret >= 0 ==>
      ReadSpec(IoctlSpec(mem, CLEAR), p, size, false).data == Zeros(ReadSpec(IoctlSpec(mem, CLEAR), p, size, false).ret)
  {
  }

  /** Clearing twice leaves the buffer as clearing once does. */
  lemma ClearIdempotent(mem: seq<bv8>)
    requires |mem| == SIZE
    ensures IoctlSpec(IoctlSpec(mem, CLEAR), CLEAR) == IoctlSpec(mem, CLEAR) == Zeros(SIZE)
  {
  }

  /** A freshly created device reads back as zeros from cursor 0 up to SIZE. */
  lemma FreshDeviceReadsZero(size: nat)
    ensures ReadSpec(Zeros(SIZE), 0, size, false).data == Zeros(if size <= SIZE then size else SIZE)
  {
  }

  /** A write from cursor 0 of more than SIZE bytes writes SIZE of them and parks the cursor at SIZE. */
  lemma OversizedWriteFillsBuffer(mem: seq<bv8>, buf: seq<bv8>)
    requires |mem| == SIZE && |buf| > SIZE
    ensures WriteSpec(mem, 0, buf, false).ret == SIZE
    ensures WriteSpec(mem, 0, buf, false).pos == SIZE
    ensures WriteSpec(mem, 0, buf, false).mem == buf[..SIZE]
  {
  }

  /** The state one open file sees: the shared buffer and its own cursor. */
  datatype State = State(mem: seq<bv8>, pos: int)

  /** One call on an open file. */
  datatype Op =
    | WriteOp(buf: seq<bv8>, fault: bool)
    | ReadOp(size: nat, fault: bool)
    | SeekOp(offset: int, orig: int)
    | IoctlOp(cmd: int)

  /** The state after one call. */
  function Step(s: State, op: Op): (t: State)
    requires |s.mem| == SIZE
    ensures |t.mem| == SIZE
    ensures InRange(s.pos) ==> InRange(t.pos)
  {
    match op
    case WriteOp(buf, fault) =>
      var w := WriteSpec(s.mem, s.pos, buf, fault); State(w.mem, w.pos)
    case ReadOp(size, fault) =>
      State(s.mem, ReadSpec(s.mem, s.pos, size, fault).pos)
    case SeekOp(offset, orig) =>
      State(s.mem, SeekSpec(s.pos, offset, orig).pos)
    case IoctlOp(cmd) =>
      State(IoctlSpec(s.mem, cmd), s.pos)
  }

  /** The state after a sequence of calls, made one after the other. */
  function Run(s: State, ops: seq<Op>): (t: State)
    requires |s.mem| == SIZE
    ensures |t.mem| == SIZE
    decreases |ops|
  {
    if ops == [] then s else Run(Step(s, ops[0]), ops[1..])
  }

  /** No sequence of calls moves a cursor that starts in [0, SIZE] out of it. */
  lemma {:induction false} RunStaysInRange(s: State, ops: seq<Op>)
    requires |s.mem| == SIZE && InRange(s.pos)
    ensures InRange(Run(s, ops).pos)
    decreases |ops|
  {
    if ops != [] {
      RunStaysInRange(Step(s, ops[0]), ops[1..]);
    }
  }

  /**
   * On a file opened with cursor 0, whatever calls came before, the next read
   * or write never fails with -ENOMEM: that error path cannot be reached.
   */
  lemma NoOutOfMemoryAfterOpen(mem: seq<bv8>, ops: seq<Op>, buf: seq<bv8>, size: nat, fault: bool)
    requires |mem| == SIZE
    ensures WriteSpec(Run(State(mem, 0), ops).mem, Run(State(mem, 0), ops).pos, buf, fault).ret != -ENOMEM
    ensures ReadSpec(Run(State(mem, 0), ops).mem, Run(State(mem, 0), ops).pos, size, fault).ret != -ENOMEM
  {
    RunStaysInRange(State(mem, 0), ops);
  }
}
