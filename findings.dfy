/**
 * Two places where globalmem.c, as written, does not do what the device is
 * evidently meant to do. Each is modelled as written, with the input that
 * shows the difference; the rest of the model uses the intended behaviour.
 */
module GlobalMemFindings {
  import opened GlobalMem

  /** 2^32: the range of a C unsigned int. */
  const UINT_MOD: int := 0x1_0000_0000

  /** The conversion of an integer to a 32-bit C int (two's complement wrap-around). */
  function Int32(x: int): (y: int)
    ensures -0x8000_0000 <= y < 0x8000_0000
    ensures (x - y) % UINT_MOD == 0
    ensures -0x8000_0000 <= x < 0x8000_0000 ==> y == x
  {
    (x + 0x8000_0000) % UINT_MOD - 0x8000_0000
  }

  /**
   * globalmem_llseek as written: the SEEK_SET bound is tested on
   * `(unsigned int)offset`, the low 32 bits of the 64-bit offset, and the
   * result is returned through an int.
   */
  function SeekAsWritten(pos: int, offset: int, orig: int): (r: SeekResult)
    ensures r.ret >= 0 <==> (orig == SEEK_SET && offset >= 0 && offset % UINT_MOD <= SIZE) || (orig == SEEK_CUR && InRange(pos + offset))
    ensures r.ret >= 0 && orig == SEEK_SET ==> r.pos == offset
    ensures r.ret >= 0 && orig == SEEK_CUR ==> r.pos == pos + offset
    ensures r.ret >= 0 ==> r.ret == Int32(r.pos) && r.ret == r.pos % UINT_MOD
    ensures r.ret < 0 ==> r.ret == -EINVAL && r.pos == pos
  {
    if orig == SEEK_SET then
      if offset < 0 || offset % UINT_MOD > SIZE then SeekResult(-EINVAL, pos)
      else SeekResult(Int32(offset), offset)
    else if orig == SEEK_CUR then
      if pos + offset > SIZE || pos + offset < 0 then SeekResult(-EINVAL, pos)
      else SeekResult(Int32(pos + offset), pos + offset)
    else SeekResult(-EINVAL, pos)
  }

  /**
   * The SEEK_SET offset 2^32 passes the truncated bound: llseek reports
   * success with return value 0, yet leaves the cursor at 2^32, past SIZE,
   * where every later read fails with -ENOMEM. The intended check refuses it.
   */
  lemma SeekAsWrittenEscapesRange()
    ensures SeekAsWritten(0, UINT_MOD, SEEK_SET) == SeekResult(0, UINT_MOD)
    ensures !InRange(SeekAsWritten(0, UINT_MOD, SEEK_SET).pos)
    ensures ReadSpec(Zeros(SIZE), UINT_MOD, 1, false).ret == -ENOMEM
    ensures SeekSpec(0, UINT_MOD, SEEK_SET) == SeekResult(-EINVAL, 0)
  {
  }

  /** Below 2^32 the truncation is invisible: the code as written and the intended seek agree. */
  lemma SeekAsWrittenAgreesBelowTwoToThe32(pos: int, offset: int, orig: int)
    requires offset < UINT_MOD
    ensures SeekAsWritten(pos, offset, orig) == SeekSpec(pos, offset, orig)
  {
  }

  /** The bytes one pointer takes: `dev->mem + p` advances p of them (64-bit kernel). */
  const PTR_BYTES: nat := 8

  /** The bytes `unsigned char* mem[GLOBALMEM_SIZE]` really spans. */
  const SPAN: nat := SIZE * PTR_BYTES

  /** Where the transfer at cursor p really starts in the struct's array. */
  function Address(p: int): (a: nat)
    requires InRange(p)
    ensures a + (SIZE - p) <= SPAN
  {
    PTR_BYTES * p
  }

  /** globalmem_write as written, over the SPAN bytes of the pointer array. */
  function WriteAsWritten(raw: seq<bv8>, pos: int, buf: seq<bv8>, fault: bool): (r: WriteResult)
    requires |raw| == SPAN
    ensures |r.mem| == SPAN
    ensures !InRange(pos) ==> r == WriteResult(-ENOMEM, raw, pos)
    ensures InRange(pos) && fault && Clip(|buf|, pos) > 0 ==> r == WriteResult(-EFAULT, raw, pos)
    ensures InRange(pos) && !(fault && Clip(|buf|, pos) > 0) ==>
      r.ret == Clip(|buf|, pos) && r.pos == pos + r.ret
    ensures InRange(pos) && r.ret >= 0 ==> forall i :: 0 <= i < r.ret ==> r.mem[Address(pos) + i] == buf[i]
    ensures InRange(pos) ==>
      forall i :: 0 <= i < SPAN && !(Address(pos) <= i < Address(pos) + r.pos - pos) ==> r.mem[i] == raw[i]
  {
    if !InRange(pos) then WriteResult(-ENOMEM, raw, pos)
    else
      var count := Clip(|buf|, pos);
      if fault && count > 0 then WriteResult(-EFAULT, raw, pos)
      else WriteResult(count, Written(raw, Address(pos), buf[..count]), pos + count)
  }

  /** globalmem_read as written, over the SPAN bytes of the pointer array. */
  function ReadAsWritten(raw: seq<bv8>, pos: int, size: nat, fault: bool): (r: ReadResult)
    requires |raw| == SPAN
    ensures !InRange(pos) ==> r == ReadResult(-ENOMEM, [], pos)
    ensures InRange(pos) && fault && Clip(size, pos) > 0 ==> r == ReadResult(-EFAULT, [], pos)
    ensures InRange(pos) && !(fault && Clip(size, pos) > 0) ==>
      r.ret == |r.data| == Clip(size, pos) && r.pos == pos + r.ret
    ensures InRange(pos) && r.ret >= 0 ==> forall i :: 0 <= i < r.ret ==> r.data[i] == raw[Address(pos) + i]
  {
    if !InRange(pos) then ReadResult(-ENOMEM, [], pos)
    else
      var count := Clip(size, pos);
      if fault && count > 0 then ReadResult(-EFAULT, [], pos)
      else ReadResult(count, raw[Address(pos)..Address(pos) + count], pos + count)
  }

  /** GLOBALMEM_CLEAR as written: memset of SIZE bytes, the first eighth of the array. */
  function ClearAsWritten(raw: seq<bv8>): (r: seq<bv8>)
    requires |raw| == SPAN
    ensures |r| == SPAN
    ensures forall i :: 0 <= i < SIZE ==> r[i] == 0
    ensures forall i :: SIZE <= i < SPAN ==> r[i] == raw[i]
  {
    Zeros(SIZE) + raw[SIZE..]
  }

  /**
   * Writing the byte 1 at cursor 0x200, clearing, and reading one byte at
   * 0x200 gives back 1 as written: the byte sits at address 0x1000, beyond the
   * memset. In the intended byte buffer the same calls give back 0.
   */
  lemma ClearLeavesDataAsWritten()
    ensures ReadAsWritten(ClearAsWritten(WriteAsWritten(Zeros(SPAN), 0x200, [1], false).mem), 0x200, 1, false).data == [1]
    ensures ReadSpec(IoctlSpec(WriteSpec(Zeros(SIZE), 0x200, [1], false).mem, CLEAR), 0x200, 1, false).data == [0]
  {
  }

  /**
   * Writing 1, 2, 3, 4 at cursor 0 and reading two bytes at cursor 2 gives
   * back 0, 0 as written: cursor 2 starts at address 16, past the four bytes
   * stored from address 0. In the intended byte buffer the same calls give
   * back 3, 4.
   */
  lemma NeighbourReadMissesDataAsWritten()
    ensures ReadAsWritten(WriteAsWritten(Zeros(SPAN), 0, [1, 2, 3, 4], false).mem, 2, 2, false).data == [0, 0]
    ensures ReadSpec(WriteSpec(Zeros(SIZE), 0, [1, 2, 3, 4], false).mem, 2, 2, false).data == [3, 4]
  {
  }
}
