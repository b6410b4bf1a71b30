/**
 * The globalmem character device: one shared, zero-initialised buffer of
 * SIZE bytes, and one cursor per open file.
 *
 * The pure functions in this module say what each file operation does to the
 * buffer and the cursor; the classes Device and File are the in-place
 * implementation, and every method is proved equal to its function.
 */
module GlobalMem {

  /** GLOBALMEM_SIZE: the capacity of the buffer in bytes. */
  const SIZE: nat := 0x1000

  /** Linux error numbers; operations return their negation. */
  const ENOMEM: int := 12
  const EFAULT: int := 14
  const EINVAL: int := 22

  /** GLOBALMEM_CLEAR is _IO('g', 0): type 'g' (0x67) in bits 8..15, number 0. */
  const CLEAR: int := 0x67 * 0x100

  /** The two `orig` values llseek accepts. */
  const SEEK_SET: int := 0
  const SEEK_CUR: int := 1

  /**
   * Whether a cursor may start a transfer. The source tests the cursor as an
   * unsigned long against SIZE, so a negative cursor is out of range too.
   */
  predicate InRange(pos: int)
  {
    0 <= pos <= SIZE
  }

  /** n zero bytes: what kzalloc and memset leave behind. */
  function Zeros(n: nat): (z: seq<bv8>)
    ensures |z| == n
    ensures forall i :: 0 <= i < n ==> z[i] == 0
  {
    if n == 0 then [] else Zeros(n - 1) + [0]
  }

  /**
   * The number of bytes a transfer of `size` bytes at cursor `p` moves: as many
   * as were asked for, cut back so that the transfer ends at SIZE at the latest.
   */
  function Clip(size: nat, p: int): (count: nat)
    requires InRange(p)
    ensures count <= size && p + count <= SIZE
    ensures count == size || p + count == SIZE
  {
    if size > SIZE - p then SIZE - p else size
  }

  /** `mem` with the bytes at [p, p + |data|) replaced by `data`. */
  function Written(mem: seq<bv8>, p: nat, data: seq<bv8>): (r: seq<bv8>)
    requires p + |data| <= |mem|
    ensures |r| == |mem|
    ensures forall i :: 0 <= i < |data| ==> r[p + i] == data[i]
    ensures forall i :: 0 <= i < |mem| && !(p <= i < p + |data|) ==> r[i] == mem[i]
  {
    mem[..p] + data + mem[p + |data|..]
  }

  /** What a write leaves behind: the return value, the buffer and the cursor. */
  datatype WriteResult = WriteResult(ret: int, mem: seq<bv8>, pos: int)

  /** What a read hands back: the return value, the bytes copied out and the cursor. */
  datatype ReadResult = ReadResult(ret: int, data: seq<bv8>, pos: int)

  /** What llseek leaves behind: the return value and the cursor. */
  datatype SeekResult = SeekResult(ret: int, pos: int)

  /**
   * globalmem_write of the bytes `buf` at cursor `pos`; `fault` stands for
   * copy_from_user failing to read the caller's buffer, which it can only do
   * when there is at least one byte to copy.
   */
  function WriteSpec(mem: seq<bv8>, pos: int, buf: seq<bv8>, fault: bool): (r: WriteResult)
    requires |mem| == SIZE
    ensures |r.mem| == SIZE
    ensures r.ret == -ENOMEM <==> !InRange(pos)
    ensures r.ret == -EFAULT <==> InRange(pos) && fault && Clip(|buf|, pos) > 0
    ensures r.ret >= 0 <==> InRange(pos) && !(fault && Clip(|buf|, pos) > 0)
    ensures r.ret < 0 ==> r.mem == mem && r.pos == pos
    ensures r.ret >= 0 ==> r.ret <= |buf| && r.pos == pos + r.ret && InRange(r.pos)
    ensures r.ret >= 0 ==> r.ret == |buf| || r.pos == SIZE
    ensures r.ret >= 0 ==> forall i :: 0 <= i < r.ret ==> r.mem[pos + i] == buf[i]
    ensures forall i :: 0 <= i < SIZE && !(pos <= i < r.pos) ==> r.mem[i] == mem[i]
  {
    if !InRange(pos) then WriteResult(-ENOMEM, mem, pos)
    else
      var count := Clip(|buf|, pos);
      if fault && count > 0 then WriteResult(-EFAULT, mem, pos)
      else WriteResult(count, Written(mem, pos, buf[..count]), pos + count)
  }

  /**
   * globalmem_read of up to `size` bytes at cursor `pos`; `fault` stands for
   * copy_to_user failing to fill the caller's buffer, which it can only do
   * when there is at least one byte to copy.
   */
  function ReadSpec(mem: seq<bv8>, pos: int, size: nat, fault: bool): (r: ReadResult)
    requires |mem| == SIZE
    ensures r.ret == -ENOMEM <==> !InRange(pos)
    ensures r.ret == -EFAULT <==> InRange(pos) && fault && Clip(size, pos) > 0
    ensures r.ret >= 0 <==> InRange(pos) && !(fault && Clip(size, pos) > 0)
    ensures r.ret < 0 ==> r.data == [] && r.pos == pos
    ensures r.ret >= 0 ==> r.ret == |r.data| <= size && r.pos == pos + r.ret && InRange(r.pos)
    ensures r.ret >= 0 ==> r.ret == size || r.pos == SIZE
    ensures r.ret >= 0 ==> forall i :: 0 <= i < r.ret ==> r.data[i] == mem[pos + i]
  {
    if !InRange(pos) then ReadResult(-ENOMEM, [], pos)
    else
      var count := Clip(size, pos);
      if fault && count > 0 then ReadResult(-EFAULT, [], pos)
      else ReadResult(count, mem[pos..pos + count], pos + count)
  }

  /**
   * globalmem_llseek: move the cursor to `offset` (SEEK_SET) or by `offset`
   * (SEEK_CUR), refusing any target outside [0, SIZE] and any other `orig`.
   */
  function SeekSpec(pos: int, offset: int, orig: int): (r: SeekResult)
    ensures r.ret >= 0 <==> (orig == SEEK_SET && InRange(offset)) || (orig == SEEK_CUR && InRange(pos + offset))
    ensures r.ret >= 0 ==> r.pos == r.ret && InRange(r.pos)
    ensures r.ret >= 0 && orig == SEEK_SET ==> r.pos == offset
    ensures r.ret >= 0 && orig == SEEK_CUR ==> r.pos == pos + offset
    ensures r.ret < 0 ==> r.ret == -EINVAL && r.pos == pos
  {
    if orig == SEEK_SET then
      if offset < 0 || offset > SIZE then SeekResult(-EINVAL, pos)
      else SeekResult(offset, offset)
    else if orig == SEEK_CUR then
      if pos + offset > SIZE || pos + offset < 0 then SeekResult(-EINVAL, pos)
      else SeekResult(pos + offset, pos + offset)
    else SeekResult(-EINVAL, pos)
  }

  /**
   * The buffer after globalmem_ioctl with command `cmd`: all zeros for
   * GLOBALMEM_CLEAR, untouched for any other command. The call always returns 0.
   */
  function IoctlSpec(mem: seq<bv8>, cmd: int): (r: seq<bv8>)
    requires |mem| == SIZE
    ensures |r| == SIZE
    ensures cmd == CLEAR ==> forall i :: 0 <= i < SIZE ==> r[i] == 0
    ensures cmd != CLEAR ==> r == mem
  {
    if cmd == CLEAR then Zeros(SIZE) else mem
  }

  /** The device: the one buffer every open file shares. */
  class Device {
    const mem: array<bv8>

    ghost predicate Valid()
      reads this
    {
      mem.Length == SIZE
    }

    /** The buffer as globalmem_init's kzalloc leaves it: SIZE zero bytes. */
    constructor ()
      ensures Valid() && fresh(mem)
      ensures mem[..] == Zeros(SIZE)
    {
      mem := new bv8[SIZE](_ => 0);
    }
  }

  /** An open file of the device: the device it was opened on and its cursor f_pos. */
  class File {
    const dev: Device
    var pos: int

    /** globalmem_open: attach the device; the cursor of a new file is 0. */
    constructor Open(d: Device)
      ensures dev == d && pos == 0
    {
      dev := d;
      pos := 0;
    }

    /** globalmem_write, copying the bytes of `buf` into the buffer one at a time. */
    method Write(buf: seq<bv8>, fault: bool) returns (ret: int)
      requires dev.Valid()
      modifies this`pos, dev.mem
      ensures WriteResult(ret, dev.mem[..], pos) == WriteSpec(old(dev.mem[..]), old(pos), buf, fault)
    {
      var p := pos;
      if p < 0 || p > SIZE {
        return -ENOMEM;
      }
      var count := |buf|;
      if count > SIZE - p {
        count := SIZE - p;
      }
      if fault && count > 0 {
        return -EFAULT;
      }
      var i := 0;
      while i < count
        invariant 0 <= i <= count
        invariant forall k :: 0 <= k < i ==> dev.mem[p + k] == buf[k]
        invariant forall k :: 0 <= k < SIZE && !(p <= k < p + i) ==> dev.mem[k] == old(dev.mem[k])
      {
        dev.mem[p + i] := buf[i];
        i := i + 1;
      }
      assert dev.mem[..] == Written(old(dev.mem[..]), p, buf[..count]);
      pos := p + count;
      ret := count;
    }

    /** globalmem_read: hand back up to `size` bytes from the cursor on. */
    method Read(size: nat, fault: bool) returns (ret: int, data: seq<bv8>)
      requires dev.Valid()
      modifies this`pos
      ensures ReadResult(ret, data, pos) == ReadSpec(dev.mem[..], old(pos), size, fault)
    {
      var p := pos;
      if p < 0 || p > SIZE {
        return -ENOMEM, [];
      }
      var count := size;
      if count > SIZE - p {
        count := SIZE - p;
      }
      if fault && count > 0 {
        return -EFAULT, [];
      }
      data := dev.mem[p..p + count];
      pos := p + count;
      ret := count;
    }

    /** globalmem_llseek. */
    method Llseek(offset: int, orig: int) returns (ret: int)
      modifies this`pos
      ensures SeekResult(ret, pos) == SeekSpec(old(pos), offset, orig)
    {
      if orig == SEEK_SET {
        if offset < 0 || offset > SIZE {
          return -EINVAL;
        }
        pos := offset;
        ret := pos;
      } else if orig == SEEK_CUR {
        if pos + offset > SIZE || pos + offset < 0 {
          return -EINVAL;
        }
        pos := pos + offset;
        ret := pos;
      } else {
        return -EINVAL;
      }
    }

    /** globalmem_ioctl: GLOBALMEM_CLEAR zeroes the whole buffer; the cursor stays. */
    method Ioctl(cmd: int, arg: int) returns (ret: int)
      requires dev.Valid()
      modifies dev.mem
      ensures ret == 0
      ensures dev.mem[..] == IoctlSpec(old(dev.mem[..]), cmd)
    {
      if cmd == CLEAR {
        var i := 0;
        while i < SIZE
          invariant 0 <= i <= SIZE
          invariant forall k :: 0 <= k < i ==> dev.mem[k] == 0
        {
          dev.mem[i] := 0;
          i := i + 1;
        }
        assert dev.mem[..] == Zeros(SIZE);
      }
      ret := 0;
    }
  }
}
