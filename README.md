# globalmem in Dafny

A model of `globalmem`, a Linux character device that exposes one shared,
zero-initialised buffer of `GLOBALMEM_SIZE` (0x1000) bytes. Every open file
has its own cursor (`f_pos`). The model covers the four file operations:

- `write` copies bytes into the buffer at the cursor. The count is clipped to the space left, and the cursor advances by that count.
- `read` copies bytes out in the same way.
- `llseek` moves the cursor to an absolute position (`orig == 0`) or by a relative amount (`orig == 1`), always within `[0, SIZE]`.
- `ioctl(GLOBALMEM_CLEAR)` zeroes the whole buffer.

It also covers the zeroed buffer that module initialisation allocates and the
cursor of 0 that `open` starts with.

Files:

- `globalmem.dfy` (module `GlobalMem`) holds one pure function per operation: `WriteSpec`, `ReadSpec`, `SeekSpec` and `IoctlSpec`. Each function's contract states the clipping, the cursor bounds, which bytes change and the error paths. The module also holds the classes `Device` (an `array<bv8>` of `SIZE` bytes) and `File` (the device and a cursor). Their methods update the buffer and the cursor in place, and each method is proved equal to its function.
- `properties.dfy` (module `GlobalMemProperties`) holds the properties that relate several calls: the write, seek and read round trip; writes that do not disturb bytes outside their window; clearing and its idempotence; a fresh device reading as zeros. It also proves that no sequence of calls on an opened file moves the cursor out of `[0, SIZE]`, so the `-ENOMEM` path of read and write cannot be reached.
- `scenario.dfy` (module `GlobalMemScenario`) opens two files on one device and runs a fixed sequence of calls through the classes.
- `findings.dfy` (module `GlobalMemFindings`) models two pieces of `globalmem.c` as written, where they differ from the evident intent (see Findings).

Error returns follow the source: an operation returns a negative Linux error
number (`-ENOMEM`, `-EFAULT`, `-EINVAL`) or a count or position that is at
least 0. Whether `copy_from_user`/`copy_to_user` fails is a `fault` parameter.
The caller's memory is not modelled: a write takes the bytes to be copied, and
a read returns the bytes it copied.

The model follows the code wherever a general description of the device would
differ. A read or write from a cursor beyond `SIZE` fails with `-ENOMEM`, not
with a separate out-of-range error. Under the corrected seek no cursor can get
there, but the seek as written can (Findings, first row).

## Model

| member | source | states |
|---|---|---|
| `GlobalMem.Zeros` | globalmem.c:141 | the result has `n` bytes and every one is zero |
| `GlobalMem.Clip` | globalmem.c:60-63 | the count is at most the size asked for, ends the transfer at `SIZE` at the latest, and is either the full size or all the space left |
| `GlobalMem.Written` | globalmem.c:65 | the bytes at `[p, p + n)` take the new bytes in order, and every other byte keeps its value |
| `GlobalMem.WriteSpec` | globalmem.c:49-76 | `-ENOMEM` exactly when the cursor is outside `[0, SIZE]`. `-EFAULT` exactly on a copy fault from an in-range cursor with at least one byte to copy. Success in every other case. No change on either error. On success it returns `min(size, SIZE - p)` bytes, the cursor advances by that count and stays in range, the buffer holds the source bytes at `[p, p + count)`, and every byte outside the window is unchanged |
| `GlobalMem.ReadSpec` | globalmem.c:78-102 | the same error and success conditions as write, with no cursor change and no data on error. On success the count is `min(size, SIZE - p)`, the data are `mem[p + i]` for each `i < count`, and the cursor advances by the count and stays in range |
| `GlobalMem.SeekSpec` | globalmem.c:104-132 | succeeds if and only if `orig == 0` with `offset` in `[0, SIZE]` or `orig == 1` with `pos + offset` in `[0, SIZE]`. On success the new cursor is that target and is returned. Otherwise it returns `-EINVAL` and the cursor is unchanged, which covers every other `orig` |
| `GlobalMem.IoctlSpec` | globalmem.c:134-147 | `GLOBALMEM_CLEAR` sets all `SIZE` bytes to zero; any other command leaves the buffer as it was |
| `GlobalMem.Device.constructor` | globalmem.c:192 | the new buffer has `SIZE` bytes, all zero |
| `GlobalMem.File.Open` | globalmem.c:39-43 | the file is attached to the device and its cursor is 0 |
| `GlobalMem.File.Write` | globalmem.c:49-76 | the return value, the new buffer and the new cursor are those of `WriteSpec` on the old buffer and cursor |
| `GlobalMem.File.Read` | globalmem.c:78-102 | the return value, the data and the new cursor are those of `ReadSpec`; the buffer is not modified |
| `GlobalMem.File.Llseek` | globalmem.c:104-132 | the return value and the new cursor are those of `SeekSpec`; the buffer is not modified |
| `GlobalMem.File.Ioctl` | globalmem.c:134-147 | returns 0, the buffer becomes `IoctlSpec` of the old buffer, and the cursor is not modified |
| `GlobalMemProperties.WriteSeekReadRoundTrip` | globalmem.c:65-116 | writing `N <= SIZE - p` bytes at `p` returns `N`, an absolute seek back to `p` returns `p`, and reading `N` bytes then returns exactly the bytes written |
| `GlobalMemProperties.WriteRewindReadRoundTrip` | globalmem.c:118-125 | after writing `N <= SIZE - p` bytes at `p`, a relative seek of `-N` from the cursor the write left returns `p`, and reading `N` bytes there returns exactly the bytes written, leaving the cursor at `p + N` |
| `GlobalMemProperties.WriteInvisibleOutsideItsWindow` | globalmem.c:61-65 | after a successful write, a read whose window lies outside the written bytes returns the same result as before |
| `GlobalMemProperties.ClearThenReadIsZero` | globalmem.c:138-145 | after `GLOBALMEM_CLEAR`, every successful read from any cursor returns only zeros |
| `GlobalMemProperties.ClearIdempotent` | globalmem.c:140-142 | clearing twice equals clearing once, and both give `SIZE` zero bytes |
| `GlobalMemProperties.FreshDeviceReadsZero` | globalmem.c:192 | a fresh buffer read from cursor 0 yields `min(size, SIZE)` zero bytes |
| `GlobalMemProperties.OversizedWriteFillsBuffer` | globalmem.c:61-70 | a write of more than `SIZE` bytes at cursor 0 writes exactly `SIZE` bytes, returns `SIZE`, and leaves the cursor at `SIZE` |
| `GlobalMemProperties.Step` | globalmem.c:49-147 | any one call keeps the buffer at `SIZE` bytes and keeps an in-range cursor in range |
| `GlobalMemProperties.RunStaysInRange` | globalmem.c:104-132 | no sequence of writes, reads, seeks and ioctls moves a cursor in `[0, SIZE]` out of that range |
| `GlobalMemProperties.NoOutOfMemoryAfterOpen` | globalmem.c:57-58 | on a file opened at cursor 0, the next read or write never returns `-ENOMEM`, whatever calls came before |
| `GlobalMemScenario.SharedBufferScenario` | globalmem.c:39-147 | write `[1,2,3,4]`, seek by `-2` and read 10 bytes to get `[3,4,0,0,0,0,0,0,0,0]`. After a clear through a second file on the same device, seeking to 0 and reading 4 bytes gives `[0,0,0,0]` |
| `GlobalMemFindings.Int32` | globalmem.c:115 | the value lies in the 32-bit `int` range, is congruent to the input modulo 2^32, and equals an input that already fits |
| `GlobalMemFindings.SeekAsWritten` | globalmem.c:104-132 | as written: an absolute seek succeeds if and only if the offset is non-negative and its low 32 bits are at most `SIZE`, and a relative seek succeeds if and only if the target is in `[0, SIZE]`. On success the cursor becomes the whole target and the return value is that target converted to a 32-bit `int`. Otherwise the result is `-EINVAL` and the cursor is unchanged |
| `GlobalMemFindings.SeekAsWrittenEscapesRange` | globalmem.c:111 | as written, an absolute seek to 2^32 from cursor 0 returns 0 and leaves the cursor at 2^32, where a read fails with `-ENOMEM`; the intended seek refuses the offset |
| `GlobalMemFindings.SeekAsWrittenAgreesBelowTwoToThe32` | globalmem.c:111 | for every offset below 2^32, the seek as written and the intended seek agree |
| `GlobalMemFindings.Address` | globalmem.c:65 | as written, a transfer at cursor `p` (which starts at byte `8p`, one pointer per position) of up to `SIZE - p` bytes stays inside the `8 * SIZE`-byte array |
| `GlobalMemFindings.WriteAsWritten` | globalmem.c:49-76 | as written: `-ENOMEM` with no change outside `[0, SIZE]`, and `-EFAULT` with no change on a fault with bytes to copy. Otherwise the count is clipped as in `Clip` and the cursor advances by it. The bytes are stored from byte `8p` on, and every byte outside that window keeps its value |
| `GlobalMemFindings.ReadAsWritten` | globalmem.c:78-102 | as written: `-ENOMEM` outside `[0, SIZE]`, and `-EFAULT` on a fault with bytes to copy, both with no data and no cursor change. Otherwise the count is clipped as in `Clip`, the cursor advances by it, and the data come from byte `8p` on |
| `GlobalMemFindings.ClearAsWritten` | globalmem.c:141 | as written: only the first `SIZE` bytes of the `8 * SIZE`-byte array are zeroed, and the rest keep their values |
| `GlobalMemFindings.ClearLeavesDataAsWritten` | globalmem.c:32 | as written, writing 1 at cursor 0x200, clearing, and reading one byte at 0x200 returns 1. The intended buffer returns 0 |
| `GlobalMemFindings.NeighbourReadMissesDataAsWritten` | globalmem.c:32 | as written, writing `[1,2,3,4]` at cursor 0 and then reading 2 bytes at cursor 2 returns `[0,0]`. The intended buffer returns `[3,4]` |

## Left out

- Module and character-device registration (`globalmem_init` region allocation, `cdev_init`/`cdev_add`/`cdev_del`, major numbers, `globalmem_setup_cdev`, `globalmem_exit`): kernel plumbing outside the device's behaviour. The failure of `kzalloc` at initialisation is left out with it, because allocation in the model cannot fail.
- `globalmem_release`: it only returns 0, so a file may simply be dropped.
- `printk` logging of byte counts: a diagnostic with no effect on state.
- GlobalMem.WriteSpec: on `-EFAULT` the model leaves the buffer unchanged. The kernel's `copy_from_user` may already have copied a readable prefix and zero-filled the rest of the window; user memory and fault granularity are not modelled.
- GlobalMem.ReadSpec: on `-EFAULT` the model hands back no data. The caller's buffer may really hold a partial copy.
- The 32-bit truncation in `unsigned int count = size`. The VFS caps a single read or write below 2^31 bytes before the driver sees it, so the model takes the size as an unbounded natural number.
- Overflow of the 64-bit `loff_t` sum `f_pos + offset` in a relative seek. Integers are unbounded in the model.
- The real byte layout of the pointer array at `globalmem.c:32` in the main model. It is modelled only in `GlobalMemFindings`, and the rest of the model uses the intended byte buffer of `SIZE` bytes.
- Concurrency: the driver has no locking, and the model assumes the callers are serialised.
- The `arg` of `ioctl`: the driver ignores it, and so does the model.

## Findings

| source | as written | input that shows it | evidently intended | confidence | as-written member | corrected member |
|---|---|---|---|---|---|---|
| globalmem.c:111 | the absolute-seek bound is tested on `(unsigned int)offset`, the low 32 bits of the 64-bit offset | `llseek(offset = 2^32, orig = 0)` from cursor 0 returns 0 and leaves the cursor at 2^32; the next read returns `-ENOMEM` | refuse every offset above `SIZE` with `-EINVAL`, so the cursor stays in `[0, SIZE]` | high; not executed | `GlobalMemFindings.SeekAsWrittenEscapesRange` | `GlobalMem.SeekSpec` |
| globalmem.c:32 | `mem` is declared as `GLOBALMEM_SIZE` pointers, so `dev->mem + p` steps 8 bytes per cursor position, and a transfer at one cursor overlaps the bytes of other cursors | write `[1,2,3,4]` at cursor 0, then read 2 bytes at cursor 2: it returns `[0,0]`, because cursor 2 starts 16 bytes in | a buffer of `SIZE` bytes where cursor `p` addresses byte `p` | high; not executed | `GlobalMemFindings.NeighbourReadMissesDataAsWritten` | `GlobalMem.ReadSpec` |
| globalmem.c:141 | with the same declaration, `memset(dev->mem, 0, GLOBALMEM_SIZE)` clears only the first eighth of the `8 * SIZE`-byte array | write the byte 1 at cursor 0x200, issue `GLOBALMEM_CLEAR`, and read one byte at cursor 0x200: it returns 1 | clearing zeroes every byte of the buffer | high; not executed | `GlobalMemFindings.ClearLeavesDataAsWritten` | `GlobalMemProperties.ClearThenReadIsZero` |
