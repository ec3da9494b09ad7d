/**
 The contract shared by the guest driver and the host dispatcher: the request codes,
 the path bound, the trap port and the four-word wire layout `hvm_del_args`.
 */
module Api {

  /** Longest host path, in bytes as measured by the guest, that OPEN accepts. */
  const HostMaxPath: int := 512

  /** The I/O port whose `out` instruction traps into the host dispatcher. */
  const MagicPort: int := 0x7C4

  /** Request codes: the `ioctl` number the caller passes and the trap forwards. */
  const ReqOpen: int := 1
  const ReqRead: int := 2
  const ReqWrite: int := 3
  const ReqClose: int := 4

  /** A `size_t`: an unsigned 64-bit machine word. */
  type Word = x: int | 0 <= x < 0x1_0000_0000_0000_0000

  /** An `ssize_t`/`long`: a signed 64-bit machine word. */
  type SWord = x: int | -0x8000_0000_0000_0000 <= x < 0x8000_0000_0000_0000

  /** The `unsigned int` request number of an ioctl. */
  type Code = x: int | 0 <= x < 0x1_0000_0000

  /** The wire block: four word-sized slots whose meaning depends on the request code. */
  datatype Args = Args(arg1: Word, arg2: Word, arg3: Word, arg4: Word)

  /** A freshly zero-filled wire block. */
  const ZeroArgs: Args := Args(0, 0, 0, 0)

  /** `sizeof(struct hvm_del_args)` on a 64-bit kernel: four eight-byte words. */
  const ArgsSize: Word := 32

  /** The request codes the driver knows. */
  predicate IsKnownCode(c: int)
  {
    c == ReqOpen || c == ReqRead || c == ReqWrite || c == ReqClose
  }

  /** Path lengths an OPEN request may carry. */
  predicate PathLenAccepted(n: int)
  {
    0 < n <= HostMaxPath
  }

  /** The `i`-th slot of a wire block, numbered from 1 as in the header. */
  function Slot(a: Args, i: int): Word
    requires 1 <= i <= 4
  {
    match i
    case 1 => a.arg1
    case 2 => a.arg2
    case 3 => a.arg3
    case _ => a.arg4
  }

  /** The request codes are pairwise distinct and none of them is zero. */
  lemma CodesDistinct()
    ensures ReqOpen != ReqRead && ReqOpen != ReqWrite && ReqOpen != ReqClose
    ensures ReqRead != ReqWrite && ReqRead != ReqClose && ReqWrite != ReqClose
    ensures !IsKnownCode(0)
    ensures forall c :: IsKnownCode(c) <==> 1 <= c <= 4
  {
  }

  /** The accepted path lengths are exactly 1..512: non-empty, excluding 0 and 513. */
  lemma PathBoundRange()
    ensures PathLenAccepted(1) && PathLenAccepted(HostMaxPath)
    ensures !PathLenAccepted(0) && !PathLenAccepted(HostMaxPath + 1)
    ensures forall n :: PathLenAccepted(n) <==> 1 <= n <= 512
  {
  }

  /** A zero-filled block has all four slots zero, and there are exactly four slots. */
  lemma ZeroBlockSlots()
    ensures forall i :: 1 <= i <= 4 ==> Slot(ZeroArgs, i) == 0
  {
  }
}
