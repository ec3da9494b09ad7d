/**
 The kernel services the request handler calls, as oracle inputs, and the record of
 what one call of the handler did. Nothing here is interpreted: user memory, the
 allocator, address translation and the host dispatcher are all parameters.
 */
module Kernel {
  import opened Wrappers
  import opened Api
  import opened Ledger

  /** Linux error numbers the handler returns negated. */
  const EFAULT: int := 14
  const ENOMEM: int := 12
  const EINVAL: int := 22
  const ENAMETOOLONG: int := 36

  /** What the `out` instruction hands the host: the port, the request code and the
      physical address of the wire block, plus the block's contents at that moment. */
  datatype TrapCall = TrapCall(port: int, code: Code, blockPhys: Word, block: Args)

  /** One copy between caller memory and kernel memory, with its arguments in the order the call passes them. */
  datatype Copy =
    | FromUser(to: Word, from: Word, n: Word, faulted: bool)
    | ToUser(to: Word, from: Word, n: Word, faulted: bool)

  /** The oracles: everything outside the handler that its behaviour depends on. */
  datatype Services = Services(
    /** The four request words at a caller address, as a successful copy reads them. */
    userWords: Word -> Args,
    /** Whether `copy_from_user(to, from, n)` reports uncopied bytes. */
    copyFromUserFaults: (Word, Word, Word) -> bool,
    /** Whether `copy_to_user(to, from, n)` reports uncopied bytes. */
    copyToUserFaults: (Word, Word, Word) -> bool,
    /** `strnlen_user(str, n)`: 0 on a fault, otherwise the measured length (above `n` when too long). */
    strnlenUser: (Word, int) -> Word,
    /** The kernel virtual address `kzalloc` hands out for each allocation role. */
    kzalloc: Obj -> Word,
    /** `virt_to_phys`. */
    virtToPhys: Word -> Word,
    /** The host dispatcher: the signed scalar left in `r8` when the trap returns. */
    host: TrapCall -> SWord)

  /** What one call of the handler did, as seen from outside it. */
  datatype Outcome = Outcome(
    /** The value returned to the caller. */
    ret: SWord,
    /** Every trap into the host, in order. */
    traps: seq<TrapCall>,
    /** How many ledger events precede the trap, when there is one. */
    trapAt: Option<nat>,
    /** The wire block as the handler left it; `None` if it was never allocated. */
    block: Option<Args>,
    /** Every allocation and release, in order. */
    ledger: seq<Event>,
    /** Every copy between caller memory and kernel memory, in order. */
    copies: seq<Copy>)

  /** The physical address the trap passes: the translated address of the wire block. */
  function BlockPhys(k: Services): Word
  {
    k.virtToPhys(k.kzalloc(Block))
  }

  /** The errors the guest reports on its own, without asking the host. */
  predicate IsLocalError(ret: int)
  {
    ret == -EFAULT || ret == -ENOMEM || ret == -EINVAL || ret == -ENAMETOOLONG
  }
}
