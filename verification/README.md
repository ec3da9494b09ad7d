# Guest-side file-delegation handler, modelled in Dafny

A guest kernel lets user processes open, read, write and close files on the host.
Each request goes through one ioctl handler, `hvm_del_ioctl`, which does five things in order:

1. It copies the caller's four-word request into the kernel.
2. It allocates a zeroed four-slot wire block.
3. It fills the block according to the request code. For OPEN it first measures and bounds the path. OPEN and WRITE stage caller data in a kernel buffer.
4. It traps once into the host with an `out` to port 0x7C4. The request code goes in `eax` and the block's physical address in `r8`.
5. It copies READ data back to the caller, then releases everything.

The model is functional. `Driver.Ioctl` is a pure function of:

- the request code,
- the caller's argument pointer,
- a `Kernel.Services` record of oracles for every kernel service the handler calls: `copy_from_user`, `copy_to_user`, `strnlen_user`, `kzalloc`, `virt_to_phys` and the host trap.

It returns an `Outcome`. This holds the caller-visible result, every trap made (port, code, block physical address, block contents), the final wire block, and an allocation ledger of `kzalloc`/`kfree` events per allocation role (request copy, wire block, data buffer). It also holds every user/kernel copy, with its arguments in the order the code passes them.

`Ledger.Run` replays a ledger against the set of live allocations. It classifies each ledger as one of three cases:

- clean: everything is released exactly once;
- leaky: something is still live at the end;
- misused: something that is not live is released, as in a double free.

`Ledger.Allocs`/`Ledger.Frees` count events per role. `Ledger.RunCounts` ties the counts to the replay.

The `Driver` module models the code as written, defects included. The `Corrected` module is the same handler with the defects under "## Findings" removed. Its lemmas prove the properties the handler evidently should have but, as written, does not: leak-freedom on every path, physical buffer addresses, checked allocations.

Modules:

- `Api` (`api.dfy`): constants and wire layout of `driver-api.h`.
- `Ledger` (`ledger.dfy`): the allocation ledger, its replay and its counting partner.
- `Kernel` (`kernel.dfy`): oracles, error numbers, trap record, outcome record.
- `Driver` (`driver.dfy`): `hvm_del_ioctl` as written, with path lemmas and defect lemmas.
- `Corrected` (`corrected.dfy`): the evidently intended handler, with its properties proved.
- `Wrappers` (`wrappers.dfy`): `Option`.

Intended behaviour that the code as written does not deliver. The `Driver` model follows the code in each case:

- A bad OPEN path could be rejected before anything is allocated. The code allocates the request copy and the block first and releases them on rejection (hvm-driver.c:103-128).
- A host error code should reach the caller unchanged. On READ the code replaces any result with -EFAULT when the copy-back faults, including a host error (hvm-driver.c:191-194).
- The host needs physical addresses for every buffer. The code stores kernel virtual addresses in the buffer slots (hvm-driver.c:139, 148, 162).
- READ should copy back the bytes the host reports. The code copies the requested length (hvm-driver.c:191).
- An allocation failure should be reported. The code never checks `kzalloc` (hvm-driver.c:103, 110, 130, 145, 153).

## Model

| member | source | states |
|---|---|---|
| `Api.CodesDistinct` | driver-api.h:8-11 | OPEN=1, READ=2, WRITE=3, CLOSE=4 are pairwise distinct and none is zero. The known codes are exactly 1..4. |
| `Api.PathBoundRange` | driver-api.h:4 | With HOST_MAX_PATH = 512, the accepted OPEN lengths are exactly 1..512. The range is non-empty and excludes 0 and 513. |
| `Api.ZeroBlockSlots` | driver-api.h:13-18 | The wire block has exactly four slots, and a freshly zeroed block has all four at 0. |
| `Driver.Marshal` | hvm-driver.c:115-172 | The first switch reports "unsupported" exactly for codes outside OPEN/READ/WRITE/CLOSE. Only OPEN rejects early, always with a negative result. A block it hands on never has slot 4 written. |
| `Driver.Ioctl` | hvm-driver.c:85-214 | Exactly one trap happens when the request passes validation (fetched, known code, for OPEN an accepted and staged path), and none otherwise. Every trap uses port 0x7C4, the request code and the block's translated address. The block exists exactly when the request was fetched. Slot 4 is always 0. A call with no trap returns a guest-local error. |
| `Driver.RequestFault` | hvm-driver.c:103-108 | A fault copying the request returns -EFAULT with no trap. Only the request copy was allocated, and it is released once. |
| `Driver.OpenUnreadablePath` | hvm-driver.c:117-122 | OPEN with measured length 0 returns -EFAULT with no trap. The ledger is exactly: allocate request copy and block, release request copy and block. No buffer is allocated. |
| `Driver.OpenPathTooLong` | hvm-driver.c:123-128 | OPEN with measured length above 512 returns -ENAMETOOLONG with no trap. The ledger is exactly: allocate request copy and block, release request copy and block. No buffer is allocated. |
| `Driver.OpenPathAccepted` | hvm-driver.c:117-131 | Any OPEN length in 1..512 proceeds to allocate a buffer of that length and to stage the path. |
| `Driver.OpenStagingFault` | hvm-driver.c:130-137 | A fault staging the OPEN path returns -EFAULT with no trap. The ledger is exactly: allocate request copy, block and a path-length buffer, then release request copy, block and buffer. |
| `Driver.UnsupportedCodeLeaks` | hvm-driver.c:170-171 | An unrecognised code returns -EINVAL with no trap, but the request copy and block stay live (the ledger is leaky). |
| `Driver.Unmarshal` | hvm-driver.c:184-208 | The second switch returns the host's scalar unchanged except on READ. READ copies back the requested length to the caller's second word, and a fault turns the result into -EFAULT. It releases only the buffer: once for OPEN/READ/WRITE, never for CLOSE. |
| `Driver.WireLayout` | hvm-driver.c:139-167 | OPEN fills (buffer, arg2, arg3). READ and WRITE fill (handle, buffer, length). CLOSE fills (handle) and leaves slots 2-4 zero. Slot 4 is never written. |
| `Driver.SingleTrap` | hvm-driver.c:174-213 | A validated request makes exactly one trap carrying the port, the code, the block's physical address and the block. OPEN, WRITE and CLOSE return the host's scalar unchanged. |
| `Driver.ReadResult` | hvm-driver.c:190-196 | READ returns -EFAULT if copying back faults, otherwise the host's scalar. Either way the ledger is exactly: allocate request copy, block and a buffer of the requested length, then release buffer, request copy and block. |
| `Driver.CompletedRequestsClean` | hvm-driver.c:184-211 | For every validated request except a WRITE whose staging faulted, the exact ledger is given. The trap comes while the request copy, the block and (except for CLOSE) the buffer are live. Afterwards each is released exactly once. |
| `Driver.CleanExactlyWhen` | hvm-driver.c:103-211 | In both directions: the ledger is clean exactly when the request was not (fetched and (an unknown code or a WRITE staging fault)). |
| `Driver.WriteStagingFaultDoubleFrees` | hvm-driver.c:152-211 | A WRITE staging fault releases all three allocations, then still traps: the trap comes after six ledger events, when nothing is live. Afterwards it releases buffer, request copy and block a second time. The ledger is misused. |
| `Driver.BufferSlotsCarryVirtualAddresses` | hvm-driver.c:111-162 | The buffer slot holds the buffer's kernel virtual address, while the trap carries the block's physical address. Whenever translation is not the identity, the host does not get the buffer's physical address. |
| `Driver.ReadCopiesRequestedLength` | hvm-driver.c:190-196 | READ copies back the requested length whatever the host returned. A short read still copies more than the host reported, and a copy fault replaces a host error code. |
| `Driver.AllocationUnchecked` | hvm-driver.c:103-108 | The handler never reports -ENOMEM on its own: only the host can return it. When `kzalloc` returns NULL for the request copy, the request words are still copied to address 0. |
| `Driver.StagingCopiesAreReversed` | hvm-driver.c:130-154 | The OPEN and WRITE staging copies pass the caller's pointer as destination and the kernel buffer as source. |
| `Corrected.Ioctl` | hvm-driver.c:85-214 | The corrected handler traps exactly once for an admitted request (allocations non-NULL, fetched, known code, valid and staged data) and never otherwise. It always traps on port 0x7C4, and an unknown code never traps. |
| `Corrected.Marshal` | hvm-driver.c:115-172 | The corrected first switch is "unsupported" exactly for unknown codes, and slot 4 stays zero. |
| `Corrected.Unmarshal` | hvm-driver.c:184-208 | The corrected second switch never reinterprets a negative host result and copies nothing after one. After READ success it copies at most the host's count and at most the requested length. It releases only the buffer, exactly once for OPEN/READ/WRITE. |
| `Corrected.TrapSeesLiveAllocations` | hvm-driver.c:154-182 | Whenever the corrected handler traps, the request copy, the block and (except for CLOSE) the buffer are live at that point of the ledger. |
| `Corrected.AlwaysClean` | hvm-driver.c:103-211 | On every path, for every oracle behaviour, the corrected handler releases each allocation exactly once. |
| `Corrected.AcquisitionsEqualReleases` | hvm-driver.c:103-211 | On every path, each role is allocated as often as it is released: leak-freedom as a count. |
| `Corrected.UnsupportedCodeReleases` | hvm-driver.c:170-171 | An unknown code makes no trap, returns -EINVAL once the request is fetched, and leaves a clean ledger. |
| `Corrected.WriteStagingFaultStops` | hvm-driver.c:154-159 | A WRITE staging fault returns -EFAULT at once, with no trap and a clean, non-misused ledger. |
| `Corrected.BufferSlotsCarryPhysicalAddresses` | hvm-driver.c:139-162 | The buffer slot holds the buffer's physical address. |
| `Corrected.ReadCopiesReturnedCount` | hvm-driver.c:190-196 | After a host error READ copies nothing and returns the host's code. After success it copies at most the host's count and at most the requested length, and exactly the host's count when that fits. |
| `Corrected.AllocationChecked` | hvm-driver.c:103-153 | A NULL request copy, or a NULL block once the request is fetched, yields -ENOMEM for any code, with no trap and a clean ledger. So does a NULL buffer for any request that gets as far as allocating one (fetched OPEN with an accepted path, READ, WRITE). |
| `Corrected.StagingCopiesIntoKernel` | hvm-driver.c:130-154 | The staging copies take the kernel buffer as destination and the caller's pointer as source. |
| `Ledger.CleanBalanced` | hvm-driver.c:184-211 | A clean ledger acquires and releases every role equally often. This is the counting form of leak-freedom. |
| `Ledger.OverReleaseIsMisuse` | hvm-driver.c:199-211 | Releasing a role more often than it was allocated is always a misuse of the allocator. |

## Left out

- The inline-asm `out` trap and the host dispatcher behind it (hvm-driver.c:174-182) are the oracle `Services.host`. The host side is not part of this model. The host is assumed not to rewrite the wire block, so READ's copy-back length is the `arg3` the guest wrote. The asm statement declares no memory clobber.
- `copy_from_user`, `copy_to_user`, `strnlen_user`, `kzalloc`/`kfree` and `virt_to_phys` are oracles and ledger events. Memory contents, other than the four request words, are not modelled: no byte data flows through the model.
- The as-written model records every `kzalloc` as an allocation, even one that returns NULL, because the code never tells the two apart.
- Driver.AllocationUnchecked: loads and stores through a NULL request copy or block (hvm-driver.c:117, 139-167, 191) are modelled as if they succeeded. A real kernel oopses there, so the model makes no claim about what happens after such an access.
- After a WRITE staging fault has freed the request copy and the block (hvm-driver.c:156-158), the model reads the request words and writes the block (hvm-driver.c:161-163) as if the freed memory were intact. Only the ledger records the use after free; memory reuse is not modelled.
- Module lifecycle, character-device registration and `fops` (hvm-driver.c:217-259) are kernel glue.
- The reference count in `hvm_del_open`/`hvm_del_release` and the never-taken mutex (hvm-driver.c:35-41, 65-82) are bookkeeping and concurrency only.
- `hvm_del_read`/`hvm_del_write` (hvm-driver.c:43-62) are left out: they unconditionally return -EINVAL.
- Logging macros (hvm-driver.c:26-33) are left out.
- hvm-user.c is left out: it is an example client, and it uses a request struct and code that driver-api.h does not define.
- Host filesystem semantics, such as a write followed by a read returning the same bytes, lie outside the guest handler and are not modelled.
- Concurrency between callers is left out: the handler takes no lock, and the model is one call.

## Findings

| source | as written | input that shows it | evidently intended | confidence | as-written member | corrected member |
|---|---|---|---|---|---|---|
| hvm-driver.c:170-171 | `default:` returns -EINVAL without freeing `user_args` and `args` | any fetched request with code 5 | release both, then return -EINVAL | high (not executed) | `Driver.UnsupportedCodeLeaks` | `Corrected.UnsupportedCodeReleases` |
| hvm-driver.c:154-159 | WRITE staging fault frees all three but does not return; it traps with a freed block and frees all three again | WRITE whose `copy_from_user` reports uncopied bytes | return -EFAULT after the releases | high (not executed) | `Driver.WriteStagingFaultDoubleFrees` | `Corrected.WriteStagingFaultStops` |
| hvm-driver.c:139-162 | buffer slots hold `(size_t) buf`, a kernel virtual address | any OPEN/READ/WRITE where `virt_to_phys(buf) != buf` | `virt_to_phys(buf)`, as done for the block | high (not executed) | `Driver.BufferSlotsCarryVirtualAddresses` | `Corrected.BufferSlotsCarryPhysicalAddresses` |
| hvm-driver.c:190-196 | READ copies back `args->arg3` bytes (the request), even after a host error | READ of 10 bytes where the host returns 3, or returns a negative code | copy back only the host's non-negative count | medium (not executed) | `Driver.ReadCopiesRequestedLength` | `Corrected.ReadCopiesReturnedCount` |
| hvm-driver.c:103-153 | no `kzalloc` result is checked | any request where `kzalloc` returns NULL | return -ENOMEM after releasing what is held | high (not executed) | `Driver.AllocationUnchecked` | `Corrected.AllocationChecked` |
| hvm-driver.c:130-154 | `copy_from_user(user_ptr, buf, n)`: destination and source swapped. On a stock kernel the user-pointer check then fails on the kernel buffer for n > 0: OPEN would never trap and every non-empty WRITE would take the double-free path. The fault oracle allows this but does not force it | any accepted OPEN, any WRITE | `copy_from_user(buf, user_ptr, n)` | high (not executed) | `Driver.StagingCopiesAreReversed` | `Corrected.StagingCopiesIntoKernel` |
