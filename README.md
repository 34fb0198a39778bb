# jailhouse-arceos driver core in Dafny

This project models the ArceOS part of the jailhouse-arceos Linux driver:
`driver/axvm.c`, `driver/axtask.c` and `driver/axprocess.c`. These files
create guest VMs, tasks and processes on the ArceOS hypervisor.

Every one of them first **reserves CPUs**. It walks the 32 bits of an
`int` CPU mask. Each masked CPU that is online is taken down and recorded
in the file's static `offlined_cpus`. Every masked CPU is removed from the
root cell's `cpus_assigned`. When a later step fails, the code jumps to
`error_cpu_online` and **rolls the reservation back**: it walks the whole
mask again, brings offline CPUs up and hands every masked CPU back to the
root cell. `axvm.c` also **stages images** into hypervisor memory through a
page-aligned mapping window. It keeps a **registry of disk image paths**:
16 slots of 64 bytes each, where a first byte of 0 means the slot is free.

Files:

- `kernel.dfy` (`Kernel`): the fixed-width integers, the C casts the driver
  performs (`(int)` of a `__u64`, wrapping `__u64` addition) and the error
  codes.
- `cpus.dfy` (`Cpus`): the reservation and the rollback, shared by all
  three files.
  - `HostCpus` is a class holding the kernel's online set and
    `root_cell->cpus_assigned`.
  - `CpuReservation` is a class holding one file's `offlined_cpus`. Its
    methods `Reserve` and `Rollback` are the two loops.
  - Each loop is proved against a pure function (`Reserved`, `RolledBack`)
    over the value `CpuSets`. The lemmas are stated over those functions.
- `stager.dfy` (`ImageStager`): `arceos_axvm_load_image`.
  - The page arithmetic.
  - The error code.
  - The trace of kernel memory operations it issues: map, copy, flush,
    unmap.
- `registry.dfy` (`DiskRegistry`): `vm_disk_images`, as an `array2` of
  bytes, with the C-string reading of a slot.
- `axvm.dfy` (`AxVm`): VM create, disk path lookup, boot and shutdown.
  `CreateSpec` is the create command as a function of everything the
  environment answers. `AxVmDriver.Create` is proved to produce exactly its
  result.
- `axtask.dfy` (`AxTask`) and `axprocess.dfy` (`AxProcess`): the task and
  process up commands. Each is a driver class whose `Up` method is proved
  against an `UpSpec` function.

Outside parties are inputs of the model:

- Whether `copy_from_user` of an argument struct succeeds is a flag.
- `cpu_down` and `cpu_up` are result functions over CPU indices.
- The hypercalls are functions from their arguments to their result. For
  create, the hypercall also returns the transfer block as the hypervisor
  left it.
- `jailhouse_ioremap` and the image copy are per-image `Staging` answers.
- The path copy takes the bytes readable at the caller's pointer.

The code is modelled as written, including these behaviours:

- A fault copying the raw configuration in create returns `-EFAULT`
  without the rollback.
- A fault copying the payload in axtask also skips the rollback.
- A registry conflict rolls back but returns the hypercall's non-negative
  code.
- The test `err < 0` after the path copy can never fire. The uncopied byte
  count stored in the `int` err is at most 64 here.
- A `cpu_down` failure in create jumps to `error_cpu_online`, which ends
  with `kfree(arceos_hvc_axvm_create)`. On that path the pointer has not
  been assigned yet (declared at axvm.c line 95, first set at line 123), so
  the source frees an uninitialised pointer. The model gives the rollback's
  effect on the CPU sets and the `cpu_down` code as the result; that result
  is only reached if this `kfree` returns.
- A path stored before a failing image load stays stored.
- The rollback also brings up and reclaims masked CPUs that this call
  never took down (`Cpus.RollbackReclaimsForeignCpu`).

## Model

| member | source | states |
|---|---|---|
| Kernel.CInt | driver/axvm.c:154 | `(int)` of a `__u64` lies in the 32-bit signed range, is congruent to the input modulo 2^32, and is the input itself below 2^31 |
| Kernel.AddU64 | driver/axvm.c:41 | `__u64` addition is the exact sum when it fits and the sum minus 2^64 when it wraps |
| Cpus.InMask | driver/axvm.c:110-111 | defines the test `cpu_mask & (1 << cpu)` for the walked index: bit `cpu` of the 32-bit mask; it holds only for indices below 32 |
| Cpus.MaskBelow | driver/axvm.c:110-111 | the CPUs the walk has visited by index k are exactly the indices below k whose bit is set in the mask |
| Cpus.FirstDownFailure | driver/axvm.c:110-116 | the walk stops at the first masked online CPU whose `cpu_down` fails; every masked online CPU before it went down with result 0 |
| Cpus.IntMask | driver/axvm.c:105 | `cpu_mask = vm_cfg.cpu_set` keeps the field when it fits in 32 bits and is congruent to it modulo 2^32 otherwise |
| Cpus.Withdrawn | driver/axvm.c:112-119 | the effect of the reservation loop body on the CPUs it handled: they leave the online set and `cpus_assigned`, no other CPU does, and exactly the ones that were online join `offlined_cpus` |
| Cpus.Reserved | driver/axvm.c:110-121 | the reservation walk only shrinks the online set and `cpus_assigned` and only grows `offlined_cpus`; every CPU it removes from either is masked, every CPU it takes offline is recorded, and it records only masked CPUs that were online |
| Cpus.ReserveError | driver/axvm.c:113-116 | a non-zero error of the walk is the `cpu_down` result of some masked online CPU |
| Cpus.Restarted | driver/axvm.c:229-233 | the CPUs the rollback loop body brings up among the first k indices are exactly the masked ones that were offline and whose `cpu_up` returned 0 |
| Cpus.RolledBack | driver/axvm.c:227-235 | the rollback only grows the online set and `cpus_assigned` and only shrinks `offlined_cpus`; every masked CPU ends in `cpus_assigned`, and every CPU it brings online is masked with a successful `cpu_up` |
| Cpus.EmptyMaskChangesNothing | driver/axprocess.c:36-64 | an empty mask names no CPU: the reservation changes no set and reports 0, and the rollback changes no set |
| Cpus.EmptyMaskReservesNothing | driver/axprocess.c:36-47 | with an empty mask the reservation walk leaves all three sets as they were and reports 0 |
| Cpus.EmptyMaskRestoresNothing | driver/axprocess.c:55-64 | with an empty mask the rollback walk leaves all three sets as they were |
| Cpus.EmptyMaskBelow | driver/axprocess.c:37 | the empty mask selects no CPU below any bound |
| Cpus.OutsideMaskUntouched | driver/axprocess.c:36-64 | a CPU outside the mask keeps its membership in the online set, `cpus_assigned` and `offlined_cpus` through both walks |
| Cpus.ReserveCompleteWithdrawsMask | driver/axvm.c:110-121 | a walk with no failing `cpu_down` removes every masked CPU from `cpus_assigned` and the online set, and adds to `offlined_cpus` exactly the masked CPUs that were online |
| Cpus.ReserveErrorIffDownFails | driver/axvm.c:112-116 | the walk reports an error if and only if some masked online CPU's `cpu_down` fails, and the error is that CPU's result |
| Cpus.RollbackRestoresAssigned | driver/axvm.c:227-235 | the rollback puts every masked CPU in `cpus_assigned`, and removes a recorded masked CPU from `offlined_cpus` exactly when it was offline and its `cpu_up` succeeded; unmasked entries stay |
| Cpus.ReserveThenRollbackRestores | driver/axvm.c:227-235 | when every masked CPU starts online, assigned and unrecorded, and `cpu_up` succeeds on every CPU the walk took down, rollback after reservation restores all three sets, wherever the reservation stopped |
| Cpus.RollbackReclaimsForeignCpu | driver/axvm.c:229-234 | a masked CPU that was already offline and outside the root cell comes out of the rollback online and in `cpus_assigned` |
| Cpus.HostCpus.CpuDown | driver/axvm.c:113 | `cpu_down` returns the kernel's result and takes the CPU offline exactly when that result is 0 |
| Cpus.HostCpus.CpuUp | driver/axvm.c:231 | `cpu_up` returns the kernel's result and brings the CPU online exactly when that result is 0 |
| Cpus.CpuReservation.constructor | driver/axvm.c:20 | a file's `offlined_cpus` starts empty |
| Cpus.CpuReservation.Reserve | driver/axvm.c:110-121 | the loop leaves the sets equal to `Reserved` of the old sets, returns `ReserveError`, and returns 0 exactly when it walked all 32 bits |
| Cpus.CpuReservation.Rollback | driver/axvm.c:227-235 | the loop leaves the sets equal to `RolledBack` of the old sets |
| ImageStager.PageBase | driver/axvm.c:35 | `target & PAGE_MASK` is page-aligned, at most the address, and within one page below it |
| ImageStager.PageOffset | driver/axvm.c:36 | `offset_in_page` is below `PAGE_SIZE` and adds to the page base to give the address back |
| ImageStager.PageAlign | driver/axvm.c:41 | `PAGE_ALIGN(x)` is a multiple of `PAGE_SIZE`; when `x + PAGE_SIZE - 1` fits in 64 bits it is the smallest such multiple at or above `x` (`x <= r < x + PAGE_SIZE`), and when that sum wraps it is 0 |
| ImageStager.WindowLength | driver/axvm.c:41 | the mapped length `PAGE_ALIGN(image->size + page_offs)` is a whole number of pages, in `__u64` arithmetic |
| ImageStager.WindowCoversCopy | driver/axvm.c:40-56 | when no sum wraps, the mapped window is a whole number of pages, holds the copy range `[page_offs, page_offs + size)`, and is less than a page longer than that range's end |
| ImageStager.WindowWrapsForHugeSize | driver/axvm.c:40-41 | for a size of 2^64-1 the window length wraps to 0, shorter than the copy it is mapped for |
| ImageStager.StageError | driver/axvm.c:45-61 | load returns 0 if and only if mapping and copy both succeed, `-EBUSY` if and only if the mapping fails, and `-EFAULT` if and only if only the copy fails |
| ImageStager.LoadImage | driver/axvm.c:28-80 | the first operation maps the page-aligned window; a failed mapping issues nothing else; otherwise copy at `page_offs`, flush of the same range and unmap follow, the mapping is released last even after a copy fault, and every copy lies inside the window when no sum wraps |
| DiskRegistry.CStrLen | driver/axvm.c:260 | `strlen` of a slot is within the slot, no byte before it is NUL, and the byte at it is NUL when inside the slot |
| DiskRegistry.CPath | driver/axvm.c:255-260 | the bytes handed out for a slot are a prefix of it with no NUL byte, followed in the slot by a NUL unless they fill it |
| DiskRegistry.Uncopied | driver/axvm.c:162 | the value `copy_from_user` returns is at most the requested length, is 0 exactly when every requested byte was readable, and otherwise counts the unreadable ones |
| DiskRegistry.CopiedInto | driver/axvm.c:162-164 | the slot after the path copy keeps its length and its bytes from `len` on, and its first `len` bytes are the caller's when they were all readable |
| DiskRegistry.DiskImageRegistry.Occupied | driver/axvm.c:158 | defines a slot as taken when its first byte is non-zero, the test create and lookup both use |
| DiskRegistry.StoredPathReadsBack | driver/axvm.c:162-164 | a readable path of non-NUL bytes, shorter than the slot and stored over a NUL at its end, reads back as exactly that path |
| DiskRegistry.EmptyCopyLeavesSlotFree | driver/axvm.c:158-164 | a stored path whose first byte is NUL or unreadable leaves the slot looking free and reading as the empty path |
| DiskRegistry.DiskImageRegistry.constructor | driver/axvm.c:21 | the table has 16 slots of 64 bytes and starts all zero |
| DiskRegistry.DiskImageRegistry.Store | driver/axvm.c:162-164 | the path copy changes only slot `id`, writes the readable bytes and zero-fills the rest of `len`, keeps bytes from `len` on, and returns the uncopied count |
| AxVm.CpuMaskOf | driver/axvm.c:105 | `cpu_mask = vm_cfg.cpu_set` is the field itself when it fits in 32 bits and congruent to it modulo 2^32 otherwise |
| AxVm.CreateRequest | driver/axvm.c:130-139 | defines the transfer block: the caller's id, the raw configuration's physical address and size, and the sentinel `0xdeadbeef` in the three load addresses |
| AxVm.ImageFor | driver/axvm.c:173-204 | defines each preload image from the caller's pointer and size and the load address the hypervisor wrote into the transfer block |
| AxVm.LoadPlan | driver/axvm.c:172-214 | defines the order of the loads: BIOS, kernel, then ramdisk when its size is non-zero |
| AxVm.CreateSpec | driver/axvm.c:101-237 | create's full outcome; the table keeps its shape, at most the slot of the returned id changes, an uncopied argument changes nothing and returns `-EFAULT`, and the table changes or images load only after a full reservation, a copied raw configuration, a non-negative hypercall and a free slot |
| AxVm.RegisterSpec | driver/axvm.c:153-237 | create after a successful hypercall; only the slot of the returned id can change, an occupied slot is left as it was with nothing loaded, a negative result comes with the rollback, and any other result on a free slot is 0 with the CPUs still reserved |
| AxVm.LoadPlanOrder | driver/axvm.c:172-214 | images are planned BIOS first, kernel second, and the ramdisk third exactly when its size is non-zero |
| AxVm.FirstLoadFailure | driver/axvm.c:180-213 | the load sequence stops at the first image whose load returns a negative code; every image before it loaded with 0 |
| AxVm.CreateRawConfigFaultSkipsRollback | driver/axvm.c:123-128 | a raw-config copy fault after a full reservation returns `-EFAULT` with the masked CPUs still withdrawn and offline, nothing stored and nothing loaded |
| AxVm.CreateErrorRollsBack | driver/axvm.c:113-237 | once the raw configuration is copied (or when the reservation fails), every non-zero result comes from the rollback, which leaves every masked CPU in `cpus_assigned`; a failed reservation returns the failing `cpu_down` code |
| AxVm.CreateHypercallFailure | driver/axvm.c:144-148 | a negative create-hypercall result is returned unchanged after the rollback, with nothing stored or loaded |
| AxVm.CreateIdConflictKeepsPath | driver/axvm.c:158-161 | an occupied slot for the returned id leaves the registry unchanged, rolls the CPUs back, loads nothing, and returns the hypercall's non-negative code |
| AxVm.CreateTwiceKeepsFirstPath | driver/axvm.c:153-164 | after a create stored a path with a non-NUL first byte, a second create handed the same id finds the slot taken: the table stays as the first create left it, nothing is staged, its own reservation is rolled back, and the hypercall's non-negative code is returned |
| AxVm.CreateLoadOrder | driver/axvm.c:172-214 | the images handed to the stager are a prefix of the plan, in plan order; all but the last loaded cleanly; a run that reaches the loads stops at the first failing image, whichever one it is (the last planned image included), and returns that load's negative code after the rollback, or stages the whole plan and returns 0 |
| AxVm.CreateLoadFailureKeepsPath | driver/axvm.c:180-237 | when an image load fails after the path was stored, the result is negative, the stored path stays in the registry, and every masked CPU is back in `cpus_assigned` |
| AxVm.CreateSuccess | driver/axvm.c:101-222 | a create whose reservation, raw-config copy and hypercall succeed, whose returned id has a free slot (first byte 0, whatever the later bytes) and whose loads all succeed returns 0, leaves the masked CPUs withdrawn and offline with the online ones recorded, stages every planned image, and leaves the table with only that slot changed, by the path copy |
| AxVm.CreateStoredPathReadsBack | driver/axvm.c:158-164 | on a free slot, the stored path reads back as the caller's path when the path was readable, NUL-free, shorter than a slot and the slot held a NUL where it ends, whatever the loads do afterwards |
| AxVm.LoadImages | driver/axvm.c:172-214 | the loads return the first failing load's code, or 0, and hand the stager the plan's images up to and including that load |
| AxVm.AxVmDriver.constructor | driver/axvm.c:20-21 | the driver's statics start as an empty `offlined_cpus` and a fresh 16 x 64 registry whose every row is all zero, so a caller can go on to create VMs on it |
| AxVm.AxVmDriver.Create | driver/axvm.c:85-238 | the new CPU sets, registry, result code and staged images are exactly those of `CreateSpec` for the old state and the environment's answers |
| AxVm.AxVmDriver.Register | driver/axvm.c:153-237 | after a non-negative hypercall, the new CPU sets, registry, result code and staged images are exactly those of `RegisterSpec`: the slot check, the path store, the loads and the rollback on a conflict or a failed load |
| AxVm.AxVmDriver.GetDiskImagePath | driver/axvm.c:242-264 | an uncopied argument gives `-EFAULT`; a free slot gives `-ENOENT`; otherwise the bytes handed out are the slot's C string, non-empty and NUL-free, and the result is 0 or `-EFAULT` from the copy out |
| AxVm.Boot | driver/axvm.c:268-281 | boot returns `-EFAULT` for an uncopied argument, else the boot hypercall's result for the id, unchanged |
| AxVm.Shutdown | driver/axvm.c:285-298 | shutdown returns 0 exactly when its argument was copied, `-EFAULT` otherwise |
| AxTask.UpCpuDownFailure | driver/axtask.c:42-76 | a failing `cpu_down` returns its own code after the rollback, which leaves every masked CPU in `cpus_assigned` |
| AxTask.UpHypercallFailure | driver/axtask.c:61-76 | a negative hypercall result is returned unchanged after the same rollback |
| AxTask.UpSuccessWithdrawsMask | driver/axtask.c:39-65 | a non-negative hypercall result is returned with every masked CPU offline and out of `cpus_assigned`, and exactly the formerly online ones recorded |
| AxTask.UpPayloadFaultSkipsRollback | driver/axtask.c:53-56 | a payload copy fault returns `-EFAULT` and leaves the masked CPUs withdrawn and offline |
| AxTask.UpSpec | driver/axtask.c:34-76 | an uncopied argument changes nothing and returns `-EFAULT`; otherwise the result is a `cpu_down` code, `-EFAULT` or the hypercall's result; once the payload is copied a negative result comes with the rollback; a payload fault or a non-negative result after a full reservation keeps the CPUs reserved |
| AxTask.AxTaskDriver.constructor | driver/axtask.c:17 | the file's `offlined_cpus` starts empty |
| AxTask.AxTaskDriver.Up | driver/axtask.c:19-77 | the new CPU sets and the result are exactly those of `UpSpec`, with the hypercall given the low 32 bits of the mask, the `(int)` task type and the payload's physical address |
| AxProcess.UpSuccessWithdrawsMask | driver/axprocess.c:36-53 | a non-negative hypercall result after a full reservation is returned, with every masked CPU out of `cpus_assigned` and offline, and `offlined_cpus` gaining only the masked CPUs that were online |
| AxProcess.UpFailureRollsBack | driver/axprocess.c:39-64 | a `cpu_down` failure or a negative hypercall result is returned after the rollback, which puts every masked CPU back in `cpus_assigned` |
| AxProcess.UpEmptyMask | driver/axprocess.c:36-53 | with an empty mask no CPU set changes and the result is the hypercall's result |
| AxProcess.UpOutsideMaskUntouched | driver/axprocess.c:36-64 | CPUs outside the mask keep their membership in all three sets |
| AxProcess.UpSpec | driver/axprocess.c:31-64 | an uncopied argument changes nothing and returns `-EFAULT`; otherwise the result is a `cpu_down` code or the hypercall's result, every negative result comes with the rollback, and a non-negative result after a full reservation keeps the CPUs reserved |
| AxProcess.AxProcessDriver.constructor | driver/axprocess.c:18 | the file's `offlined_cpus` starts empty |
| AxProcess.AxProcessDriver.Up | driver/axprocess.c:20-65 | the new CPU sets and the result are exactly those of `UpSpec`, with the hypercall given the low 32 bits of the mask |

## Left out

- AxVm.AxVmDriver.Create: requires (`CreateDefined`) that, when the create gets as far as the hypercall, the id it returns casts to an index in 0..15. The source indexes `vm_disk_images[vm_id]` without checking it. Outside that range the C code reads and writes outside the table.
- AxVm.AxVmDriver.Create: also requires (`CreateDefined`, `StoreFits`) `disk_image_path_length <= 64` when the create reaches the path copy (successful hypercall, free slot). The source never checks this. A longer length would overflow into the next slots. Runs that stop earlier have no requirement on the length.
- AxVm.AxVmDriver.Register: requires `StoreFits`, the same conditional bound on the path length.
- AxVm.CreateSpec: requires `CreateDefined`, as `Create` does.
- AxVm.RegisterSpec: requires `StoreFits`, as `Register` does.
- DiskRegistry.DiskImageRegistry.Store: requires `len <= 64`; the C `copy_from_user` into a 64-byte slot has no such bound and would write into the following slots.
- AxVm.AxVmDriver.GetDiskImagePath: requires the `(int)` of the caller's id to be in 0..15. The source does not check it.
- DiskRegistry.CStrLen: stops at the end of the 64-byte slot. C's `strlen` on a slot with no NUL would read on into the next slot.
- AxVm.AxVmDriver.Create: the allocations are not modelled.
  - Both `kmalloc` calls are taken to succeed.
  - The transfer block and the raw configuration copy are represented only by the physical address handed to the hypervisor.
  - `kfree` and the leaked raw configuration buffer are not modelled.
  - On a `cpu_down` failure the source frees an uninitialised pointer (axvm.c lines 95, 116, 236). The model does not capture this undefined behaviour; it returns the `cpu_down` code as if that `kfree` returned.
- AxTask.AxTaskDriver.Up: the payload buffer is not modelled.
  - Its `kmalloc` is taken to succeed.
  - The copy is a flag and the buffer's physical address is an input.
  - The buffer is never freed in the source, and that leak is not modelled.
- ImageStager.LoadImage: `flush_icache_range` and, on 32-bit ARM, `__cpuc_flush_dcache_area` are one `FlushCaches` operation over the same range. Memory contents are not modelled.
- Pages are 4 KiB, and the target is a 64-bit kernel where `unsigned long` is 64 bits wide. On 32-bit ARM only the extra `__cpuc_flush_dcache_area` is covered (inside `FlushCaches`); the truncation there of `(unsigned long)image->source_address` and of `arg_phys_addr` is not modelled.
- The declarations of `struct jailhouse_axvm_create`, `jailhouse_axtask_up` and `jailhouse_axprocess_up` (in jailhouse.h) are not part of this model. Every field is taken as 64 bits wide.
- The CPU mask is the bit pattern of the C `int`, read as an unsigned 32-bit value. The sign extension the hypercalls apply when passing it as `unsigned long` is folded into the hypercall functions.
- Each hypercall result is an input of unbounded Dafny type `int`. The model does not narrow it to the 32-bit range of the `int` variable that stores it in the driver.
- `copy_from_user` of the disk path is modelled with the kernel's short-copy semantics: the readable prefix is copied and the rest of the requested length is zero-filled.
- `copy_to_user` of the path is a success flag. The user memory it writes is not modelled.
- `smp_processor_id`, `cpu_online` as a separate call, and all logging (`pr_info`, `pr_err`) are left out; they do not affect state or results.
- Concurrency is not modelled. The statics have no locking, and each command is modelled as running alone.
- The commented-out boot hypercall at the end of create, and the "delete VM config" step at `error_vm_create`, do not exist in the code and are not modelled.
- Cpus.RollbackReclaimsForeignCpu: the rollback walks the whole mask rather than only the CPUs the failed call took down. A CPU held by another guest can therefore be reclaimed by the root cell. The model follows the code here rather than the intent of a per-call rollback.
