/** driver/axvm.c: creating a guest VM through the ArceOS hypervisor
    (`arceos_cmd_axvm_create`), looking up its disk image path, booting it
    and (not) shutting it down.

    Every outside party is an input: `copy_from_user` of the argument
    structures is a flag, `cpu_down`/`cpu_up` are result functions, the
    create hypercall is a function from the transfer block the driver hands
    over to the hypervisor's reply, and the stager's kernel calls are
    `Staging` answers per image. */
module AxVm {
  import opened Kernel
  import opened Cpus
  import opened ImageStager
  import opened DiskRegistry

  /** The value the driver puts in the address fields the hypervisor is to
      fill in. */
  const SENTINEL: u64 := 0xdeadbeef

  /** `struct jailhouse_axvm_create` as copied from the caller (its
      declaration, in jailhouse.h, is not part of this model; every field is
      taken as 64 bits wide). */
  datatype AxVmCreateConfig = AxVmCreateConfig(
    id: u64,
    cpuSet: u64,
    rawCfgFilePtr: u64,
    rawCfgFileSize: u64,
    diskImagePathPtr: u64,
    diskImagePathLength: u64,
    biosImgPtr: u64,
    biosImgSize: u64,
    kernelImgPtr: u64,
    kernelImgSize: u64,
    ramdiskImgPtr: u64,
    ramdiskImgSize: u64)

  /** `cpu_mask = vm_cfg.cpu_set`. */
  function CpuMaskOf(cfg: AxVmCreateConfig): (m: u32)
    ensures cfg.cpuSet < U32_LIMIT ==> m == cfg.cpuSet
    ensures (cfg.cpuSet - m) % U32_LIMIT == 0
  {
    IntMask(cfg.cpuSet)
  }

  /** `struct arceos_axvm_create_arg`, the transfer block. */
  datatype CreateArg = CreateArg(
    vmId: u64,
    rawCfgBase: u64,
    rawCfgSize: u64,
    biosLoadHpa: u64,
    kernelLoadHpa: u64,
    ramdiskLoadHpa: u64)

  /** What the create hypercall gives back: its result code and the
      transfer block as the hypervisor left it. */
  datatype HvcReply = HvcReply(code: int, block: CreateArg)

  /** The transfer block before the hypercall: the caller's id, the physical
      address and size of the kernel copy of the raw configuration, and the
      sentinel in the three load addresses. */
  function CreateRequest(cfg: AxVmCreateConfig, rawCfgPhys: u64): CreateArg {
    CreateArg(cfg.id, rawCfgPhys, cfg.rawCfgFileSize, SENTINEL, SENTINEL, SENTINEL)
  }

  /** The VM id the driver takes from a successful reply, `(int) vm_id`, is a
      valid index into the registry. The source never checks this. */
  predicate IdInRange(reply: HvcReply) {
    reply.code < 0 || 0 <= CInt(reply.block.vmId) < VM_NUM_MAX
  }

  datatype ImageKind = Bios | KernelImage | Ramdisk

  /** The preload image the driver builds for one kind: the caller's buffer
      and size, and the load address the hypervisor wrote. */
  function ImageFor(kind: ImageKind, cfg: AxVmCreateConfig, block: CreateArg): PreloadImage {
    match kind
    case Bios => PreloadImage(cfg.biosImgPtr, cfg.biosImgSize, block.biosLoadHpa)
    case KernelImage => PreloadImage(cfg.kernelImgPtr, cfg.kernelImgSize, block.kernelLoadHpa)
    case Ramdisk => PreloadImage(cfg.ramdiskImgPtr, cfg.ramdiskImgSize, block.ramdiskLoadHpa)
  }

  function Images(kinds: seq<ImageKind>, cfg: AxVmCreateConfig, block: CreateArg): (r: seq<PreloadImage>)
    ensures |r| == |kinds|
  {
    seq(|kinds|, i requires 0 <= i < |kinds| => ImageFor(kinds[i], cfg, block))
  }

  /** The images create loads, in order. */
  function LoadPlan(cfg: AxVmCreateConfig): seq<ImageKind> {
    [Bios, KernelImage] + (if cfg.ramdiskImgSize != 0 then [Ramdisk] else [])
  }

  lemma LoadPlanOrder(cfg: AxVmCreateConfig)
    ensures |LoadPlan(cfg)| >= 2 && LoadPlan(cfg)[0] == Bios && LoadPlan(cfg)[1] == KernelImage
    ensures Ramdisk in LoadPlan(cfg) <==> cfg.ramdiskImgSize != 0
    ensures Ramdisk in LoadPlan(cfg) ==> LoadPlan(cfg)[2] == Ramdisk
  {
  }

  /** The position of the first image in `plan` whose load fails, or `|plan|`
      when every load succeeds. */
  function FirstLoadFailure(plan: seq<ImageKind>, staging: ImageKind -> Staging): (k: nat)
    ensures k <= |plan|
    ensures k < |plan| ==> StageError(staging(plan[k])) < 0
    ensures forall j :: 0 <= j < k ==> StageError(staging(plan[j])) == 0
  {
    if plan == [] then 0
    else if StageError(staging(plan[0])) < 0 then 0
    else 1 + FirstLoadFailure(plan[1..], staging)
  }

  /** Rows of a disk-path table of the registry's shape. */
  predicate WellFormedRows(rows: seq<seq<byte>>) {
    |rows| == VM_NUM_MAX && forall i :: 0 <= i < |rows| ==> |rows[i]| == PATH_MAX
  }

  /** The path copy into the slot of the returned id, if it happens (a
      successful reply and a free slot), stays inside the 64-byte slot. The
      source never checks this. */
  predicate StoreFits(rows: seq<seq<byte>>, cfg: AxVmCreateConfig, reply: HvcReply)
    requires WellFormedRows(rows) && IdInRange(reply)
  {
    reply.code >= 0 && rows[CInt(reply.block.vmId)][0] == 0 ==> cfg.diskImagePathLength <= PATH_MAX
  }

  /** What create needs of the environment to stay inside the registry: once
      the hypercall is reached, the id it returns indexes the table and the
      path copy it leads to fits the slot. Runs that stop earlier need
      nothing. */
  predicate CreateDefined(
    s: CpuSets, rows: seq<seq<byte>>, argCopied: bool, cfg: AxVmCreateConfig,
    down: nat -> int, rawCfgCopied: bool, reply: HvcReply)
  {
    && WellFormedRows(rows)
    && (argCopied && ReserveError(s, CpuMaskOf(cfg), down) == 0 && rawCfgCopied ==>
          IdInRange(reply) && StoreFits(rows, cfg, reply))
  }

  /** Everything `arceos_cmd_axvm_create` leaves behind: the CPU sets, the
      disk-path table, the returned code and the images it handed to the
      stager, in order. */
  datatype CreateResult = CreateResult(
    cpus: CpuSets,
    registry: seq<seq<byte>>,
    err: int,
    staged: seq<PreloadImage>)

  /** `arceos_cmd_axvm_create` as a function of its inputs, step by step:
      copy the configuration, reserve the CPUs, copy the raw configuration,
      issue the create hypercall, check the slot of the returned id, store
      the disk path, load BIOS, kernel and (when sized) ramdisk. */
  function CreateSpec(
    s: CpuSets, rows: seq<seq<byte>>, argCopied: bool, cfg: AxVmCreateConfig,
    down: nat -> int, up: nat -> int, rawCfgCopied: bool, reply: HvcReply,
    pathUser: seq<byte>, staging: ImageKind -> Staging): (r: CreateResult)
    requires CreateDefined(s, rows, argCopied, cfg, down, rawCfgCopied, reply)
    ensures WellFormedRows(r.registry)
    ensures forall i :: 0 <= i < VM_NUM_MAX && i != CInt(reply.block.vmId) ==> r.registry[i] == rows[i]
    ensures !argCopied ==> r == CreateResult(s, rows, -EFAULT, [])
    ensures r.registry != rows || r.staged != [] ==>
      && argCopied && ReserveError(s, CpuMaskOf(cfg), down) == 0 && rawCfgCopied
      && reply.code >= 0 && rows[CInt(reply.block.vmId)][0] == 0
  {
    if !argCopied then CreateResult(s, rows, -EFAULT, [])
    else
      var mask := CpuMaskOf(cfg);
      var reserved := Reserved(s, mask, down);
      var rolledBack := RolledBack(reserved, mask, up);
      var reserveErr := ReserveError(s, mask, down);
      if reserveErr != 0 then CreateResult(rolledBack, rows, reserveErr, [])
      else if !rawCfgCopied then CreateResult(reserved, rows, -EFAULT, [])
      else if reply.code < 0 then CreateResult(rolledBack, rows, reply.code, [])
      else RegisterSpec(reserved, rows, cfg, up, reply, pathUser, staging)
  }

  /** The part of `arceos_cmd_axvm_create` after a successful hypercall,
      starting from the reserved CPU sets `s`: check the slot of the returned
      id, store the disk path, load the images, and roll back on a conflict
      or a failed load. */
  function RegisterSpec(
    s: CpuSets, rows: seq<seq<byte>>, cfg: AxVmCreateConfig, up: nat -> int,
    reply: HvcReply, pathUser: seq<byte>, staging: ImageKind -> Staging): (r: CreateResult)
    requires WellFormedRows(rows) && IdInRange(reply) && reply.code >= 0
    requires StoreFits(rows, cfg, reply)
    ensures WellFormedRows(r.registry)
    ensures forall i :: 0 <= i < VM_NUM_MAX && i != CInt(reply.block.vmId) ==> r.registry[i] == rows[i]
    ensures rows[CInt(reply.block.vmId)][0] != 0 ==> r.registry == rows && r.staged == []
    ensures r.err < 0 ==> r.cpus == RolledBack(s, CpuMaskOf(cfg), up)
    ensures r.err >= 0 && rows[CInt(reply.block.vmId)][0] == 0 ==> r.cpus == s && r.err == 0
  {
    var rolledBack := RolledBack(s, CpuMaskOf(cfg), up);
    var id := CInt(reply.block.vmId);
    if rows[id][0] != 0 then CreateResult(rolledBack, rows, reply.code, [])
    else
      var stored := rows[id := CopiedInto(rows[id], pathUser, cfg.diskImagePathLength)];
      var plan := LoadPlan(cfg);
      var k := FirstLoadFailure(plan, staging);
      if k < |plan| then
        CreateResult(rolledBack, stored, StageError(staging(plan[k])), Images(plan[..k + 1], cfg, reply.block))
      else
        CreateResult(s, stored, 0, Images(plan, cfg, reply.block))
  }

  /** A fault copying the raw configuration returns -EFAULT without the
      rollback: the masked CPUs stay offline and outside the root cell. */
  lemma CreateRawConfigFaultSkipsRollback(
    s: CpuSets, rows: seq<seq<byte>>, cfg: AxVmCreateConfig, down: nat -> int, up: nat -> int,
    reply: HvcReply, pathUser: seq<byte>, staging: ImageKind -> Staging)
    requires CreateDefined(s, rows, true, cfg, down, false, reply)
    requires ReserveError(s, CpuMaskOf(cfg), down) == 0
    ensures var r := CreateSpec(s, rows, true, cfg, down, up, false, reply, pathUser, staging);
      && r.err == -EFAULT
      && r.cpus.cpusAssigned == s.cpusAssigned - MaskCpus(CpuMaskOf(cfg))
      && r.cpus.online == s.online - MaskCpus(CpuMaskOf(cfg))
      && r.registry == rows && r.staged == []
  {
    ReserveCompleteWithdrawsMask(s, CpuMaskOf(cfg), down);
  }

  /** Every non-zero result, once the raw configuration has been copied (or
      the reservation itself failed), comes out of the rollback: every masked
      CPU is back in the root cell. */
  lemma CreateErrorRollsBack(
    s: CpuSets, rows: seq<seq<byte>>, cfg: AxVmCreateConfig, down: nat -> int, up: nat -> int,
    rawCfgCopied: bool, reply: HvcReply, pathUser: seq<byte>, staging: ImageKind -> Staging)
    requires CreateDefined(s, rows, true, cfg, down, rawCfgCopied, reply)
    requires rawCfgCopied || ReserveError(s, CpuMaskOf(cfg), down) != 0
    ensures var r := CreateSpec(s, rows, true, cfg, down, up, rawCfgCopied, reply, pathUser, staging);
      && (r.err != 0 ==>
            && r.cpus == RolledBack(Reserved(s, CpuMaskOf(cfg), down), CpuMaskOf(cfg), up)
            && MaskCpus(CpuMaskOf(cfg)) <= r.cpus.cpusAssigned)
      && (ReserveError(s, CpuMaskOf(cfg), down) != 0 ==> r.err == ReserveError(s, CpuMaskOf(cfg), down))
  {
    RollbackRestoresAssigned(Reserved(s, CpuMaskOf(cfg), down), CpuMaskOf(cfg), up);
  }

  /** A negative hypercall result is returned unchanged after the rollback,
      and nothing is stored or loaded. */
  lemma CreateHypercallFailure(
    s: CpuSets, rows: seq<seq<byte>>, cfg: AxVmCreateConfig, down: nat -> int, up: nat -> int,
    reply: HvcReply, pathUser: seq<byte>, staging: ImageKind -> Staging)
    requires CreateDefined(s, rows, true, cfg, down, true, reply)
    requires ReserveError(s, CpuMaskOf(cfg), down) == 0 && reply.code < 0
    ensures var r := CreateSpec(s, rows, true, cfg, down, up, true, reply, pathUser, staging);
      && r.err == reply.code
      && r.cpus == RolledBack(Reserved(s, CpuMaskOf(cfg), down), CpuMaskOf(cfg), up)
      && r.registry == rows && r.staged == []
  {
  }

  /** A hypervisor-assigned id whose slot already holds a path aborts into the
      rollback and leaves that path as it was; the code returned is the
      hypercall's own non-negative result, so the caller cannot tell this
      failure from a success. */
  lemma CreateIdConflictKeepsPath(
    s: CpuSets, rows: seq<seq<byte>>, cfg: AxVmCreateConfig, down: nat -> int, up: nat -> int,
    reply: HvcReply, pathUser: seq<byte>, staging: ImageKind -> Staging)
    requires CreateDefined(s, rows, true, cfg, down, true, reply)
    requires ReserveError(s, CpuMaskOf(cfg), down) == 0 && reply.code >= 0
    requires rows[CInt(reply.block.vmId)][0] != 0
    ensures var r := CreateSpec(s, rows, true, cfg, down, up, true, reply, pathUser, staging);
      && r.registry == rows
      && r.err == reply.code && r.err >= 0
      && r.cpus == RolledBack(Reserved(s, CpuMaskOf(cfg), down), CpuMaskOf(cfg), up)
      && r.staged == []
  {
  }

  /** Images are handed to the stager in plan order (BIOS, kernel, then the
      ramdisk only when its size is non-zero); every one but the last staged
      loaded cleanly. A run that reaches the loads stops at the first failing
      one, whichever it is, and returns its code after the rollback, or
      stages the whole plan and returns 0. */
  lemma CreateLoadOrder(
    s: CpuSets, rows: seq<seq<byte>>, cfg: AxVmCreateConfig, down: nat -> int, up: nat -> int,
    reply: HvcReply, pathUser: seq<byte>, staging: ImageKind -> Staging)
    requires CreateDefined(s, rows, true, cfg, down, true, reply)
    ensures var r := CreateSpec(s, rows, true, cfg, down, up, true, reply, pathUser, staging);
      var plan := LoadPlan(cfg);
      && |r.staged| <= |plan|
      && r.staged == Images(plan[..|r.staged|], cfg, reply.block)
      && (forall j :: 0 <= j < |r.staged| - 1 ==> StageError(staging(plan[j])) == 0)
      && (0 < |r.staged| < |plan| ==>
            && r.err == StageError(staging(plan[|r.staged| - 1])) && r.err < 0
            && r.cpus == RolledBack(Reserved(s, CpuMaskOf(cfg), down), CpuMaskOf(cfg), up))
    ensures var r := CreateSpec(s, rows, true, cfg, down, up, true, reply, pathUser, staging);
      var plan := LoadPlan(cfg);
      var k := FirstLoadFailure(plan, staging);
      ReserveError(s, CpuMaskOf(cfg), down) == 0 && reply.code >= 0 && rows[CInt(reply.block.vmId)][0] == 0 ==>
        && (k < |plan| ==>
              && |r.staged| == k + 1
              && r.err == StageError(staging(plan[k])) && r.err < 0
              && r.cpus == RolledBack(Reserved(s, CpuMaskOf(cfg), down), CpuMaskOf(cfg), up))
        && (k == |plan| ==> |r.staged| == |plan| && r.err == 0)
  {
    var r := CreateSpec(s, rows, true, cfg, down, up, true, reply, pathUser, staging);
    var plan := LoadPlan(cfg);
    if r.staged != [] {
      var k := FirstLoadFailure(plan, staging);
      if k < |plan| {
        assert |r.staged| == k + 1;
        assert plan[..k + 1][..|r.staged|] == plan[..k + 1];
      } else {
        assert plan[..|plan|] == plan;
      }
    }
  }

  /** Once the path is stored it stays stored: when a later image load fails
      the rollback frees the CPUs but does not clear the registry slot. */
  lemma CreateLoadFailureKeepsPath(
    s: CpuSets, rows: seq<seq<byte>>, cfg: AxVmCreateConfig, down: nat -> int, up: nat -> int,
    reply: HvcReply, pathUser: seq<byte>, staging: ImageKind -> Staging)
    requires CreateDefined(s, rows, true, cfg, down, true, reply)
    requires ReserveError(s, CpuMaskOf(cfg), down) == 0 && reply.code >= 0
    requires rows[CInt(reply.block.vmId)][0] == 0
    requires FirstLoadFailure(LoadPlan(cfg), staging) < |LoadPlan(cfg)|
    ensures var r := CreateSpec(s, rows, true, cfg, down, up, true, reply, pathUser, staging);
      var id := CInt(reply.block.vmId);
      && r.err < 0
      && r.registry == rows[id := CopiedInto(rows[id], pathUser, cfg.diskImagePathLength)]
      && MaskCpus(CpuMaskOf(cfg)) <= r.cpus.cpusAssigned
  {
    RollbackRestoresAssigned(Reserved(s, CpuMaskOf(cfg), down), CpuMaskOf(cfg), up);
  }

  /** A create that reaches a free slot (first byte 0) and loads every
      planned image returns 0, keeps every masked CPU offline and out of the
      root cell, staged every planned image, and copied the caller's path
      into that slot, leaving the other slots alone. */
  lemma CreateSuccess(
    s: CpuSets, rows: seq<seq<byte>>, cfg: AxVmCreateConfig, down: nat -> int, up: nat -> int,
    reply: HvcReply, pathUser: seq<byte>, staging: ImageKind -> Staging)
    requires CreateDefined(s, rows, true, cfg, down, true, reply)
    requires ReserveError(s, CpuMaskOf(cfg), down) == 0 && reply.code >= 0
    requires rows[CInt(reply.block.vmId)][0] == 0
    requires FirstLoadFailure(LoadPlan(cfg), staging) == |LoadPlan(cfg)|
    ensures var r := CreateSpec(s, rows, true, cfg, down, up, true, reply, pathUser, staging);
      var id := CInt(reply.block.vmId);
      && r.err == 0
      && r.cpus.cpusAssigned == s.cpusAssigned - MaskCpus(CpuMaskOf(cfg))
      && r.cpus.online == s.online - MaskCpus(CpuMaskOf(cfg))
      && r.cpus.offlined == s.offlined + (MaskCpus(CpuMaskOf(cfg)) * s.online)
      && r.staged == Images(LoadPlan(cfg), cfg, reply.block)
      && r.registry == rows[id := CopiedInto(rows[id], pathUser, cfg.diskImagePathLength)]
  {
    ReserveCompleteWithdrawsMask(s, CpuMaskOf(cfg), down);
  }

  /** The path a create stores reads back as the caller's path when that
      path was fully readable, had no NUL byte, was shorter than a slot, and
      the slot already held a NUL where the path ends. */
  lemma CreateStoredPathReadsBack(
    s: CpuSets, rows: seq<seq<byte>>, cfg: AxVmCreateConfig, down: nat -> int, up: nat -> int,
    reply: HvcReply, pathUser: seq<byte>, staging: ImageKind -> Staging)
    requires CreateDefined(s, rows, true, cfg, down, true, reply)
    requires ReserveError(s, CpuMaskOf(cfg), down) == 0 && reply.code >= 0
    requires rows[CInt(reply.block.vmId)][0] == 0
    requires cfg.diskImagePathLength < PATH_MAX && cfg.diskImagePathLength <= |pathUser|
    requires forall j :: 0 <= j < cfg.diskImagePathLength ==> pathUser[j] != 0
    requires rows[CInt(reply.block.vmId)][cfg.diskImagePathLength] == 0
    ensures var r := CreateSpec(s, rows, true, cfg, down, up, true, reply, pathUser, staging);
      CPath(r.registry[CInt(reply.block.vmId)]) == pathUser[..cfg.diskImagePathLength]
  {
    var id := CInt(reply.block.vmId);
    StoredPathReadsBack(rows[id], pathUser, cfg.diskImagePathLength);
  }

  /** Identifier exclusivity: after a create has stored a non-empty path in
      the slot of id `id`, a second create whose hypercall hands back the same
      id finds the slot taken. It leaves the table as the first create left
      it, stages nothing, rolls its own reservation back, and returns the
      hypercall's non-negative code. */
  lemma CreateTwiceKeepsFirstPath(
    s: CpuSets, rows: seq<seq<byte>>, cfg: AxVmCreateConfig, down: nat -> int, up: nat -> int,
    reply: HvcReply, pathUser: seq<byte>, staging: ImageKind -> Staging,
    cfg2: AxVmCreateConfig, down2: nat -> int, up2: nat -> int,
    reply2: HvcReply, pathUser2: seq<byte>, staging2: ImageKind -> Staging)
    requires CreateDefined(s, rows, true, cfg, down, true, reply)
    requires ReserveError(s, CpuMaskOf(cfg), down) == 0 && reply.code >= 0
    requires rows[CInt(reply.block.vmId)][0] == 0
    requires cfg.diskImagePathLength > 0 && |pathUser| > 0 && pathUser[0] != 0
    requires var r1 := CreateSpec(s, rows, true, cfg, down, up, true, reply, pathUser, staging);
      CreateDefined(r1.cpus, r1.registry, true, cfg2, down2, true, reply2)
    requires var r1 := CreateSpec(s, rows, true, cfg, down, up, true, reply, pathUser, staging);
      ReserveError(r1.cpus, CpuMaskOf(cfg2), down2) == 0
    requires reply2.code >= 0 && CInt(reply2.block.vmId) == CInt(reply.block.vmId)
    ensures var r1 := CreateSpec(s, rows, true, cfg, down, up, true, reply, pathUser, staging);
      var r2 := CreateSpec(r1.cpus, r1.registry, true, cfg2, down2, up2, true, reply2, pathUser2, staging2);
      && r1.registry[CInt(reply.block.vmId)][0] == pathUser[0]
      && r2.registry == r1.registry
      && r2.staged == []
      && r2.err == reply2.code && r2.err >= 0
      && r2.cpus == RolledBack(Reserved(r1.cpus, CpuMaskOf(cfg2), down2), CpuMaskOf(cfg2), up2)
  {
    var r1 := CreateSpec(s, rows, true, cfg, down, up, true, reply, pathUser, staging);
    var id := CInt(reply.block.vmId);
    assert r1.registry == rows[id := CopiedInto(rows[id], pathUser, cfg.diskImagePathLength)];
    assert r1.registry[id][0] == pathUser[0];
    CreateIdConflictKeepsPath(r1.cpus, r1.registry, cfg2, down2, up2, reply2, pathUser2, staging2);
  }

  /** The three loads of `arceos_cmd_axvm_create` (axvm.c lines 172-214):
      BIOS, kernel, then the ramdisk when its size is non-zero, each stopping
      the sequence on a negative result. The ghost result lists the images
      handed to the stager, in order. */
  method LoadImages(cfg: AxVmCreateConfig, block: CreateArg, staging: ImageKind -> Staging)
    returns (err: int, ghost staged: seq<PreloadImage>)
    ensures var plan := LoadPlan(cfg); var k := FirstLoadFailure(plan, staging);
      && err == (if k < |plan| then StageError(staging(plan[k])) else 0)
      && staged == (if k < |plan| then Images(plan[..k + 1], cfg, block) else Images(plan, cfg, block))
  {
    ghost var plan := LoadPlan(cfg);
    ghost var k := FirstLoadFailure(plan, staging);
    LoadPlanOrder(cfg);
    var ops;
    var bios := ImageFor(Bios, cfg, block);
    staged := [bios];
    err, ops := LoadImage(bios, staging(Bios));
    if err < 0 {
      assert k == 0;
      return;
    }
    var kernel := ImageFor(KernelImage, cfg, block);
    staged := staged + [kernel];
    err, ops := LoadImage(kernel, staging(KernelImage));
    if err < 0 {
      assert k == 1;
      assert staged == Images(plan[..2], cfg, block);
      return;
    }
    if cfg.ramdiskImgSize != 0 {
      assert plan == [Bios, KernelImage, Ramdisk];
      var ramdisk := ImageFor(Ramdisk, cfg, block);
      staged := staged + [ramdisk];
      err, ops := LoadImage(ramdisk, staging(Ramdisk));
      if err < 0 {
        assert k == 2;
        assert staged == Images(plan[..3], cfg, block);
        return;
      }
      assert k == 3;
    } else {
      assert plan == [Bios, KernelImage];
      assert k == 2;
    }
    assert staged == Images(plan, cfg, block);
  }

  /** The driver's file-scope state: its `offlined_cpus` and `vm_disk_images`. */
  class AxVmDriver {
    const cpus: CpuReservation
    const registry: DiskImageRegistry

    constructor (host: HostCpus)
      ensures fresh(cpus) && fresh(registry) && fresh(registry.slots) && registry.Valid()
      ensures cpus.host == host && cpus.offlined == {}
      ensures forall id :: 0 <= id < VM_NUM_MAX ==> registry.Row(id) == seq(PATH_MAX, _ => 0)
    {
      cpus := new CpuReservation(host);
      registry := new DiskImageRegistry();
    }

    /** `arceos_cmd_axvm_create`. The ghost result lists the images handed to
        the stager, in order. */
    method Create(
      argCopied: bool, cfg: AxVmCreateConfig, down: nat -> int, up: nat -> int,
      rawCfgCopied: bool, rawCfgPhys: u64, hv: CreateArg -> HvcReply,
      pathUser: seq<byte>, staging: ImageKind -> Staging)
      returns (err: int, ghost staged: seq<PreloadImage>)
      requires registry.Valid()
      requires CreateDefined(cpus.State(), registry.Rows(), argCopied, cfg, down, rawCfgCopied, hv(CreateRequest(cfg, rawCfgPhys)))
      modifies cpus, cpus.host, registry.slots
      ensures registry.Valid()
      ensures var r := CreateSpec(old(cpus.State()), old(registry.Rows()), argCopied, cfg, down, up,
                                  rawCfgCopied, hv(CreateRequest(cfg, rawCfgPhys)), pathUser, staging);
        && cpus.State() == r.cpus
        && registry.Rows() == r.registry
        && err == r.err
        && staged == r.staged
    {
      staged := [];
      if !argCopied {
        return -EFAULT, staged;
      }
      var mask := CpuMaskOf(cfg);
      err := cpus.Reserve(mask, down);
      if err != 0 {
        cpus.Rollback(mask, up);
        return;
      }
      if !rawCfgCopied {
        return -EFAULT, staged;
      }
      var reply := hv(CreateRequest(cfg, rawCfgPhys));
      err := reply.code;
      if err < 0 {
        cpus.Rollback(mask, up);
        return;
      }
      err, staged := Register(cfg, up, reply, pathUser, staging);
    }

    /** Lines 153-237 of `arceos_cmd_axvm_create`, entered with the CPUs
        reserved and a non-negative hypercall `reply`. */
    method Register(
      cfg: AxVmCreateConfig, up: nat -> int, reply: HvcReply,
      pathUser: seq<byte>, staging: ImageKind -> Staging)
      returns (err: int, ghost staged: seq<PreloadImage>)
      requires registry.Valid()
      requires IdInRange(reply) && reply.code >= 0
      requires StoreFits(registry.Rows(), cfg, reply)
      modifies cpus, cpus.host, registry.slots
      ensures registry.Valid()
      ensures var r := RegisterSpec(old(cpus.State()), old(registry.Rows()), cfg, up, reply, pathUser, staging);
        && cpus.State() == r.cpus
        && registry.Rows() == r.registry
        && err == r.err
        && staged == r.staged
    {
      staged := [];
      err := reply.code;
      var vmId := CInt(reply.block.vmId);
      if registry.Occupied(vmId) {
        cpus.Rollback(CpuMaskOf(cfg), up);
        return;
      }
      // `copy_from_user` returns the number of bytes it could not copy. The
      // source stores that count in the `int` err and tests `err < 0`; with
      // at most PATH_MAX bytes requested the count is small and never
      // negative as an `int`, so the test cannot fire and is left out.
      err := registry.Store(vmId, pathUser, cfg.diskImagePathLength);
      err, staged := LoadImages(cfg, reply.block, staging);
      if err < 0 {
        cpus.Rollback(CpuMaskOf(cfg), up);
      }
    }

    /** `arceos_cmd_axvm_get_disk_image_path`: `out` is what the driver hands
        to `copy_to_user`. */
    method GetDiskImagePath(argCopied: bool, id: u64, copiedOut: bool) returns (err: int, out: seq<byte>)
      requires registry.Valid()
      requires argCopied ==> 0 <= CInt(id) < VM_NUM_MAX
      ensures !argCopied ==> err == -EFAULT && out == []
      ensures argCopied && !registry.Occupied(CInt(id)) ==> err == -ENOENT && out == []
      ensures argCopied && registry.Occupied(CInt(id)) ==>
        && out == CPath(registry.Row(CInt(id)))
        && |out| >= 1 && (forall j :: 0 <= j < |out| ==> out[j] != 0)
        && err == (if copiedOut then 0 else -EFAULT)
    {
      if !argCopied {
        return -EFAULT, [];
      }
      var vmId := CInt(id);
      if !registry.Occupied(vmId) {
        return -ENOENT, [];
      }
      var row := registry.Row(vmId);
      out := row[..CStrLen(row)];
      err := if copiedOut then 0 else -EFAULT;
    }
  }

  /** `arceos_cmd_axvm_boot`: forwards the id to the boot hypercall and
      returns its result unchanged. */
  method Boot(argCopied: bool, id: u64, bootHvc: u64 -> int) returns (err: int)
    ensures err == if argCopied then bootHvc(id) else -EFAULT
  {
    if !argCopied {
      return -EFAULT;
    }
    err := bootHvc(id);
  }

  /** `arceos_cmd_axvm_shutdown`: issues no hypercall; once its argument is
      copied it returns 0. */
  method Shutdown(argCopied: bool, id: u64) returns (err: int)
    ensures err == 0 <==> argCopied
    ensures !argCopied ==> err == -EFAULT
  {
    if !argCopied {
      return -EFAULT;
    }
    err := 0;
  }
}
