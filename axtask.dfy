/** driver/axtask.c (`jailhouse_cmd_axtask_up`): reserve the masked CPUs,
    copy the task payload from the caller into a kernel buffer, hand mask,
    type and the buffer's physical address to the hypervisor, and roll the
    reservation back when a `cpu_down` or the hypercall fails. */
module AxTask {
  import opened Kernel
  import opened Cpus

  /** `struct jailhouse_axtask_up` as copied from the caller (its declaration
      is not part of this model; every field is taken as 64 bits wide). */
  datatype AxTaskUpConfig = AxTaskUpConfig(cpuMask: u64, taskType: u64, addr: u64, size: u64)

  /** The arguments of the `JAILHOUSE_HC_AXTASK_UP` hypercall. */
  datatype AxTaskCall = AxTaskCall(mask: u32, taskType: int, payloadPhys: u64)

  /** `jailhouse_cmd_axtask_up` as a function of its inputs: whether the
      argument and the payload were copied, the mask, the `cpu_down`/`cpu_up`
      results and the hypercall's result. */
  function UpSpec(
    s: CpuSets, argCopied: bool, mask: u32, down: nat -> int, up: nat -> int,
    payloadCopied: bool, hvcResult: int): (o: Outcome)
    ensures !argCopied ==> o == Outcome(s, -EFAULT)
    ensures argCopied ==> o.err == ReserveError(s, mask, down) || o.err == -EFAULT || o.err == hvcResult
    ensures argCopied && payloadCopied && o.err < 0 ==> o.cpus == RolledBack(Reserved(s, mask, down), mask, up)
    ensures argCopied && ReserveError(s, mask, down) == 0 && (!payloadCopied || o.err >= 0) ==>
      o.cpus == Reserved(s, mask, down)
  {
    if !argCopied then Outcome(s, -EFAULT)
    else
      var reserved := Reserved(s, mask, down);
      var reserveErr := ReserveError(s, mask, down);
      if reserveErr != 0 then Outcome(RolledBack(reserved, mask, up), reserveErr)
      else if !payloadCopied then Outcome(reserved, -EFAULT)
      else if hvcResult < 0 then Outcome(RolledBack(reserved, mask, up), hvcResult)
      else Outcome(reserved, hvcResult)
  }

  /** A failing `cpu_down` jumps to the rollback, which returns every masked
      CPU to the root cell, and its code is returned. */
  lemma UpCpuDownFailure(s: CpuSets, mask: u32, down: nat -> int, up: nat -> int, payloadCopied: bool, hvcResult: int)
    requires ReserveError(s, mask, down) != 0
    ensures var o := UpSpec(s, true, mask, down, up, payloadCopied, hvcResult);
      && o.err == ReserveError(s, mask, down)
      && (exists c :: InMask(mask, c) && c in s.online && o.err == down(c))
      && o.cpus == RolledBack(Reserved(s, mask, down), mask, up)
      && MaskCpus(mask) <= o.cpus.cpusAssigned
  {
    ReserveErrorIffDownFails(s, mask, down);
    RollbackRestoresAssigned(Reserved(s, mask, down), mask, up);
  }

  /** A negative hypercall result triggers the same rollback and is returned
      unchanged. */
  lemma UpHypercallFailure(s: CpuSets, mask: u32, down: nat -> int, up: nat -> int, hvcResult: int)
    requires ReserveError(s, mask, down) == 0 && hvcResult < 0
    ensures var o := UpSpec(s, true, mask, down, up, true, hvcResult);
      && o.err == hvcResult
      && o.cpus == RolledBack(Reserved(s, mask, down), mask, up)
      && MaskCpus(mask) <= o.cpus.cpusAssigned
  {
    RollbackRestoresAssigned(Reserved(s, mask, down), mask, up);
  }

  /** A non-negative hypercall result is returned with every masked CPU
      offline and withdrawn from the root cell, and the online ones recorded
      in `offlined_cpus`. */
  lemma UpSuccessWithdrawsMask(s: CpuSets, mask: u32, down: nat -> int, up: nat -> int, hvcResult: int)
    requires ReserveError(s, mask, down) == 0 && hvcResult >= 0
    ensures var o := UpSpec(s, true, mask, down, up, true, hvcResult);
      && o.err == hvcResult
      && o.cpus.cpusAssigned == s.cpusAssigned - MaskCpus(mask)
      && o.cpus.online == s.online - MaskCpus(mask)
      && o.cpus.offlined == s.offlined + (MaskCpus(mask) * s.online)
  {
    ReserveCompleteWithdrawsMask(s, mask, down);
  }

  /** A fault copying the payload returns -EFAULT without the rollback: the
      masked CPUs stay withdrawn. */
  lemma UpPayloadFaultSkipsRollback(s: CpuSets, mask: u32, down: nat -> int, up: nat -> int, hvcResult: int)
    requires ReserveError(s, mask, down) == 0
    ensures var o := UpSpec(s, true, mask, down, up, false, hvcResult);
      && o.err == -EFAULT
      && o.cpus.cpusAssigned == s.cpusAssigned - MaskCpus(mask)
      && o.cpus.online == s.online - MaskCpus(mask)
  {
    ReserveCompleteWithdrawsMask(s, mask, down);
  }

  /** The file's static `offlined_cpus`, shared by every call. */
  class AxTaskDriver {
    const cpus: CpuReservation

    constructor (host: HostCpus)
      ensures fresh(cpus) && cpus.host == host && cpus.offlined == {}
    {
      cpus := new CpuReservation(host);
    }

    /** `jailhouse_cmd_axtask_up`. `payloadCopied` is the outcome of copying
        `size` bytes from `addr`, `payloadPhys` the physical address of the
        kernel buffer they land in, and `hvc` the hypervisor's answer to a
        `JAILHOUSE_HC_AXTASK_UP` call. */
    method Up(
      argCopied: bool, cfg: AxTaskUpConfig, down: nat -> int, up: nat -> int,
      payloadCopied: bool, payloadPhys: u64, hvc: AxTaskCall -> int)
      returns (err: int)
      modifies cpus, cpus.host
      ensures var mask := IntMask(cfg.cpuMask);
        var call := AxTaskCall(mask, CInt(cfg.taskType), payloadPhys);
        Outcome(cpus.State(), err) == UpSpec(old(cpus.State()), argCopied, mask, down, up, payloadCopied, hvc(call))
    {
      if !argCopied {
        return -EFAULT;
      }
      var mask := IntMask(cfg.cpuMask);
      err := cpus.Reserve(mask, down);
      if err == 0 {
        var taskType := CInt(cfg.taskType);
        if !payloadCopied {
          return -EFAULT;
        }
        err := hvc(AxTaskCall(mask, taskType, payloadPhys));
        if err >= 0 {
          return;
        }
      }
      cpus.Rollback(mask, up);
    }
  }
}
