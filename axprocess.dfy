/** driver/axprocess.c (`jailhouse_cmd_axprocess_up`): reserve the masked
    CPUs, hand the mask to the hypervisor in a one-argument hypercall, and
    roll the reservation back when that hypercall (or a `cpu_down`) fails. */
module AxProcess {
  import opened Kernel
  import opened Cpus

  /** `jailhouse_cmd_axprocess_up` as a function of its inputs: whether the
      argument was copied, the mask, the `cpu_down`/`cpu_up` results and the
      hypercall's result. */
  function UpSpec(s: CpuSets, argCopied: bool, mask: u32, down: nat -> int, up: nat -> int, hvcResult: int): (o: Outcome)
    ensures !argCopied ==> o == Outcome(s, -EFAULT)
    ensures argCopied ==> o.err == ReserveError(s, mask, down) || o.err == hvcResult
    ensures argCopied && o.err < 0 ==> o.cpus == RolledBack(Reserved(s, mask, down), mask, up)
    ensures argCopied && o.err >= 0 && ReserveError(s, mask, down) == 0 ==> o.cpus == Reserved(s, mask, down)
  {
    if !argCopied then Outcome(s, -EFAULT)
    else
      var reserved := Reserved(s, mask, down);
      var reserveErr := ReserveError(s, mask, down);
      if reserveErr != 0 then Outcome(RolledBack(reserved, mask, up), reserveErr)
      else if hvcResult < 0 then Outcome(RolledBack(reserved, mask, up), hvcResult)
      else Outcome(reserved, hvcResult)
  }

  /** A non-negative hypercall result after a full reservation is returned
      as is, with every masked CPU withdrawn from the root cell and offline;
      `offlined_cpus` gains exactly the masked CPUs that were online. */
  lemma UpSuccessWithdrawsMask(s: CpuSets, mask: u32, down: nat -> int, up: nat -> int, hvcResult: int)
    requires ReserveError(s, mask, down) == 0 && hvcResult >= 0
    ensures var o := UpSpec(s, true, mask, down, up, hvcResult);
      && o.err == hvcResult
      && o.cpus.cpusAssigned == s.cpusAssigned - MaskCpus(mask)
      && o.cpus.online == s.online - MaskCpus(mask)
      && o.cpus.offlined == s.offlined + (MaskCpus(mask) * s.online)
  {
    ReserveCompleteWithdrawsMask(s, mask, down);
  }

  /** A failing `cpu_down` or a negative hypercall result leads to the
      rollback, which returns every masked CPU to the root cell, and the
      failure's code is returned. */
  lemma UpFailureRollsBack(s: CpuSets, mask: u32, down: nat -> int, up: nat -> int, hvcResult: int)
    requires ReserveError(s, mask, down) != 0 || hvcResult < 0
    ensures var o := UpSpec(s, true, mask, down, up, hvcResult);
      && o.cpus == RolledBack(Reserved(s, mask, down), mask, up)
      && MaskCpus(mask) <= o.cpus.cpusAssigned
      && o.err == (if ReserveError(s, mask, down) != 0 then ReserveError(s, mask, down) else hvcResult)
      && o.err != 0
  {
    RollbackRestoresAssigned(Reserved(s, mask, down), mask, up);
  }

  /** With an empty mask no CPU set changes and the hypercall's result is
      returned. */
  lemma UpEmptyMask(s: CpuSets, down: nat -> int, up: nat -> int, hvcResult: int)
    ensures UpSpec(s, true, 0, down, up, hvcResult) == Outcome(s, hvcResult)
  {
    EmptyMaskChangesNothing(s, down, up);
  }

  /** CPUs outside the mask are never touched, by either walk. */
  lemma UpOutsideMaskUntouched(s: CpuSets, mask: u32, down: nat -> int, up: nat -> int, hvcResult: int, c: nat)
    requires c !in MaskCpus(mask)
    ensures var o := UpSpec(s, true, mask, down, up, hvcResult);
      && (c in o.cpus.online <==> c in s.online)
      && (c in o.cpus.cpusAssigned <==> c in s.cpusAssigned)
      && (c in o.cpus.offlined <==> c in s.offlined)
  {
    OutsideMaskUntouched(s, mask, down, up, c);
    OutsideMaskUntouched(Reserved(s, mask, down), mask, down, up, c);
  }

  /** The file's static `offlined_cpus`, shared by every call. */
  class AxProcessDriver {
    const cpus: CpuReservation

    constructor (host: HostCpus)
      ensures fresh(cpus) && cpus.host == host && cpus.offlined == {}
    {
      cpus := new CpuReservation(host);
    }

    /** `jailhouse_cmd_axprocess_up`, with `cpuMaskField` the caller's
        `cpu_mask` and `hvc` the hypervisor's answer to
        `JAILHOUSE_HC_AXPROCESS_UP` for a given mask. */
    method Up(argCopied: bool, cpuMaskField: u64, down: nat -> int, up: nat -> int, hvc: u32 -> int)
      returns (err: int)
      modifies cpus, cpus.host
      ensures var mask := IntMask(cpuMaskField);
        Outcome(cpus.State(), err) == UpSpec(old(cpus.State()), argCopied, mask, down, up, hvc(mask))
    {
      if !argCopied {
        return -EFAULT;
      }
      var mask := IntMask(cpuMaskField);
      err := cpus.Reserve(mask, down);
      if err == 0 {
        err := hvc(mask);
        if err >= 0 {
          return;
        }
      }
      cpus.Rollback(mask, up);
    }
  }
}
