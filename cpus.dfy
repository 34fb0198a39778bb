/** CPU reservation and rollback, the pattern that driver/axvm.c,
    driver/axtask.c and driver/axprocess.c each repeat: walk the 32 bits of
    an `int` CPU mask, take every masked online CPU down, record it in the
    file's static `offlined_cpus` and withdraw it from the root cell's
    `cpus_assigned`; on an error walk the whole mask again, bring offline
    CPUs back up and hand every masked CPU back to the root cell. */
module Cpus {

  import opened Kernel

  /** `sizeof(cpu_mask) * 8`: the mask is a C `int`. */
  const MASK_BITS: nat := 32

  /** Binary digit `i` of `n`. */
  predicate Bit(n: nat, i: nat)
    decreases i
  {
    if i == 0 then n % 2 == 1 else Bit(n / 2, i - 1)
  }

  /** The `int` mask a driver gets from a 64-bit configuration field: the
      assignment keeps the low 32 bits. */
  function IntMask(field: u64): (m: u32)
    ensures field < U32_LIMIT ==> m == field
    ensures (field - m) % U32_LIMIT == 0
  {
    field % U32_LIMIT
  }

  /** The empty mask has no bit set. */
  lemma {:induction false} NoBitOfZero(i: nat)
    ensures !Bit(0, i)
  {
    if i > 0 {
      NoBitOfZero(i - 1);
    }
  }

  /** `cpu_mask & (1 << cpu)` for a CPU index the walk visits; the mask is
      the bit pattern of the C `int`, read as an unsigned 32-bit value. */
  predicate InMask(mask: u32, cpu: nat)
    ensures InMask(mask, cpu) ==> cpu < MASK_BITS
  {
    cpu < MASK_BITS && Bit(mask, cpu)
  }

  /** The masked CPUs among 0 .. k-1: the CPUs the walk has handled once
      it reaches index k. */
  function MaskBelow(mask: u32, k: nat): (r: set<nat>)
    ensures forall c: nat :: c in r <==> c < k && InMask(mask, c)
  {
    if k == 0 then {}
    else MaskBelow(mask, k - 1) + (if InMask(mask, k - 1) then {k - 1} else {})
  }

  lemma MaskBelowStep(mask: u32, k: nat)
    ensures MaskBelow(mask, k + 1) == MaskBelow(mask, k) + (if InMask(mask, k) then {k} else {})
    ensures k !in MaskBelow(mask, k)
  {
  }

  /** Every CPU the mask names. */
  function MaskCpus(mask: u32): set<nat> {
    MaskBelow(mask, MASK_BITS)
  }

  /** The index at which the reservation walk, started at `from`, stops: the
      first masked CPU that is online and whose `cpu_down` fails, or
      MASK_BITS when there is none. */
  function FirstDownFailure(mask: u32, online: set<nat>, down: nat -> int, from: nat): (r: nat)
    requires from <= MASK_BITS
    ensures from <= r <= MASK_BITS
    ensures r < MASK_BITS ==> InMask(mask, r) && r in online && down(r) != 0
    ensures forall c :: from <= c < r && InMask(mask, c) && c in online ==> down(c) == 0
    decreases MASK_BITS - from
  {
    if from == MASK_BITS then MASK_BITS
    else if InMask(mask, from) && from in online && down(from) != 0 then from
    else FirstDownFailure(mask, online, down, from + 1)
  }

  /** The three CPU sets the drivers touch: the kernel's online CPUs, the
      root cell's `cpus_assigned`, and one file's `offlined_cpus`. */
  datatype CpuSets = CpuSets(online: set<nat>, cpusAssigned: set<nat>, offlined: set<nat>)

  /** The effect of handling the CPUs `done` in the reservation walk: the
      online ones go down and are recorded, all leave the root cell. */
  function Withdrawn(s: CpuSets, done: set<nat>): (r: CpuSets)
    ensures r.online !! done && r.cpusAssigned !! done
    ensures r.online + (done * s.online) == s.online
    ensures r.cpusAssigned + (done * s.cpusAssigned) == s.cpusAssigned
    ensures r.offlined == s.offlined + (done * s.online)
  {
    CpuSets(s.online - done, s.cpusAssigned - done, s.offlined + (done * s.online))
  }

  function ReserveStop(s: CpuSets, mask: u32, down: nat -> int): nat {
    FirstDownFailure(mask, s.online, down, 0)
  }

  /** The CPU sets after the reservation walk, whether it finished or stopped
      at a failing `cpu_down`. */
  function Reserved(s: CpuSets, mask: u32, down: nat -> int): (r: CpuSets)
    ensures r.online <= s.online && r.cpusAssigned <= s.cpusAssigned && s.offlined <= r.offlined
    ensures forall c :: c in s.cpusAssigned && c !in r.cpusAssigned ==> InMask(mask, c)
    ensures forall c :: c in s.online && c !in r.online ==> InMask(mask, c) && c in r.offlined
    ensures r.offlined - s.offlined <= MaskCpus(mask) * s.online
  {
    Withdrawn(s, MaskBelow(mask, ReserveStop(s, mask, down)))
  }

  /** The value of `err` when the reservation walk ends: the failing
      `cpu_down` result, or 0. */
  function ReserveError(s: CpuSets, mask: u32, down: nat -> int): (err: int)
    ensures err != 0 ==> exists c :: InMask(mask, c) && c in s.online && err == down(c)
  {
    var stop := ReserveStop(s, mask, down);
    if stop < MASK_BITS then down(stop) else 0
  }

  /** The masked CPUs among 0 .. k-1 that the rollback brings back up: those
      offline when the rollback starts whose `cpu_up` succeeds. */
  function Restarted(mask: u32, online: set<nat>, up: nat -> int, k: nat): (r: set<nat>)
    ensures r <= MaskBelow(mask, k) && r !! online
    ensures forall c :: c in r <==> c in MaskBelow(mask, k) && c !in online && up(c) == 0
  {
    set c | c in MaskBelow(mask, k) && c !in online && up(c) == 0
  }

  /** The CPU sets after the rollback walk. */
  function RolledBack(s: CpuSets, mask: u32, up: nat -> int): (r: CpuSets)
    ensures s.online <= r.online && s.cpusAssigned + MaskCpus(mask) <= r.cpusAssigned
    ensures r.offlined <= s.offlined
    ensures forall c :: c in r.online && c !in s.online ==> InMask(mask, c) && up(c) == 0
    ensures forall c :: c in r.cpusAssigned && c !in s.cpusAssigned ==> InMask(mask, c)
  {
    var r := Restarted(mask, s.online, up, MASK_BITS);
    CpuSets(s.online + r, s.cpusAssigned + MaskCpus(mask), s.offlined - r)
  }

  /** What a driver call leaves behind: the CPU sets and the code it returns. */
  datatype Outcome = Outcome(cpus: CpuSets, err: int)

  /** With an empty mask neither walk changes anything and the reservation
      reports no error. */
  lemma EmptyMaskChangesNothing(s: CpuSets, down: nat -> int, up: nat -> int)
    ensures MaskCpus(0) == {}
    ensures Reserved(s, 0, down) == s && ReserveError(s, 0, down) == 0
    ensures RolledBack(s, 0, up) == s
  {
    EmptyMaskBelow(MASK_BITS);
    EmptyMaskReservesNothing(s, down);
    EmptyMaskRestoresNothing(s, up);
  }

  lemma EmptyMaskReservesNothing(s: CpuSets, down: nat -> int)
    ensures Reserved(s, 0, down) == s && ReserveError(s, 0, down) == 0
  {
    var stop := ReserveStop(s, 0, down);
    assert stop == MASK_BITS by {
      if stop < MASK_BITS {
        NoBitOfZero(stop);
      }
    }
    EmptyMaskBelow(MASK_BITS);
    var t := Withdrawn(s, MaskBelow(0, stop));
    assert t.online == s.online;
    assert t.cpusAssigned == s.cpusAssigned;
    assert t.offlined == s.offlined;
  }

  lemma EmptyMaskRestoresNothing(s: CpuSets, up: nat -> int)
    ensures RolledBack(s, 0, up) == s
  {
    EmptyMaskBelow(MASK_BITS);
    var r := Restarted(0, s.online, up, MASK_BITS);
    assert r == {};
    var t := CpuSets(s.online + r, s.cpusAssigned + MaskCpus(0), s.offlined - r);
    assert t.online == s.online;
    assert t.cpusAssigned == s.cpusAssigned;
    assert t.offlined == s.offlined;
  }

  /** The empty mask names no CPU below any bound. */
  lemma EmptyMaskBelow(k: nat)
    ensures MaskBelow(0, k) == {}
  {
    forall c | c in MaskBelow(0, k) ensures false {
      NoBitOfZero(c);
    }
  }

  /** A CPU outside the mask keeps its membership in every set, through the
      reservation walk and through the rollback. */
  lemma OutsideMaskUntouched(s: CpuSets, mask: u32, down: nat -> int, up: nat -> int, c: nat)
    requires c !in MaskCpus(mask)
    ensures var t := Reserved(s, mask, down);
      && (c in t.online <==> c in s.online)
      && (c in t.cpusAssigned <==> c in s.cpusAssigned)
      && (c in t.offlined <==> c in s.offlined)
    ensures var t := RolledBack(s, mask, up);
      && (c in t.online <==> c in s.online)
      && (c in t.cpusAssigned <==> c in s.cpusAssigned)
      && (c in t.offlined <==> c in s.offlined)
  {
  }

  /** A reservation walk that meets no failing `cpu_down` withdraws every
      masked CPU from the root cell, takes every one of them offline, and
      records exactly those that were online before. */
  lemma ReserveCompleteWithdrawsMask(s: CpuSets, mask: u32, down: nat -> int)
    requires ReserveError(s, mask, down) == 0
    ensures var t := Reserved(s, mask, down);
      && t.cpusAssigned == s.cpusAssigned - MaskCpus(mask)
      && t.online == s.online - MaskCpus(mask)
      && t.offlined == s.offlined + (MaskCpus(mask) * s.online)
  {
  }

  /** The walk reports failure exactly when some masked online CPU refuses to
      go down, and the error it reports is that CPU's `cpu_down` result. */
  lemma ReserveErrorIffDownFails(s: CpuSets, mask: u32, down: nat -> int)
    ensures ReserveError(s, mask, down) != 0 <==>
      exists c :: InMask(mask, c) && c in s.online && down(c) != 0
    ensures ReserveError(s, mask, down) != 0 ==>
      exists c :: InMask(mask, c) && c in s.online && ReserveError(s, mask, down) == down(c)
  {
    var stop := ReserveStop(s, mask, down);
    if stop == MASK_BITS {
      forall c | InMask(mask, c) && c in s.online ensures down(c) == 0 {
      }
    }
  }

  /** Whatever the walk did, the rollback hands every masked CPU back to the
      root cell, and it drops from `offlined_cpus` exactly the recorded masked
      CPUs that were offline and whose `cpu_up` succeeded. */
  lemma RollbackRestoresAssigned(s: CpuSets, mask: u32, up: nat -> int)
    ensures MaskCpus(mask) <= RolledBack(s, mask, up).cpusAssigned
    ensures forall c :: c in MaskCpus(mask) ==>
      (c in s.offlined && c !in RolledBack(s, mask, up).offlined <==>
        c in s.offlined && c !in s.online && up(c) == 0)
    ensures forall c :: c !in MaskCpus(mask) ==>
      (c in RolledBack(s, mask, up).offlined <==> c in s.offlined)
  {
  }

  /** Reservation symmetry: when every masked CPU starts online, assigned to the
      root cell and not yet recorded as offlined, and `cpu_up` succeeds on
      every CPU the walk took down, a reservation followed by a rollback
      restores all three sets, wherever the walk stopped. */
  lemma ReserveThenRollbackRestores(s: CpuSets, mask: u32, down: nat -> int, up: nat -> int)
    requires MaskCpus(mask) <= s.online && MaskCpus(mask) <= s.cpusAssigned
    requires MaskCpus(mask) !! s.offlined
    requires forall c :: c in MaskBelow(mask, ReserveStop(s, mask, down)) ==> up(c) == 0
    ensures RolledBack(Reserved(s, mask, down), mask, up) == s
  {
    var t := Reserved(s, mask, down);
    var done := MaskBelow(mask, ReserveStop(s, mask, down));
    var r := Restarted(mask, t.online, up, MASK_BITS);
    assert r == done by {
      forall c ensures c in r <==> c in done {
        if c in done {
          assert c in MaskCpus(mask);
        }
      }
    }
    var u := RolledBack(t, mask, up);
    assert u.online == s.online;
    assert u.cpusAssigned == s.cpusAssigned;
    assert u.offlined == s.offlined;
  }

  /** The rollback walks the whole mask, not only the CPUs the walk took down:
      a masked CPU that was already offline and outside the root cell (one
      that another guest holds) is brought online and handed to the root cell
      when `cpu_up` succeeds on it, even though the walk never touched it. */
  lemma RollbackReclaimsForeignCpu(s: CpuSets, mask: u32, down: nat -> int, up: nat -> int, c: nat)
    requires InMask(mask, c) && c !in s.online && c !in s.cpusAssigned
    requires up(c) == 0
    ensures var t := RolledBack(Reserved(s, mask, down), mask, up);
      c in t.online && c in t.cpusAssigned && t != s
  {
    var t := Reserved(s, mask, down);
    assert c in MaskCpus(mask);
    assert c !in t.online;
    assert c in Restarted(mask, t.online, up, MASK_BITS);
  }

  /** The kernel's hotplug state and the root cell's CPU set, shared by the
      three driver files. */
  class HostCpus {
    /** CPUs for which `cpu_online` holds. */
    var online: set<nat>
    /** `root_cell->cpus_assigned`. */
    var cpusAssigned: set<nat>

    constructor (online: set<nat>, cpusAssigned: set<nat>)
      ensures this.online == online && this.cpusAssigned == cpusAssigned
    {
      this.online := online;
      this.cpusAssigned := cpusAssigned;
    }

    /** `cpu_down(cpu)`, whose result the kernel decides: on 0 the CPU goes
        offline, on an error it stays as it was. */
    method CpuDown(cpu: nat, outcome: int) returns (err: int)
      modifies this
      ensures err == outcome
      ensures online == if outcome == 0 then old(online) - {cpu} else old(online)
      ensures cpusAssigned == old(cpusAssigned)
    {
      err := outcome;
      if outcome == 0 {
        online := online - {cpu};
      }
    }

    /** `cpu_up(cpu)`, whose result the kernel decides: on 0 the CPU comes
        online, on an error it stays as it was. */
    method CpuUp(cpu: nat, outcome: int) returns (err: int)
      modifies this
      ensures err == outcome
      ensures online == if outcome == 0 then old(online) + {cpu} else old(online)
      ensures cpusAssigned == old(cpusAssigned)
    {
      err := outcome;
      if outcome == 0 {
        online := online + {cpu};
      }
    }
  }

  /** One driver file's static `offlined_cpus`, together with the two walks
      that file performs over a CPU mask. */
  class CpuReservation {
    const host: HostCpus
    var offlined: set<nat>

    /** A file-scope static starts out empty. */
    constructor (host: HostCpus)
      ensures this.host == host && offlined == {}
    {
      this.host := host;
      offlined := {};
    }

    function State(): CpuSets
      reads this, host
    {
      CpuSets(host.online, host.cpusAssigned, offlined)
    }

    /** The reservation walk. It returns the `err` it leaves behind: 0 after a
        full walk, the failing `cpu_down` result after an early stop (whose
        caller then jumps to the rollback). */
    method Reserve(mask: u32, down: nat -> int) returns (err: int)
      modifies this, host
      ensures State() == Reserved(old(State()), mask, down)
      ensures err == ReserveError(old(State()), mask, down)
      ensures (err == 0) == (ReserveStop(old(State()), mask, down) == MASK_BITS)
    {
      ghost var s0 := State();
      ghost var stop := ReserveStop(s0, mask, down);
      err := 0;
      var cpu: nat := 0;
      while cpu < MASK_BITS
        invariant cpu <= stop
        invariant host.online == s0.online - MaskBelow(mask, cpu)
        invariant host.cpusAssigned == s0.cpusAssigned - MaskBelow(mask, cpu)
        invariant offlined == s0.offlined + (MaskBelow(mask, cpu) * s0.online)
        invariant err == 0
      {
        MaskBelowStep(mask, cpu);
        if InMask(mask, cpu) {
          if cpu in host.online {
            err := host.CpuDown(cpu, down(cpu));
            if err != 0 {
              assert cpu == stop by {
                assert cpu in s0.online;
              }
              return;
            }
            offlined := offlined + {cpu};
          }
          host.cpusAssigned := host.cpusAssigned - {cpu};
        }
        cpu := cpu + 1;
      }
      assert stop == MASK_BITS;
    }

    /** The rollback walk (label `error_cpu_online`): for every masked CPU,
        `cpu_up` it when it is offline and drop it from `offlined_cpus` when
        that succeeds; hand it back to the root cell in every case. */
    method Rollback(mask: u32, up: nat -> int)
      modifies this, host
      ensures State() == RolledBack(old(State()), mask, up)
    {
      ghost var s0 := State();
      var cpu: nat := 0;
      while cpu < MASK_BITS
        invariant cpu <= MASK_BITS
        invariant host.online == s0.online + Restarted(mask, s0.online, up, cpu)
        invariant host.cpusAssigned == s0.cpusAssigned + MaskBelow(mask, cpu)
        invariant offlined == s0.offlined - Restarted(mask, s0.online, up, cpu)
      {
        MaskBelowStep(mask, cpu);
        if InMask(mask, cpu) {
          if cpu !in host.online {
            var e := host.CpuUp(cpu, up(cpu));
            if e == 0 {
              offlined := offlined - {cpu};
            }
          }
          host.cpusAssigned := host.cpusAssigned + {cpu};
        }
        cpu := cpu + 1;
      }
    }
  }
}
