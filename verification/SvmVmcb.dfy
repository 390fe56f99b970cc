// The VMCB of an SVM vcpu and the ASID allocator of a CPU, as svm.c changes them (svm.c:204-244, svm.c:575-582,
// svm.c:1127-1134, svm.c:1176-1200, svm.c:1690-1706, svm.c:1748-1754, svm.c:1823-1830, svm.c:1938-1940).

module SvmVmcb {
  /** The field groups that a clean bit covers (svm.h:28-46). */
  datatype Group = Intercepts | PermMap | Asid | Intr | Npt | Cr | Dr | Dt | Seg | Cr2 | Lbr | Avic

  const GROUPS: set<Group> := {Intercepts, PermMap, Asid, Intr, Npt, Cr, Dr, Dt, Seg, Cr2, Lbr, Avic}

  datatype Ctl = DoNothing | FlushAsid | FlushAll

  /** Fields of the VMCB in memory.  rest stands for the groups that only setup and the guest change. */
  datatype Fields = Fields(
    intercepts: set<nat>, asid: nat, virq: bool, prio: nat, vector: nat, cr2: nat, rest: map<Group, int>)

  /** The parts of svm_vcpu and its VMCB that decide how the next VMRUN translates. */
  datatype Vcpu = Vcpu(cpu: int, generation: nat, asid: nat, ctl: Ctl, clean: set<Group>, mem: Fields)

  /** svm_cpu_data. */
  datatype Cpu = Cpu(generation: nat, next: nat, min: nat, max: nat)

  /** The kernel's number for the virtual-interrupt intercept. */
  const INTERCEPT_VINTR: nat := 100

  /** Two copies of the VMCB hold the same value in group g. */
  predicate Same(m: Fields, n: Fields, g: Group) {
    match g
    case Intercepts => m.intercepts == n.intercepts
    case Asid => m.asid == n.asid
    case Intr => m.virq == n.virq && m.prio == n.prio && m.vector == n.vector
    case Cr2 => m.cr2 == n.cr2
    case _ => (g in m.rest <==> g in n.rest) && (g in m.rest ==> m.rest[g] == n.rest[g])
  }

  /** Groups kept in rest. */
  predicate Other(g: Group) { !g.Intercepts? && !g.Asid? && !g.Intr? && !g.Cr2? }

  function Dirty(x: Vcpu, g: Group): Vcpu { x.(clean := x.clean - {g}) }

  function LoadedOn(x: Vcpu, cpu: int): Vcpu {
    if cpu != x.cpu then x.(generation := 0, clean := {}, cpu := cpu) else x
  }

  function WithIntercept(x: Vcpu, bit: nat): Vcpu {
    Dirty(x.(mem := x.mem.(intercepts := x.mem.intercepts + {bit})), Intercepts)
  }

  function WithoutIntercept(x: Vcpu, bit: nat): Vcpu {
    Dirty(x.(mem := x.mem.(intercepts := x.mem.intercepts - {bit})), Intercepts)
  }

  function WithVintr(x: Vcpu): Vcpu {
    var y := WithIntercept(x, INTERCEPT_VINTR);
    Dirty(y.(mem := y.mem.(vector := 0, prio := 15, virq := true)), Intr)
  }

  function WithoutVintr(x: Vcpu): Vcpu {
    var y := WithoutIntercept(x, INTERCEPT_VINTR);
    Dirty(y.(mem := y.mem.(vector := 0, prio := 0, virq := false)), Intr)
  }

  /** svm_update_asid: the CPU and the vcpu after it. */
  function NextAsid(d: Cpu, x: Vcpu): (Cpu, Vcpu) {
    if x.generation == d.generation then (d, x)
    else if d.next > d.max then
      (Cpu(d.generation + 1, d.min + 1, d.min, d.max),
       Dirty(x.(ctl := FlushAll, generation := d.generation + 1, asid := d.min), Asid))
    else (d.(next := d.next + 1), x.(generation := d.generation, asid := d.next))
  }

  /** svm_run_vcpu up to VMRUN. */
  function Prologue(d: Cpu, x: Vcpu, cr2: nat): (Cpu, Vcpu) {
    var (d', y) := NextAsid(d, x.(mem := x.mem.(cr2 := cr2)));
    (d', if y.asid != y.mem.asid then Dirty(y.(mem := y.mem.(asid := y.asid)), Asid) else y)
  }

  /** svm_run_vcpu after VMRUN, the guest having left the fields m. */
  function Epilogue(x: Vcpu, m: Fields): Vcpu {
    x.(mem := m, ctl := DoNothing, clean := GROUPS - {Intr, Cr2})
  }

  /** svm_cpu_init: nasid and sev are the words CPUID returns. */
  function CpuInit(nasid: nat, sev: nat): Cpu
    requires 1 <= nasid
  {
    Cpu(1, nasid, sev + 1, nasid - 1)
  }

  // ---- the same, in place ----

  class CpuData {
    var generation: nat
    var nextAsid: nat
    const minAsid: nat
    const maxAsid: nat

    function Value(): Cpu
      reads this
    {
      Cpu(generation, nextAsid, minAsid, maxAsid)
    }

    constructor (nasid: nat, sev: nat)
      requires 1 <= nasid
      ensures Value() == CpuInit(nasid, sev)
    {
      generation := 1;
      maxAsid := nasid - 1;
      nextAsid := nasid;
      minAsid := sev + 1;
    }
  }

  class SvmVcpu {
    var cpu: int
    var generation: nat
    var asid: nat
    var tlbCtl: Ctl
    var clean: set<Group>
    var vmcb: Fields

    /** svm_create_vcpu. */
    constructor (m: Fields)
      ensures Value() == Vcpu(-1, 0, 0, DoNothing, {}, m)
    {
      cpu, generation, asid, tlbCtl, clean, vmcb := -1, 0, 0, DoNothing, {}, m;
    }

    function Value(): Vcpu
      reads this
    {
      Vcpu(cpu, generation, asid, tlbCtl, clean, vmcb)
    }

    method MarkDirty(g: Group)
      modifies this`clean
      ensures Value() == Dirty(old(Value()), g)
    {
      clean := clean - {g};
    }

    method LoadVcpu(c: int)
      modifies this`generation, this`clean, this`cpu
      ensures Value() == LoadedOn(old(Value()), c)
    {
      if c != cpu {
        generation := 0;
        clean := {};
        cpu := c;
      }
    }

    method FlushTlb()
      modifies this`tlbCtl
      ensures Value() == old(Value()).(ctl := FlushAsid)
    {
      tlbCtl := FlushAsid;
    }

    method SetIntercept(bit: nat)
      modifies this`vmcb, this`clean
      ensures Value() == WithIntercept(old(Value()), bit)
    {
      vmcb := vmcb.(intercepts := vmcb.intercepts + {bit});
      MarkDirty(Intercepts);
    }

    method ClrIntercept(bit: nat)
      modifies this`vmcb, this`clean
      ensures Value() == WithoutIntercept(old(Value()), bit)
    {
      vmcb := vmcb.(intercepts := vmcb.intercepts - {bit});
      MarkDirty(Intercepts);
    }

    method SetVintr()
      modifies this`vmcb, this`clean
      ensures Value() == WithVintr(old(Value()))
    {
      SetIntercept(INTERCEPT_VINTR);
      vmcb := vmcb.(vector := 0);
      vmcb := vmcb.(prio := 0);
      vmcb := vmcb.(prio := 15, virq := true);
      MarkDirty(Intr);
    }

    method ClearVintr()
      modifies this`vmcb, this`clean
      ensures Value() == WithoutVintr(old(Value()))
    {
      ClrIntercept(INTERCEPT_VINTR);
      vmcb := vmcb.(prio := 0, virq := false);
      vmcb := vmcb.(vector := 0);
      MarkDirty(Intr);
    }

    method UpdateAsid(sd: CpuData)
      modifies this`generation, this`asid, this`tlbCtl, this`clean, sd`generation, sd`nextAsid
      ensures (sd.Value(), Value()) == NextAsid(old(sd.Value()), old(Value()))
    {
      if generation == sd.generation { return; }
      if sd.nextAsid > sd.maxAsid {
        sd.generation := sd.generation + 1;
        sd.nextAsid := sd.minAsid;
        tlbCtl := FlushAll;
        MarkDirty(Asid);
      }
      generation := sd.generation;
      asid := sd.nextAsid;
      sd.nextAsid := sd.nextAsid + 1;
    }

    method BeforeRun(sd: CpuData, cr2: nat)
      modifies this, sd`generation, sd`nextAsid
      ensures (sd.Value(), Value()) == Prologue(old(sd.Value()), old(Value()), cr2)
    {
      vmcb := vmcb.(cr2 := cr2);
      UpdateAsid(sd);
      if asid != vmcb.asid {
        vmcb := vmcb.(asid := asid);
        MarkDirty(Asid);
      }
    }

    method AfterRun(left: Fields)
      modifies this
      ensures Value() == Epilogue(old(Value()), left)
    {
      vmcb := left;
      tlbCtl := DoNothing;
      clean := GROUPS - {Intr, Cr2};
    }
  }
}
