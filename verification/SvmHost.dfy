// The objects of SvmVmcb over whole runs of SvmEntry: what svm.c keeps in svm_cpu_data and in each vcpu and its VMCB is
// at every point what the run says.

module SvmHost {
  import opened SvmVmcb
  import opened SvmEntry

  /** The CPUs after svm_cpu_init, with the words CPUID returned on each: the number of ASIDs and how many SEV keeps. */
  function Booted(nasid: seq<nat>, sev: seq<nat>): State
    requires |sev| == |nasid| && forall c :: 0 <= c < |nasid| ==> 1 <= nasid[c]
  {
    State(map c: int | 0 <= c < |nasid| :: CpuInit(nasid[c], sev[c]), map[], map[], map[], 0, map[])
  }

  lemma BootedIsInit(nasid: seq<nat>, sev: seq<nat>)
    requires |sev| == |nasid| && forall c :: 0 <= c < |nasid| ==> 1 <= nasid[c]
    ensures Init(Booted(nasid, sev))
  {
  }

  lemma {:induction false} SameLimits(states: seq<State>, steps: seq<Step>, n: nat, c: int)
    requires IsRun(states, steps) && n < |states|
    ensures states[n].cpus.Keys == states[0].cpus.Keys
    ensures c in states[0].cpus ==>
      states[n].cpus[c].min == states[0].cpus[c].min && states[n].cpus[c].max == states[0].cpus[c].max
  {
    hide Apply, Enabled, Init;
    if n > 0 {
      SameLimits(states, steps, n - 1, c);
      assert Enabled(states[n - 1], steps[n - 1]);
      LimitStep(states[n - 1], steps[n - 1]);
    }
  }

  lemma LimitStep(s: State, step: Step)
    requires Enabled(s, step)
    ensures var s' := Apply(s, step);
      && s'.cpus.Keys == s.cpus.Keys
      && forall c :: c in s.cpus ==> s'.cpus[c].min == s.cpus[c].min && s'.cpus[c].max == s.cpus[c].max
  {
    hide Effective, After, Free, Unlocked;
    if !step.Thread? {
      hide Apply, Enabled;
      OtherFrame(s, step);
    }
  }

  /** From boot on, a running guest has an ASID that is neither the host's nor SEV's, and one the CPU has exactly when
      SEV leaves any. */
  lemma GuestAsids(nasid: seq<nat>, sev: seq<nat>, states: seq<State>, steps: seq<Step>, n: nat, v: nat)
    requires |sev| == |nasid| && forall c :: 0 <= c < |nasid| ==> 1 <= nasid[c]
    requires IsRun(states, steps) && states[0] == Booted(nasid, sev)
    requires n < |states| && v in states[n].vs && states[n].vs[v].pc.Guest?
    ensures var c, a := states[n].vs[v].x.cpu, states[n].vs[v].seen.asid;
      && 0 <= c < |nasid| && a >= 1 && a > sev[c] && (a < nasid[c] <==> sev[c] + 1 < nasid[c])
  {
    hide Apply, Enabled, Init, Slots, Asids, Entries, Exclusive;
    RunInv(states, steps, n);
    GuestFacts(states[n], v);
    SameLimits(states, steps, n, states[n].vs[v].x.cpu);
    LiveAsids(states, steps, n, v, v);
  }

  /** What a thread's step is to the objects. */
  lemma Frame(s: State, v: nat, a: Action)
    requires Enabled(s, Thread(v, a))
    ensures var s', t := Apply(s, Thread(v, a)), s.vs[v];
      && s'.vs.Keys == s.vs.Keys && (forall w :: w in s.vs && w != v ==> s'.vs[w] == s.vs[w])
      && (if a.Vmrun? then
            t.x.cpu in s.cpus && (s'.cpus[t.x.cpu], s'.vs[v].x) == Prologue(s.cpus[t.x.cpu], t.x, a.cr2)
            && s'.cpus.Keys == s.cpus.Keys && (forall c :: c in s.cpus && c != t.x.cpu ==> s'.cpus[c] == s.cpus[c])
          else Can(s, t, a) && s'.vs[v] == After(s, v, t, a) && s'.cpus == s.cpus)
  {
    hide Prologue, Effective, Free, Unlocked;
  }

  lemma Untouched(s: State, step: Step)
    requires Enabled(s, step) && !step.Thread? && !step.Create?
    ensures var s' := Apply(s, step);
      s'.cpus == s.cpus && s'.vs.Keys == s.vs.Keys && forall w :: w in s.vs ==> s'.vs[w].x == s.vs[w].x
  {
    hide Apply;
    OtherFrame(s, step);
    forall w | w in s.vs ensures Apply(s, step).vs[w].x == s.vs[w].x { assert Nudged(s.vs[w], Apply(s, step).vs[w]); }
  }

  /** Any other step of the thread of vcpu v, on its object. */
  method Do(x: SvmVcpu, a: Action, ghost s: State, ghost v: nat, ghost t: Slot)
    requires Can(s, t, a) && !a.Vmrun? && x.Value() == t.x
    modifies x
    ensures x.Value() == After(s, v, t, a).x
  {
    hide Free, Unlocked;
    match a
    case Load(c) => x.LoadVcpu(c);
    case SetIntercept(bit) => x.SetIntercept(bit);
    case ClrIntercept(bit) => x.ClrIntercept(bit);
    case SetVintr => x.SetVintr();
    case ClearVintr => x.ClearVintr();
    case FlushTlb => x.FlushTlb();
    case Exit(left) => x.AfterRun(left);
    case _ =>
  }

  class Host {
    var cpus: map<int, CpuData>
    var vcpus: map<nat, SvmVcpu>

    /** No two CPUs and no two vcpus share their data. */
    ghost predicate Valid()
      reads this
    {
      && (forall c, d :: c in cpus && d in cpus && c != d ==> cpus[c] != cpus[d])
      && (forall v, w :: v in vcpus && w in vcpus && v != w ==> vcpus[v] != vcpus[w])
    }

    ghost predicate CpusShow(s: State)
      reads this, cpus.Values
    {
      cpus.Keys == s.cpus.Keys && forall c :: c in cpus ==> cpus[c].Value() == s.cpus[c]
    }

    ghost predicate VcpusShow(s: State)
      reads this, vcpus.Values
    {
      vcpus.Keys == s.vs.Keys && forall v :: v in vcpus ==> vcpus[v].Value() == s.vs[v].x
    }

    /** The objects hold what the state says. */
    ghost predicate Shows(s: State)
      reads this, cpus.Values, vcpus.Values
    {
      Valid() && CpusShow(s) && VcpusShow(s)
    }

    /** svm_hardware_enable_all. */
    constructor (nasid: seq<nat>, sev: seq<nat>)
      requires |sev| == |nasid| && forall c :: 0 <= c < |nasid| ==> 1 <= nasid[c]
      ensures Shows(Booted(nasid, sev)) && (forall c :: c in cpus ==> fresh(cpus[c])) && vcpus == map[]
    {
      cpus, vcpus := map[], map[];
      new;
      for i := 0 to |nasid|
        invariant vcpus == map[] && (forall c :: c in cpus ==> fresh(cpus[c]))
        invariant forall c :: c in cpus <==> 0 <= c < i
        invariant forall c, d :: c in cpus && d in cpus && c != d ==> cpus[c] != cpus[d]
        invariant forall c :: c in cpus ==> cpus[c].Value() == CpuInit(nasid[c], sev[c])
      {
        var d := new CpuData(nasid[i], sev[i]);
        assert d !in cpus.Values;
        cpus := cpus[i := d];
      }
    }

    /** svm_create_vcpu. */
    method CreateVcpu(v: nat, mem: Fields, ghost s: State)
      requires Shows(s) && Enabled(s, Create(v, mem))
      modifies this`vcpus
      ensures Shows(Apply(s, Create(v, mem))) && cpus == old(cpus) && fresh(vcpus.Values - old(vcpus.Values))
    {
      var x := new SvmVcpu(mem);
      vcpus := vcpus[v := x];
    }

    /** What the thread of vcpu v does to the vcpu's own data and, at VMRUN, to that of the CPU. */
    method Act(v: nat, a: Action, ghost s: State)
      requires Shows(s) && Enabled(s, Thread(v, a))
      modifies cpus.Values, vcpus.Values
      ensures Shows(Apply(s, Thread(v, a)))
    {
      hide Apply, After, Can, Prologue;
      Frame(s, v, a);
      if a.Vmrun? {
        vcpus[v].BeforeRun(cpus[vcpus[v].cpu], a.cr2);
      } else {
        Do(vcpus[v], a, s, v, s.vs[v]);
      }
    }

    method One(step: Step, ghost s: State)
      requires Shows(s) && Enabled(s, step)
      modifies this`vcpus, cpus.Values, vcpus.Values
      ensures Shows(Apply(s, step)) && cpus == old(cpus) && fresh(vcpus.Values - old(vcpus.Values))
    {
      hide Apply, Enabled;
      match step
      case Create(v, mem) => CreateVcpu(v, mem, s);
      case Thread(v, a) => Act(v, a, s);
      case _ => Untouched(s, step);
    }

    /** Over any run, from the boot on: the objects end as the run does, and vcpus that share a CPU and its present
        generation have different ASIDs. */
    method Drive(steps: seq<Step>, ghost states: seq<State>)
      requires IsRun(states, steps) && Shows(states[0])
      modifies this`vcpus, cpus.Values, vcpus.Values
      ensures Shows(states[|steps|])
      ensures forall v, w :: v in vcpus && w in vcpus && v != w && vcpus[v].cpu == vcpus[w].cpu && vcpus[v].cpu in cpus
                             && vcpus[v].generation == vcpus[w].generation == cpus[vcpus[v].cpu].generation
                ==> vcpus[v].asid != vcpus[w].asid
    {
      hide Apply, Enabled, Init;
      for i := 0 to |steps|
        invariant Shows(states[i]) && cpus == old(cpus) && fresh(vcpus.Values - old(vcpus.Values))
      {
        assert Enabled(states[i], steps[i]);
        One(steps[i], states[i]);
      }
      forall v, w | v in vcpus && w in vcpus && v != w && vcpus[v].cpu == vcpus[w].cpu && vcpus[v].cpu in cpus
                    && vcpus[v].generation == vcpus[w].generation == cpus[vcpus[v].cpu].generation
        ensures vcpus[v].asid != vcpus[w].asid
      {
        LiveAsids(states, steps, |steps|, v, w);
      }
    }
  }
}
