// Where a VMCS is: active only on the CPU its vcpu names, current where vmx_local_vcpu says so, and launched
// exactly when the hardware thinks it is (section 24.11.1 of the Intel SDM, volume 3C).

module Residency {
  import opened VmxEntry

  /** Between the write of vmx_local_vcpu and the end of __load_vcpu. */
  predicate MidLoad(pc: Pc) { pc.Written? || pc.Calling? || pc.Called? || pc.Requested? || pc.Pointed? }

  /** After __load_vcpu, with preemption still off. */
  predicate Settled(pc: Pc) { !pc.Idle? && !pc.Taken? && !MidLoad(pc) }

  predicate InEntry(pc: Pc) { pc.InMode? || pc.ModeOk? || pc.Checked? || pc.Guest? }

  /** The CPUs on which the VMCS of a vcpu may be active: the CPU it names, except while the load is moving it. */
  function Site(x: Vcpu): set<int> {
    if x.pc.Called? || x.pc.Requested? then {}
    else if x.pc.Pointed? then {x.on}
    else if x.cpu < 0 then {} else {x.cpu}
  }

  predicate VcpuOk(x: Vcpu) {
    && (x.pc.Idle? <==> x.on < 0) && x.cpu >= -1
    && x.active <= Site(x)
    && (x.pc.Calling? ==> x.cpu == x.pc.to >= 0 && x.cpu != x.on)
    && (Settled(x.pc) ==> x.cpu == x.on)
    && (InEntry(x.pc) <==> x.mode.InGuest? || x.mode.Exiting?)
    && (x.pc.Requested? || x.pc.Pointed? ==> x.flush)
    && (Settled(x.pc) && !x.pc.Loaded? ==> x.life.Live?)
    && (x.life.Fresh? ==> x.cpu < 0 || x.flush)
    && (if x.pc.Called? || x.pc.Requested? then !x.hwLaunched
        else if x.pc.Guest? then x.hwLaunched
        else x.launched == x.hwLaunched)
    && (x.cpu < 0 && !x.pc.Pointed? ==> !x.hwLaunched)
    && (x.life.Gone? ==> x.pc.Idle? && x.active == {})
  }

  /** The per-CPU pointer names a vcpu that is being loaded there, or whose VMCS is current there. */
  predicate LocalOk(s: State, c: int)
    requires c in s.local
  {
    var v := s.local[c];
    && v in s.vs && !s.vs[v].life.Gone?
    && ((s.vs[v].on == c && MidLoad(s.vs[v].pc)) || (s.vs[v].cpu == c && c in s.current && s.current[c] == v))
  }

  predicate Resident(s: State, v: nat)
    requires v in s.vs
  {
    var x := s.vs[v];
    && (MidLoad(x.pc) ==> x.on in s.local && s.local[x.on] == v)
    && (Settled(x.pc) || x.pc.Pointed? ==> x.on in s.current && s.current[x.on] == v)
  }

  /** At most one thread holds a CPU with preemption off. */
  predicate Exclusive(s: State) {
    && (forall v, w :: v in s.vs && w in s.vs && v != w && s.vs[v].on >= 0 ==> s.vs[v].on != s.vs[w].on)
    && (forall v, f :: v in s.vs && f in s.fs && !s.fs[f].phase.Done? ==> s.vs[v].on != s.fs[f].me)
    && (forall f :: f in s.fs ==> s.fs[f].me >= 0)
  }

  predicate Vcpus(s: State) { forall v :: v in s.vs ==> VcpuOk(s.vs[v]) }

  predicate Residents(s: State) { forall v :: v in s.vs ==> Resident(s, v) }

  predicate Locals(s: State) { forall c :: c in s.local ==> LocalOk(s, c) }

  predicate Currents(s: State) {
    forall c :: c in s.current ==> s.current[c] in s.vs && c in s.vs[s.current[c]].active
  }

  predicate Inv(s: State) {
    Exclusive(s) && Vcpus(s) && Residents(s) && Locals(s) && Currents(s)
  }


  // ---- one vcpu ----

  /** The fields of one vcpu stay consistent under every action of its thread. */
  lemma AfterOk(s: State, v: nat, x: Vcpu, a: Action)
    requires VcpuOk(x) && Can(s, v, x, a) && (a.LoadSkip? ==> x.cpu == x.on)
    ensures VcpuOk(After(x, a))
  {
    hide Free, IrqsOn, Unlocked, IsLocal;
  }

  /** Taking v's next action keeps what is known of every other holder of a CPU. */
  lemma ThreadVcpus(s: State, v: nat, a: Action)
    requires Inv(s) && Enabled(s, Thread(v, a))
    ensures Vcpus(Apply(s, Thread(v, a)))
  {
    var x := s.vs[v];
    assert VcpuOk(x);
    if a.LoadSkip? {
      assert LocalOk(s, x.on);
    }
    AfterOk(s, v, x, a);
  }

  /** A thread keeps its CPU, gives it up, or takes a free one. */
  lemma OnLocal(s: State, v: nat, a: Action)
    requires Enabled(s, Thread(v, a))
    ensures var on := After(s.vs[v], a).on; on == s.vs[v].on || on < 0 || Free(s, on)
    ensures Apply(s, Thread(v, a)).fs == s.fs
  {
    hide Free, IrqsOn, Unlocked, IsLocal;
  }

  lemma ThreadExclusive(s: State, v: nat, a: Action)
    requires Inv(s) && Enabled(s, Thread(v, a))
    ensures Exclusive(Apply(s, Thread(v, a)))
  {
    hide VcpuOk, Residents, Locals, Currents, Apply, After, Can;
    Frame(s, v, a);
    OnLocal(s, v, a);
  }

  predicate IsCurrent(s: State, c: int, v: nat) { c in s.current && s.current[c] == v }

  lemma OwnResident(s: State, v: nat, a: Action)
    requires Enabled(s, Thread(v, a)) && VcpuOk(s.vs[v]) && Resident(s, v)
    requires a.LoadSkip? ==> IsCurrent(s, s.vs[v].on, v)
    ensures Resident(Apply(s, Thread(v, a)), v)
  {
    hide Free, IrqsOn, Unlocked, TlbAfter;
  }

  /** What another thread's action leaves of the per-CPU pointers of a vcpu that is on another CPU. */
  lemma OthersKept(s: State, v: nat, a: Action, c: int, w: nat)
    requires Enabled(s, Thread(v, a)) && w != v
    requires a.LoadWrite? || a.LoadSame? || a.Point? || a.NmiBegin? || a.NmiEnd? || a.Destroy? ==> c != s.vs[v].on
    ensures IsLocal(s, c, w) ==> IsLocal(Apply(s, Thread(v, a)), c, w)
    ensures IsCurrent(s, c, w) ==> IsCurrent(Apply(s, Thread(v, a)), c, w)
  {
  }

  lemma ThreadResidents(s: State, v: nat, a: Action)
    requires Inv(s) && Enabled(s, Thread(v, a))
    ensures Residents(Apply(s, Thread(v, a)))
  {
    hide Currents, Apply, Can;
    var s', x := Apply(s, Thread(v, a)), s.vs[v];
    assert s'.vs == s.vs[v := After(x, a)] by { Frame(s, v, a); }
    assert VcpuOk(x) && Resident(s, v);
    if a.LoadSkip? {
      Frame(s, v, a);
      assert LocalOk(s, x.on);
    }
    OwnResident(s, v, a);
    forall w | w in s.vs && w != v
      ensures Resident(s', w)
    {
      assert Resident(s, w) && VcpuOk(s.vs[w]);
      if s.vs[w].on >= 0 { OthersKept(s, v, a, s.vs[w].on, w); }
    }
  }

  lemma Frame(s: State, v: nat, a: Action)
    requires Enabled(s, Thread(v, a))
    ensures v in s.vs && Apply(s, Thread(v, a)).vs == s.vs[v := After(s.vs[v], a)]
    ensures a.LoadSkip? ==> s.vs[v].pc.Taken? && IsLocal(s, s.vs[v].on, v)
  {
  }

  /** The actions that change vmx_local_vcpu or the current VMCS. */
  predicate Moves(a: Action) {
    a.LoadWrite? || a.LoadSame? || a.Point? || a.Helper? || a.NmiBegin? || a.NmiEnd? || a.Destroy?
  }

  lemma LocalChanged(s: State, v: nat, a: Action, c: int)
    requires Enabled(s, Thread(v, a)) && VcpuOk(s.vs[v]) && Resident(s, v)
    requires IsLocal(s, c, v) ==> LocalOk(s, c)
    requires IsCurrent(s, c, v) ==> c in s.vs[v].active
    requires IsLocal(Apply(s, Thread(v, a)), c, v)
    requires Moves(a)
    ensures LocalOk(Apply(s, Thread(v, a)), c)
  {
    hide Free, IrqsOn, Unlocked, TlbAfter;
  }

  lemma LocalKept(s: State, v: nat, a: Action, c: int)
    requires Enabled(s, Thread(v, a)) && VcpuOk(s.vs[v]) && Resident(s, v)
    requires IsLocal(s, c, v) ==> LocalOk(s, c)
    requires IsCurrent(s, c, v) ==> c in s.vs[v].active
    requires IsLocal(Apply(s, Thread(v, a)), c, v)
    requires !Moves(a)
    ensures LocalOk(Apply(s, Thread(v, a)), c)
  {
    hide Free, IrqsOn, Unlocked, TlbAfter;
  }

  lemma OwnLocal(s: State, v: nat, a: Action, c: int)
    requires Enabled(s, Thread(v, a)) && VcpuOk(s.vs[v]) && Resident(s, v)
    requires IsLocal(s, c, v) ==> LocalOk(s, c)
    requires IsCurrent(s, c, v) ==> c in s.vs[v].active
    requires IsLocal(Apply(s, Thread(v, a)), c, v)
    ensures LocalOk(Apply(s, Thread(v, a)), c)
  {
    hide Enabled, Apply, LocalOk, VcpuOk, Resident, IsLocal, IsCurrent;
    if Moves(a) { LocalChanged(s, v, a, c); } else { LocalKept(s, v, a, c); }
  }

  /** A pointer to another vcpu was there before, and no VMCS was loaded under it. */
  lemma OtherLocal(s: State, v: nat, a: Action, c: int, w: nat)
    requires Enabled(s, Thread(v, a)) && Resident(s, v) && w != v
    requires IsLocal(Apply(s, Thread(v, a)), c, w)
    ensures IsLocal(s, c, w)
    ensures a.LoadWrite? || a.LoadSame? || a.Point? || a.NmiBegin? || a.NmiEnd? || a.Destroy? ==> c != s.vs[v].on
  {
  }

  lemma ThreadLocals(s: State, v: nat, a: Action)
    requires Inv(s) && Enabled(s, Thread(v, a))
    ensures Locals(Apply(s, Thread(v, a)))
  {
    hide Exclusive, Apply, Enabled, VcpuOk;
    Frame(s, v, a);
    var s' := Apply(s, Thread(v, a));
    forall c | c in s'.local
      ensures LocalOk(s', c)
    {
      var w := s'.local[c];
      if w == v {
        OwnLocal(s, v, a, c);
      } else {
        OtherLocal(s, v, a, c, w);
        OthersKept(s, v, a, c, w);
        assert LocalOk(s, c);
      }
    }
  }

  lemma OwnCurrent(s: State, v: nat, a: Action, c: int)
    requires Enabled(s, Thread(v, a)) && VcpuOk(s.vs[v]) && (IsCurrent(s, c, v) ==> c in s.vs[v].active)
    requires IsCurrent(Apply(s, Thread(v, a)), c, v)
    ensures c in After(s.vs[v], a).active
  {
    hide Free, IrqsOn, Unlocked, IsLocal, LocalAfter, TlbAfter;
  }

  lemma OtherCurrent(s: State, v: nat, a: Action, c: int, w: nat)
    requires Enabled(s, Thread(v, a)) && w != v && IsCurrent(Apply(s, Thread(v, a)), c, w)
    ensures IsCurrent(s, c, w)
  {
    hide Can, After, LocalAfter, TlbAfter;
  }

  lemma ThreadCurrents(s: State, v: nat, a: Action)
    requires Inv(s) && Enabled(s, Thread(v, a))
    ensures Currents(Apply(s, Thread(v, a)))
  {
    hide Exclusive, Residents, Locals, Apply, Enabled, VcpuOk, After;
    Frame(s, v, a);
    var s' := Apply(s, Thread(v, a));
    forall c | c in s'.current
      ensures s'.current[c] in s'.vs && c in s'.vs[s'.current[c]].active
    {
      var w := s'.current[c];
      if w == v { OwnCurrent(s, v, a, c); } else { OtherCurrent(s, v, a, c, w); }
    }
  }

  // ---- every step ----

  /** A step that changes no vcpu but for its request bit and mode. */
  lemma SameVcpus(s: State, s': State)
    requires Inv(s) && s'.local == s.local && s'.current == s.current && s'.vs.Keys == s.vs.Keys
    requires forall v :: v in s.vs ==> s'.vs[v] == s.vs[v].(flush := s'.vs[v].flush, mode := s'.vs[v].mode)
    requires forall v :: v in s.vs ==> VcpuOk(s'.vs[v])
    ensures Residents(s') && Locals(s') && Currents(s')
  {
    hide Exclusive, VcpuOk;
    forall v | v in s'.vs ensures Resident(s', v) { assert Resident(s, v); }
    forall c | c in s'.local ensures LocalOk(s', c) { assert LocalOk(s, c); }
  }

  lemma NewOk(s: State, v: nat)
    requires Enabled(s, Create(v))
    ensures VcpuOk(Apply(s, Create(v)).vs[v])
  {
  }

  lemma NewExclusive(s: State, v: nat)
    requires Exclusive(s) && Enabled(s, Create(v))
    ensures Exclusive(Apply(s, Create(v)))
  {
  }

  lemma CreateStep(s: State, v: nat)
    requires Inv(s) && Enabled(s, Create(v))
    ensures Inv(Apply(s, Create(v)))
  {
    hide Exclusive, VcpuOk;
    NewExclusive(s, v);
    var s' := Apply(s, Create(v));
    assert Vcpus(s') by { NewOk(s, v); }
    forall w | w in s'.vs ensures Resident(s', w) { if w != v { assert Resident(s, w); } }
    forall c | c in s'.local ensures LocalOk(s', c) { assert LocalOk(s, c); }
  }

  lemma FlusherHolds(s: State, step: Step, f: nat)
    requires Enabled(s, step) && !step.Thread? && !step.Create? && f in Apply(s, step).fs
    requires f in s.fs ==> s.fs[f].me >= 0
    ensures var x := Apply(s, step).fs[f];
      x.me >= 0 && (x.phase.Done? || Free(s, x.me) || (f in s.fs && !s.fs[f].phase.Done? && s.fs[f].me == x.me))
  {
    hide Free;
  }

  lemma FlusherExclusive(s: State, step: Step)
    requires Inv(s) && Enabled(s, step) && !step.Thread? && !step.Create?
    ensures Exclusive(Apply(s, step))
  {
    hide VcpuOk, Residents, Locals, Currents, Apply, Enabled;
    var s' := Apply(s, step);
    FlusherFrame(s, step);
    forall v | v in s'.vs ensures v in s.vs && s'.vs[v].on == s.vs[v].on { FlusherVcpus(s, step, v); }
    forall f | f in s'.fs
      ensures s'.fs[f].me >= 0
      ensures s'.fs[f].phase.Done? || Free(s, s'.fs[f].me)
              || (f in s.fs && !s.fs[f].phase.Done? && s.fs[f].me == s'.fs[f].me)
    {
      FlusherHolds(s, step, f);
    }
  }

  lemma FlusherFrame(s: State, step: Step)
    requires Enabled(s, step) && !step.Thread? && !step.Create?
    ensures var s' := Apply(s, step); s'.local == s.local && s'.current == s.current && s'.vs.Keys == s.vs.Keys
  {
  }

  lemma FlusherVcpus(s: State, step: Step, v: nat)
    requires v in s.vs && VcpuOk(s.vs[v]) && Enabled(s, step) && !step.Thread? && !step.Create?
    ensures var s' := Apply(s, step);
      v in s'.vs && VcpuOk(s'.vs[v]) && s'.vs[v] == s.vs[v].(flush := s'.vs[v].flush, mode := s'.vs[v].mode)
  {
  }

  lemma FlusherStep(s: State, step: Step)
    requires Inv(s) && Enabled(s, step) && !step.Thread? && !step.Create?
    ensures Inv(Apply(s, step))
  {
    hide Exclusive, Residents, Locals, Currents, VcpuOk, Apply, Enabled;
    var s' := Apply(s, step);
    FlusherExclusive(s, step);
    FlusherFrame(s, step);
    forall v | v in s.vs
      ensures VcpuOk(s'.vs[v]) && s'.vs[v] == s.vs[v].(flush := s'.vs[v].flush, mode := s'.vs[v].mode)
    {
      FlusherVcpus(s, step, v);
    }
    SameVcpus(s, s');
  }

  lemma AnyStep(s: State, step: Step)
    requires Inv(s) && Enabled(s, step)
    ensures Inv(Apply(s, step))
  {
    hide Exclusive, Vcpus, Residents, Locals, Currents, Apply, Enabled;
    match step
    case Thread(v, a) =>
      ThreadExclusive(s, v, a);
      ThreadVcpus(s, v, a);
      ThreadResidents(s, v, a);
      ThreadLocals(s, v, a);
      ThreadCurrents(s, v, a);
    case Create(v) => CreateStep(s, v);
    case _ => FlusherStep(s, step);
  }

  // ---- whole runs ----

  ghost predicate IsRun(states: seq<State>, steps: seq<Step>) {
    && |states| == |steps| + 1 && Init(states[0])
    && forall i :: 0 <= i < |steps| ==> Enabled(states[i], steps[i]) && states[i + 1] == Apply(states[i], steps[i])
  }

  lemma {:induction false} RunInv(states: seq<State>, steps: seq<Step>, n: nat)
    requires IsRun(states, steps) && n < |states|
    ensures Inv(states[n])
  {
    hide Exclusive, VcpuOk, LocalOk, Resident, Apply, Enabled;
    if n == 0 {
      assert Exclusive(states[0]) by { NoHolders(states[0]); }
    } else {
      RunInv(states, steps, n - 1);
      AnyStep(states[n - 1], steps[n - 1]);
    }
  }

  lemma NoHolders(s: State)
    requires s.vs == map[] && s.fs == map[]
    ensures Exclusive(s)
  {
  }

  /** A VMCS is active on at most one CPU, and that is vcpu->cpu at every moment but the one between VMPTRLD
      and the write of vcpu->cpu. */
  lemma ActiveWhereNamed(states: seq<State>, steps: seq<Step>, n: nat, v: nat)
    requires IsRun(states, steps) && n < |states| && v in states[n].vs
    ensures var x := states[n].vs[v];
      forall c, d :: c in x.active && d in x.active ==> c == d && (if x.pc.Pointed? then c == x.on else c == x.cpu)
  {
    hide Init, Exclusive, Residents, Locals, Currents, Apply, Enabled;
    RunInv(states, steps, n);
    assert VcpuOk(states[n].vs[v]);
  }

  /** VMPTRLD is only done to a VMCS that is active nowhere else, VMCLEAR only on the CPU where it is active, and the
      helper runs on the CPU that vcpu->cpu names. */
  lemma LoadsAreLegal(states: seq<State>, steps: seq<Step>, n: nat)
    requires IsRun(states, steps) && n < |steps| && steps[n].Thread?
    ensures var x, a := states[n].vs[steps[n].v], steps[n].a;
      && (a.LoadSame? || a.Point? ==> x.active <= {x.on})
      && (a.Helper? ==> x.pc.to == x.cpu && x.active <= {x.pc.to} && After(x, a).active == {})
      && (a.Destroy? ==> x.active <= {x.on})
  {
    hide Init, Exclusive, Residents, Locals, Currents, Apply;
    RunInv(states, steps, n);
    assert Enabled(states[n], steps[n]);
    assert VcpuOk(states[n].vs[steps[n].v]);
  }

  /** vmx_local_vcpu names v on c only while v is being loaded there or its VMCS is current there. */
  lemma LocalIsCurrent(states: seq<State>, steps: seq<Step>, n: nat, c: int)
    requires IsRun(states, steps) && n < |states| && c in states[n].local
    ensures var s, v := states[n], states[n].local[c];
      && v in s.vs && !s.vs[v].life.Gone?
      && ((MidLoad(s.vs[v].pc) && s.vs[v].on == c) || (IsCurrent(s, c, v) && s.vs[v].cpu == c))
  {
    hide Init, Exclusive, Residents, Currents, Apply, Enabled;
    RunInv(states, steps, n);
    var s, v := states[n], states[n].local[c];
    assert LocalOk(s, c);
    assert VcpuOk(s.vs[v]);
  }

  /** At every VM entry the vcpu's own VMCS is current on the CPU it runs on, and the choice between VMLAUNCH and
      VMRESUME matches the VMCS's launch state. */
  lemma EntersRight(states: seq<State>, steps: seq<Step>, n: nat, v: nat)
    requires IsRun(states, steps) && n < |states| && v in states[n].vs && states[n].vs[v].pc.Checked?
    ensures var x := states[n].vs[v];
      IsCurrent(states[n], x.on, v) && x.cpu == x.on && x.active == {x.on} && x.launched == x.hwLaunched
  {
    hide Init, Exclusive, Locals, Apply, Enabled;
    RunInv(states, steps, n);
    assert VcpuOk(states[n].vs[v]) && Resident(states[n], v);
  }

  /** Nothing refers to a destroyed vcpu or to its VMCS. */
  lemma NoDangling(states: seq<State>, steps: seq<Step>, n: nat, v: nat)
    requires IsRun(states, steps) && n < |states| && v in states[n].vs && states[n].vs[v].life.Gone?
    ensures var s := states[n];
      s.vs[v].active == {} && v !in s.local.Values && v !in s.current.Values
  {
    hide Init, Exclusive, Residents, Apply, Enabled;
    RunInv(states, steps, n);
    var s := states[n];
    assert VcpuOk(s.vs[v]);
    forall c | c in s.local ensures s.local[c] != v { assert LocalOk(s, c); }
    forall c | c in s.current ensures s.current[c] != v { assert c in s.vs[s.current[c]].active; }
  }
}
