// What svm.c does over whole runs with ASIDs, the VMCB and the handshake of a flush, said of the steps of the run and
// not of the functions that take them (svm.c:204-244, svm.c:1176-1200, svm.c:1690-1706, svm.c:1818-1942,
// svm.c:2293-2400).

module SvmRuns {
  import opened SvmVmcb
  import opened SvmEntry
  import V = VmxEntry

  // ---- ASIDs ----

  /** The step is a VMRUN of v on CPU c. */
  predicate RunsOn(s: State, step: Step, v: nat, c: int) {
    step.Thread? && step.v == v && step.a.Vmrun? && v in s.vs && s.vs[v].x.cpu == c
  }

  /** A vcpu of the CPU's present generation keeps its ASID over VMRUN, and the CPU gives none out. */
  lemma AsidKept(states: seq<State>, steps: seq<Step>, n: nat, v: nat, c: int)
    requires IsRun(states, steps) && n < |steps| && RunsOn(states[n], steps[n], v, c)
    requires IsLive(states[n], states[n].vs[v].x)
    ensures v in states[n + 1].vs && states[n + 1].cpus == states[n].cpus
    ensures var x, y := states[n].vs[v].x, states[n + 1].vs[v].x;
      && y.asid == x.asid && y.generation == x.generation && y.ctl == x.ctl
      && (x.mem.asid == x.asid ==> y.clean == x.clean)
  {
    hide Effective;
    assert Enabled(states[n], steps[n]);
  }

  /** Another gets the CPU's next ASID while there is one. */
  lemma AsidGiven(states: seq<State>, steps: seq<Step>, n: nat, v: nat, c: int)
    requires IsRun(states, steps) && n < |steps| && RunsOn(states[n], steps[n], v, c) && c in states[n].cpus
    requires !IsLive(states[n], states[n].vs[v].x) && states[n].cpus[c].next <= states[n].cpus[c].max
    ensures v in states[n + 1].vs && c in states[n + 1].cpus && IsLive(states[n + 1], states[n + 1].vs[v].x)
    ensures states[n + 1].vs[v].x.asid == states[n].cpus[c].next
    ensures states[n + 1].cpus[c].next == states[n].cpus[c].next + 1
    ensures states[n + 1].cpus[c].generation == states[n].cpus[c].generation
    ensures states[n + 1].vs[v].x.ctl == states[n].vs[v].x.ctl
  {
    hide Effective;
    assert Enabled(states[n], steps[n]);
  }

  /** A CPU starts a generation exactly when it has to give an ASID out and has none left; then it gives out its first
      and drops every translation it has cached. */
  lemma GenerationIff(states: seq<State>, steps: seq<Step>, n: nat, c: int)
    requires IsRun(states, steps) && n < |steps| && c in states[n].cpus
    ensures c in states[n + 1].cpus
    ensures var d, d' := states[n].cpus[c], states[n + 1].cpus[c];
      && (d'.generation != d.generation <==>
          d.next > d.max && exists v :: RunsOn(states[n], steps[n], v, c) && !IsLive(states[n], states[n].vs[v].x))
      && (d'.generation != d.generation ==>
          && d'.generation == d.generation + 1 && d'.next == d.min + 1 && Tlb(states[n + 1], c) == {}
          && states[n + 1].vs[steps[n].v].x.asid == d.min && Asid !in states[n + 1].vs[steps[n].v].x.clean)
      && d'.min == d.min && d'.max == d.max
  {
    hide Effective, After, Free, Unlocked, IrqsOn, V.Kicks;
    var s, step := states[n], steps[n];
    assert Enabled(s, step);
    if step.Thread? {
      if step.a.Vmrun? && s.vs[step.v].x.cpu == c { RunGeneration(s, step.v, step.a.cr2); }
    } else {
      OtherFrame(s, step);
    }
  }

  lemma RunGeneration(s: State, v: nat, cr2: nat)
    requires Enabled(s, Thread(v, Vmrun(cr2)))
    ensures RunsOn(s, Thread(v, Vmrun(cr2)), v, s.vs[v].x.cpu)
    ensures var s', c := Apply(s, Thread(v, Vmrun(cr2))), s.vs[v].x.cpu;
      && (s'.cpus[c].generation != s.cpus[c].generation <==> !IsLive(s, s.vs[v].x) && s.cpus[c].next > s.cpus[c].max)
      && (s'.cpus[c].generation != s.cpus[c].generation ==>
          && s'.cpus[c].generation == s.cpus[c].generation + 1 && s'.cpus[c].next == s.cpus[c].min + 1
          && Tlb(s', c) == {} && s'.vs[v].x.asid == s.cpus[c].min && Asid !in s'.vs[v].x.clean)
      && s'.cpus[c].min == s.cpus[c].min && s'.cpus[c].max == s.cpus[c].max
  {
    hide Effective;
  }

  /** VMRUN drops no translation of another ASID unless it starts a generation, and none at all if no flush is set. */
  lemma RunKeeps(states: seq<State>, steps: seq<Step>, n: nat, v: nat, c: int, e: Entry)
    requires IsRun(states, steps) && n < |steps| && RunsOn(states[n], steps[n], v, c) && e in Tlb(states[n], c)
    requires c in states[n].cpus
    requires IsLive(states[n], states[n].vs[v].x) || states[n].cpus[c].next <= states[n].cpus[c].max
    ensures v in states[n + 1].vs
    ensures e in Tlb(states[n + 1], c) <==>
      states[n].vs[v].x.ctl.DoNothing? || e.asid != states[n + 1].vs[v].x.asid
  {
    hide Effective, Slots, Asids, Entries, Exclusive, Cpus, Init;
    assert Enabled(states[n], steps[n]);
    RunInv(states, steps, n);
    AtRun(states[n], v, steps[n].a.cr2);
    OkFacts(states[n], v);
  }

  // ---- the VMCB ----

  /** The actions that change what VMRUN will find in the groups the host works on. */
  predicate Touches(a: Action) { a.SetIntercept? || a.ClrIntercept? || a.SetVintr? || a.ClearVintr? || a.Exit? }

  predicate TouchedBy(step: Step, v: nat) { step.Thread? && step.v == v && Touches(step.a) }

  predicate SameControls(m: Fields, n: Fields) {
    m.intercepts == n.intercepts && m.virq == n.virq && m.prio == n.prio && m.vector == n.vector && m.rest == n.rest
  }

  lemma ControlsStep(s: State, step: Step, v: nat)
    requires Enabled(s, step) && v in s.vs && !TouchedBy(step, v)
    ensures v in Apply(s, step).vs && SameControls(s.vs[v].x.mem, Apply(s, step).vs[v].x.mem)
  {
    hide Effective, Free, Unlocked, IrqsOn, V.Kicks;
    if step.Thread? && step.v == v {
      OwnControls(s, v, s.vs[v], step.a);
    } else if !step.Thread? {
      OtherFrame(s, step);
      assert Nudged(s.vs[v], Apply(s, step).vs[v]);
    }
  }

  lemma OwnControls(s: State, v: nat, t: Slot, a: Action)
    requires Can(s, t, a) && !Touches(a)
    ensures SameControls(t.x.mem, After(s, v, t, a).x.mem)
  {
    hide Effective, Free, Unlocked;
  }

  lemma {:induction false} ControlsKept(states: seq<State>, steps: seq<Step>, i: nat, k: nat, v: nat)
    requires IsRun(states, steps) && i <= k < |states| && v in states[i].vs
    requires forall j :: i <= j < k ==> !TouchedBy(steps[j], v)
    ensures v in states[k].vs && SameControls(states[i].vs[v].x.mem, states[k].vs[v].x.mem)
  {
    hide Apply, Enabled;
    if i < k {
      ControlsKept(states, steps, i, k - 1, v);
      assert Enabled(states[k - 1], steps[k - 1]);
      ControlsStep(states[k - 1], steps[k - 1], v);
    }
  }

  /** What VMRUN at step k finds after the host's last change of the VMCB at step i: a set intercept is set, a cleared
      one clear, a window request has V_IRQ with top priority, vector 0 and its intercept, a dropped one neither;
      nothing else has changed, and CR2 is the one the vcpu had. */
  lemma RunFinds(states: seq<State>, steps: seq<Step>, i: nat, k: nat, v: nat)
    requires IsRun(states, steps) && i < k < |steps| && v in states[i].vs && TouchedBy(steps[i], v)
    requires steps[k].Thread? && steps[k].v == v && steps[k].a.Vmrun?
    requires forall j :: i < j < k ==> !TouchedBy(steps[j], v)
    ensures v in states[k + 1].vs
    ensures var m, f := states[i].vs[v].x.mem, states[k + 1].vs[v].seen;
      && f.cr2 == steps[k].a.cr2
      && match steps[i].a
         case SetIntercept(bit) =>
           SameControls(f, m.(intercepts := f.intercepts)) && f.intercepts == m.intercepts + {bit}
         case ClrIntercept(bit) =>
           SameControls(f, m.(intercepts := f.intercepts)) && f.intercepts == m.intercepts - {bit}
         case SetVintr =>
           f.virq && f.prio == 15 && f.vector == 0 && f.intercepts == m.intercepts + {100} && f.rest == m.rest
         case ClearVintr =>
           !f.virq && f.prio == 0 && f.vector == 0 && f.intercepts == m.intercepts - {100} && f.rest == m.rest
         case Exit(left) => SameControls(f, left)
         case _ => true
  {
    hide Apply, Init, Effective;
    assert Enabled(states[i], steps[i]) && Enabled(states[k], steps[k]);
    TouchStep(states[i], v, steps[i].a);
    ControlsKept(states, steps, i + 1, k, v);
    FoundStep(states[k], v, steps[k].a.cr2);
    EffectiveState(states, steps, k + 1, v);
  }

  lemma TouchStep(s: State, v: nat, a: Action)
    requires Enabled(s, Thread(v, a)) && Touches(a)
    ensures v in Apply(s, Thread(v, a)).vs
    ensures var m, f := s.vs[v].x.mem, Apply(s, Thread(v, a)).vs[v].x.mem;
      match a
      case SetIntercept(bit) => SameControls(f, m.(intercepts := f.intercepts)) && f.intercepts == m.intercepts + {bit}
      case ClrIntercept(bit) => SameControls(f, m.(intercepts := f.intercepts)) && f.intercepts == m.intercepts - {bit}
      case SetVintr =>
        f.virq && f.prio == 15 && f.vector == 0 && f.intercepts == m.intercepts + {100} && f.rest == m.rest
      case ClearVintr =>
        !f.virq && f.prio == 0 && f.vector == 0 && f.intercepts == m.intercepts - {100} && f.rest == m.rest
      case Exit(left) => SameControls(f, left)
      case _ => true
    ensures !a.Exit? ==>
      forall g :: g in Apply(s, Thread(v, a)).vs[v].x.clean <==>
        g in s.vs[v].x.clean && !g.Intercepts? && !(g.Intr? && (a.SetVintr? || a.ClearVintr?))
  {
    hide Free, Unlocked;
  }

  lemma FoundStep(s: State, v: nat, cr2: nat)
    requires Enabled(s, Thread(v, Vmrun(cr2)))
    ensures var s' := Apply(s, Thread(v, Vmrun(cr2)));
      && v in s'.vs && s'.vs[v].pc.Guest? && s'.vs[v].x.mem.cr2 == cr2 && SameControls(s.vs[v].x.mem, s'.vs[v].x.mem)
  {
    hide Effective;
  }

  /** From an exit until the host changes the VMCB or the vcpu moves, every group is marked clean but the interrupt
      one and CR2, and no flush is set unless one was asked for. */
  lemma {:induction false} CleanSince(states: seq<State>, steps: seq<Step>, i: nat, k: nat, v: nat)
    requires IsRun(states, steps) && i < k < |states| && steps[i].Thread? && steps[i].v == v && steps[i].a.Exit?
    requires forall j :: i < j < k ==> !TouchedBy(steps[j], v) && !Runs(steps[j], v) && !Leaves(states[j], steps[j], v)
    ensures v in states[k].vs && (forall g :: g in states[k].vs[v].x.clean <==> !g.Intr? && !g.Cr2?)
    ensures states[k].vs[v].x.ctl.FlushAsid? <==> exists j :: i < j < k && steps[j] == Thread(v, FlushTlb)
    ensures !states[k].vs[v].x.ctl.FlushAll?
  {
    hide Apply, Enabled;
    assert Enabled(states[k - 1], steps[k - 1]);
    if i + 1 == k {
      ExitCleans(states[i], v, steps[i].a.left);
    } else {
      CleanSince(states, steps, i, k - 1, v);
      CleanStep(states[k - 1], steps[k - 1], v);
      if steps[k - 1] == Thread(v, FlushTlb) { assert i < k - 1 < k; }
    }
  }

  predicate Runs(step: Step, v: nat) { step.Thread? && step.v == v && step.a.Vmrun? }

  predicate Leaves(s: State, step: Step, v: nat) {
    step.Thread? && step.v == v && step.a.Load? && v in s.vs && step.a.c != s.vs[v].x.cpu
  }

  lemma ExitCleans(s: State, v: nat, left: Fields)
    requires Enabled(s, Thread(v, Exit(left)))
    ensures var s' := Apply(s, Thread(v, Exit(left)));
      v in s'.vs && s'.vs[v].x.ctl.DoNothing? && forall g :: g in s'.vs[v].x.clean <==> !g.Intr? && !g.Cr2?
  {
  }

  lemma CleanStep(s: State, step: Step, v: nat)
    requires Enabled(s, step) && v in s.vs && !TouchedBy(step, v) && !Runs(step, v) && !Leaves(s, step, v)
    ensures var s' := Apply(s, step);
      && v in s'.vs && s'.vs[v].x.clean == s.vs[v].x.clean
      && s'.vs[v].x.ctl == if step == Thread(v, FlushTlb) then FlushAsid else s.vs[v].x.ctl
  {
    hide Effective, Free, Unlocked, IrqsOn, V.Kicks;
    if !step.Thread? {
      OtherFrame(s, step);
      assert Nudged(s.vs[v], Apply(s, step).vs[v]);
    }
  }

  // ---- the handshake ----

  /** The step is a cmpxchg by a flush on the mode of v. */
  predicate Kicked(s: State, step: Step, v: nat) {
    step.Kick? && step.f in s.fs && V.Kicks(s.fs[step.f]) && s.fs[step.f].phase.v == v
  }

  /** What any step but its own SetMode does to the mode of a vcpu in the entry section. */
  lemma ModeStep(s: State, step: Step, v: nat)
    requires Enabled(s, step) && v in s.vs && step != Thread(v, SetMode)
    ensures v in Apply(s, step).vs
    ensures var x, y := s.vs[v], Apply(s, step).vs[v];
      y.pc.InMode? ==> x.pc.InMode? && y.mode == (if Kicked(s, step, v) && x.mode.InGuest? then V.Exiting else x.mode)
  {
    hide Free, IrqsOn, Unlocked, Effective, CpusAfter, TlbAfter, CacheAfter;
  }

  lemma SetModeStep(s: State, v: nat)
    requires Enabled(s, Thread(v, SetMode))
    ensures v in Apply(s, Thread(v, SetMode)).vs && Apply(s, Thread(v, SetMode)).vs[v].mode.InGuest?
  {
    hide Effective;
  }

  lemma KickStep(s: State, f: nat, v: nat)
    requires Enabled(s, Kick(f)) && Kicked(s, Kick(f), v) && s.vs[v].mode.InGuest?
    ensures v in Apply(s, Kick(f)).vs && Apply(s, Kick(f)).vs[v].mode.Exiting?
  {
  }

  lemma {:induction false} Held(states: seq<State>, steps: seq<Step>, n: nat, k: nat, v: nat)
    requires IsRun(states, steps) && n <= k < |states| && v in states[n].vs
    requires states[n].vs[v].mode.Exiting? || !states[n].vs[v].pc.InMode?
    requires forall i :: n <= i < k ==> steps[i] != Thread(v, SetMode)
    ensures v in states[k].vs && (states[k].vs[v].mode.Exiting? || !states[k].vs[v].pc.InMode?)
  {
    hide Apply, Enabled;
    if n < k {
      Held(states, steps, n, k - 1, v);
      assert Enabled(states[k - 1], steps[k - 1]);
      ModeStep(states[k - 1], steps[k - 1], v);
    }
  }

  /** A vcpu in guest mode that a flush kicks does not get past the look at its mode before it has gone round and set
      the mode again. */
  lemma KickStops(states: seq<State>, steps: seq<Step>, n: nat, k: nat, v: nat)
    requires IsRun(states, steps) && n < k < |steps| && Kicked(states[n], steps[n], v)
    requires v in states[n].vs && states[n].vs[v].mode.InGuest? && steps[k] == Thread(v, CheckMode)
    ensures exists i :: n < i < k && steps[i] == Thread(v, SetMode)
  {
    hide Apply;
    assert Enabled(states[n], steps[n]) && Enabled(states[k], steps[k]);
    KickStep(states[n], steps[n].f, v);
    if forall i :: n < i < k ==> steps[i] != Thread(v, SetMode) {
      Held(states, steps, n + 1, k, v);
    }
  }

  lemma {:induction false} ModeSince(states: seq<State>, steps: seq<Step>, i: nat, k: nat, v: nat)
    requires IsRun(states, steps) && i < k < |states| && steps[i] == Thread(v, SetMode)
    requires forall j :: i < j < k ==> steps[j] != Thread(v, SetMode)
    ensures v in states[k].vs
    ensures states[k].vs[v].pc.InMode? ==>
      states[k].vs[v].mode == if exists j :: i < j < k && Kicked(states[j], steps[j], v) then V.Exiting else V.InGuest
  {
    hide Apply, Enabled;
    assert Enabled(states[k - 1], steps[k - 1]);
    if i + 1 == k {
      SetModeStep(states[i], v);
    } else {
      ModeSince(states, steps, i, k - 1, v);
      ModeStep(states[k - 1], steps[k - 1], v);
      if Kicked(states[k - 1], steps[k - 1], v) { assert i < k - 1 < k; }
    }
  }

  /** The look at the mode succeeds exactly when no flush has kicked the vcpu since it set its mode. */
  lemma CheckModeIff(states: seq<State>, steps: seq<Step>, i: nat, k: nat, v: nat)
    requires IsRun(states, steps) && i < k < |states| && steps[i] == Thread(v, SetMode)
    requires forall j :: i < j < k ==> steps[j] != Thread(v, SetMode)
    requires v in states[k].vs && states[k].vs[v].pc.InMode?
    ensures Enabled(states[k], Thread(v, CheckMode)) <==> forall j :: i < j < k ==> !Kicked(states[j], steps[j], v)
  {
    hide Apply;
    ModeSince(states, steps, i, k, v);
  }

  /** The step leaves the request bit clear. */
  predicate Clears(step: Step, v: nat) {
    (step.Create? && step.v == v) || step == Thread(v, TakeRequest)
  }

  lemma RequestStep(s: State, step: Step, v: nat)
    requires Enabled(s, step) && v in s.vs && !Clears(step, v)
    ensures v in Apply(s, step).vs && (Apply(s, step).vs[v].request <==> s.vs[v].request || (step.Ask? && step.v == v))
  {
    hide Free, IrqsOn, Unlocked, Effective, CpusAfter, TlbAfter, CacheAfter;
  }

  lemma ClearStep(s: State, step: Step, v: nat)
    requires Enabled(s, step) && Clears(step, v)
    ensures v in Apply(s, step).vs && !Apply(s, step).vs[v].request
  {
    hide Effective;
  }

  /** The request bit is set exactly when a flush has asked since the vcpu last took the bit. */
  lemma {:induction false} RequestIff(states: seq<State>, steps: seq<Step>, i: nat, k: nat, v: nat)
    requires IsRun(states, steps) && i < k < |states| && Clears(steps[i], v)
    requires forall j :: i < j < k ==> !Clears(steps[j], v)
    ensures v in states[k].vs
    ensures states[k].vs[v].request <==> exists j :: i < j < k && steps[j].Ask? && steps[j].v == v
  {
    hide Apply, Enabled;
    assert Enabled(states[k - 1], steps[k - 1]);
    if i + 1 == k {
      ClearStep(states[i], steps[i], v);
    } else {
      RequestIff(states, steps, i, k - 1, v);
      RequestStep(states[k - 1], steps[k - 1], v);
      if steps[k - 1].Ask? { assert i < k - 1 < k; }
    }
  }

  predicate InGuestMode(m: V.Mode) { m.InGuest? || m.Exiting? }

  predicate Placed(t: Slot) { IrqsOff(t.pc) <==> InGuestMode(t.mode) }

  lemma OwnPlace(s: State, v: nat, t: Slot, a: Action)
    requires Can(s, t, a) && Placed(t)
    ensures Placed(After(s, v, t, a))
  {
    hide Free, Unlocked, Effective;
  }

  lemma PlaceStep(s: State, step: Step, v: nat)
    requires Enabled(s, step) && v in Apply(s, step).vs && (v in s.vs ==> Placed(s.vs[v]))
    ensures Placed(Apply(s, step).vs[v])
  {
    hide Free, IrqsOn, Unlocked, Effective, After, CpusAfter, TlbAfter, CacheAfter, Can, V.Kicks;
    if step.Thread? {
      if step.v == v { OwnPlace(s, v, s.vs[v], step.a); }
    } else if v in s.vs {
      OtherFrame(s, step);
      assert Nudged(s.vs[v], Apply(s, step).vs[v]);
    }
  }

  /** A vcpu is in guest mode, or told to leave it, exactly from the mode change to the exit. */
  lemma {:induction false} ModeIsPlace(states: seq<State>, steps: seq<Step>, n: nat, v: nat)
    requires IsRun(states, steps) && n < |states| && v in states[n].vs
    ensures IrqsOff(states[n].vs[v].pc) <==> InGuestMode(states[n].vs[v].mode)
  {
    hide Apply, Enabled;
    if n > 0 {
      if v in states[n - 1].vs { ModeIsPlace(states, steps, n - 1, v); }
      assert Enabled(states[n - 1], steps[n - 1]);
      PlaceStep(states[n - 1], steps[n - 1], v);
    }
  }

  /** The flush f, about to leave a vcpu, has read CPU c for it and finds it not outside guest mode. */
  predicate SendsTo(s: State, f: nat, c: int) {
    && f in s.fs && V.Kicks(s.fs[f]) && s.fs[f].phase.cpu == c
    && s.fs[f].phase.v in s.vs && !s.vs[s.fs[f].phase.v].mode.OutsideGuest?
  }

  lemma MaskStep(s: State, step: Step, f: nat)
    requires Enabled(s, step) && f in s.fs
    ensures f in Apply(s, step).fs
    ensures var x, y := s.fs[f], Apply(s, step).fs[f];
      && (y.phase.Lock? || V.Scanning(y.phase) ==> x.phase.Lock? || V.Scanning(x.phase))
      && (forall c :: c in y.mask <==>
            (c in x.mask && !(step == Ack(f, c))) || (step == Kick(f) && SendsTo(s, f, c)))
      && (y.phase.Done? ==> y.mask == {} || x.phase.Done?)
      && (step.Ack? && step.f == f ==> x.phase.Wait?)
  {
    hide Free, IrqsOn, Unlocked, Can, After, CpusAfter, TlbAfter, CacheAfter;
  }

  lemma StartMask(s: State, step: Step)
    requires Enabled(s, step) && step.FlushStart?
    ensures step.f in Apply(s, step).fs
    ensures Apply(s, step).fs[step.f].mask == if step.nomask then s.cpus.Keys - {step.me} else {}
  {
    hide Free;
  }

  lemma {:induction false} Started(states: seq<State>, steps: seq<Step>, i: nat, k: nat)
    requires IsRun(states, steps) && i < k < |states| && steps[i].FlushStart?
    ensures steps[i].f in states[k].fs
  {
    hide Apply, Enabled;
    assert Enabled(states[k - 1], steps[k - 1]);
    if i + 1 == k {
      StartMask(states[i], steps[i]);
    } else {
      Started(states, steps, i, k - 1);
      MaskStep(states[k - 1], steps[k - 1], steps[i].f);
    }
  }

  /** During the scan the mask is exactly the CPUs on which the flush found a vcpu not outside guest mode, or every
      other CPU if there is no mask. */
  lemma {:induction false} MaskIff(states: seq<State>, steps: seq<Step>, i: nat, k: nat, f: nat, c: int)
    requires IsRun(states, steps) && i < k < |states| && steps[i].FlushStart? && steps[i].f == f
    requires f in states[k].fs && (states[k].fs[f].phase.Lock? || V.Scanning(states[k].fs[f].phase))
    ensures c in states[k].fs[f].mask <==>
      (steps[i].nomask && c in states[i].cpus && c != steps[i].me)
      || exists j :: i < j < k && steps[j] == Kick(f) && SendsTo(states[j], f, c)
  {
    hide Apply, Enabled;
    assert Enabled(states[k - 1], steps[k - 1]);
    if i + 1 == k {
      StartMask(states[i], steps[i]);
    } else {
      Started(states, steps, i, k - 1);
      MaskStep(states[k - 1], steps[k - 1], f);
      MaskIff(states, steps, i, k - 1, f, c);
    }
  }

  /** When a flush returns, every CPU it sent the IPI to has answered it. */
  lemma {:induction false} AllAnswer(states: seq<State>, steps: seq<Step>, i: nat, k: nat, f: nat, c: int)
    requires IsRun(states, steps) && i <= k < |states| && f in states[i].fs && states[i].fs[f].phase.Wait?
    requires c in states[i].fs[f].mask && (forall j :: i <= j < k ==> steps[j] != Ack(f, c))
    ensures f in states[k].fs && c in states[k].fs[f].mask && !states[k].fs[f].phase.Done?
  {
    hide Apply, Enabled;
    if i < k {
      AllAnswer(states, steps, i, k - 1, f, c);
      assert Enabled(states[k - 1], steps[k - 1]);
      MaskStep(states[k - 1], steps[k - 1], f);
    }
  }

  lemma LookStep(s: State, v: nat)
    requires v in s.vs
    ensures var x := s.vs[v];
      && (x.pc.Loaded? ==>
          && (Enabled(s, Thread(v, TakeRequest)) <==> x.request) && (Enabled(s, Thread(v, NoRequest)) <==> !x.request))
      && (x.pc.ModeOk? ==> (Enabled(s, Thread(v, CheckRequests)) <==> !x.request))
  {
  }

  /** Neither look at the requests passes a vcpu that was asked since it last took the bit. */
  lemma LooksSee(states: seq<State>, steps: seq<Step>, i: nat, k: nat, v: nat)
    requires IsRun(states, steps) && i < k < |states| && Clears(steps[i], v)
    requires forall j :: i < j < k ==> !Clears(steps[j], v)
    ensures v in states[k].vs
    ensures var t, asked := states[k].vs[v], exists j :: i < j < k && steps[j].Ask? && steps[j].v == v;
      && (t.pc.Loaded? ==>
          && (Enabled(states[k], Thread(v, TakeRequest)) <==> asked)
          && (Enabled(states[k], Thread(v, NoRequest)) <==> !asked))
      && (t.pc.ModeOk? ==> (Enabled(states[k], Thread(v, CheckRequests)) <==> !asked))
  {
    hide Apply, Enabled, Clears;
    RequestIff(states, steps, i, k, v);
    LookStep(states[k], v);
  }

  /** The actions that set the mode. */
  predicate SetsMode(a: Action) { a.Root? || a.SetMode? || a.Abort? || a.Exit? }

  predicate ModeSetBy(step: Step, v: nat) {
    (step.Create? && step.v == v) || (step.Thread? && step.v == v && SetsMode(step.a))
  }

  /** The mode a step of that kind leaves, the mode change of an entry aside. */
  function ModeLeft(step: Step): V.Mode
    requires step.Create? || step.Thread?
  {
    if step.Create? then V.OutsideRoot else if step.a.Root? then step.a.mode else V.OutsideGuest
  }

  lemma ModeKept(s: State, step: Step, v: nat)
    requires Enabled(s, step) && v in s.vs && !ModeSetBy(step, v) && !s.vs[v].mode.InGuest?
    ensures v in Apply(s, step).vs && Apply(s, step).vs[v].mode == s.vs[v].mode
  {
    hide Free, IrqsOn, Unlocked, Effective, CpusAfter, TlbAfter, CacheAfter, V.Kicks;
    if !step.Thread? {
      OtherFrame(s, step);
      assert Nudged(s.vs[v], Apply(s, step).vs[v]);
    }
  }

  lemma ModeSet(s: State, step: Step, v: nat)
    requires Enabled(s, step) && ModeSetBy(step, v) && (step.Thread? ==> !step.a.SetMode?)
    ensures v in Apply(s, step).vs && Apply(s, step).vs[v].mode == ModeLeft(step) && !ModeLeft(step).InGuest?
  {
    hide Free, Unlocked, Effective;
  }

  /** After an exit, or an entry given up, the vcpu is outside guest mode, after the ioctl has set it in the root mode
      it was given, and from its creation outside root mode, until its thread sets the mode again. */
  lemma {:induction false} ModeStays(states: seq<State>, steps: seq<Step>, i: nat, k: nat, v: nat)
    requires IsRun(states, steps) && i < k < |states| && ModeSetBy(steps[i], v)
    requires steps[i].Thread? ==> !steps[i].a.SetMode?
    requires forall j :: i < j < k ==> !ModeSetBy(steps[j], v)
    ensures v in states[k].vs
    ensures states[k].vs[v].mode == ModeLeft(steps[i])
    ensures !states[k].vs[v].mode.InGuest?
  {
    hide Apply, Enabled;
    assert Enabled(states[k - 1], steps[k - 1]);
    if i + 1 == k {
      ModeSet(states[i], steps[i], v);
    } else {
      ModeStays(states, steps, i, k - 1, v);
      ModeKept(states[k - 1], steps[k - 1], v);
    }
  }

  /** Where an action takes the thread: it gives the CPU up exactly by an unload, an entry given up or an exit, and is
      ready for the guest exactly when its requests are done. */
  lemma PlaceIff(s: State, v: nat, t: Slot, a: Action)
    requires Can(s, t, a)
    ensures var y := After(s, v, t, a).pc;
      && (y.Idle? && !t.pc.Idle? <==> a.Unload? || a.Abort? || a.Exit?)
      && (y.Loaded? && !t.pc.Loaded? <==> a.Load?)
      && (y.Ready? && !t.pc.Ready? <==> a.NoRequest? || a.FlushTlb?)
      && (y.Flushing? && !t.pc.Flushing? <==> a.TakeRequest?)
      && (y.Guest? && !t.pc.Guest? <==> a.Vmrun?) && (t.pc.Guest? && !y.Guest? <==> a.Exit?)
  {
    hide Free, Unlocked, Effective;
  }
}
