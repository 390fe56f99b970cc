// What passes between a flush and a VMX vcpu, over whole runs: the request bit, the cmpxchg of the mode and the IPI
// (vmx.h:160-190, vmx.c:2486-2494, vmx.c:2593-2602, ept.c:150-190).

module Handshake {
  import opened VmxEntry
  import R = Residency

  /** The step is a cmpxchg by a flush on the mode of v. */
  predicate Kicked(s: State, step: Step, v: nat) {
    step.Kick? && step.f in s.fs && Kicks(s.fs[step.f]) && s.fs[step.f].phase.v == v
  }

  /** The step sets the request bit of v. */
  predicate Asks(step: Step, v: nat) { (step.Ask? && step.v == v) || step == Thread(v, Request) }

  /** The step leaves it clear. */
  predicate Clears(step: Step, v: nat) { step == Create(v) || step == Thread(v, TakeRequest) }

  // ---- one step ----

  /** What any step but its own SetMode does to the mode of a vcpu in the entry section. */
  lemma ModeStep(s: State, step: Step, v: nat)
    requires Enabled(s, step) && v in s.vs && step != Thread(v, SetMode)
    ensures v in Apply(s, step).vs
    ensures var x, y := s.vs[v], Apply(s, step).vs[v];
      y.pc.InMode? ==> x.pc.InMode? && y.mode == (if Kicked(s, step, v) && x.mode.InGuest? then Exiting else x.mode)
  {
    hide Free, IrqsOn, Unlocked, IsLocal, LocalAfter, CurrentAfter, TlbAfter;
  }

  lemma SetModeStep(s: State, v: nat)
    requires Enabled(s, Thread(v, SetMode))
    ensures v in Apply(s, Thread(v, SetMode)).vs && Apply(s, Thread(v, SetMode)).vs[v].mode.InGuest?
  {
  }

  lemma KickStep(s: State, f: nat, v: nat)
    requires Enabled(s, Kick(f)) && Kicked(s, Kick(f), v) && s.vs[v].mode.InGuest?
    ensures v in Apply(s, Kick(f)).vs && Apply(s, Kick(f)).vs[v].mode.Exiting?
  {
  }

  lemma RequestStep(s: State, step: Step, v: nat)
    requires Enabled(s, step) && v in s.vs && !Clears(step, v)
    ensures v in Apply(s, step).vs && (Apply(s, step).vs[v].flush <==> s.vs[v].flush || Asks(step, v))
  {
    hide Free, IrqsOn, Unlocked, IsLocal, LocalAfter, CurrentAfter, TlbAfter;
  }

  lemma ClearStep(s: State, step: Step, v: nat)
    requires Enabled(s, step) && Clears(step, v)
    ensures v in Apply(s, step).vs && !Apply(s, step).vs[v].flush
  {
  }

  predicate InSection(pc: Pc) { pc.InMode? || pc.ModeOk? || pc.Checked? || pc.Guest? }

  predicate InGuestMode(m: Mode) { m.InGuest? || m.Exiting? }

  predicate Placed(x: Vcpu) { InSection(x.pc) <==> InGuestMode(x.mode) }

  lemma OwnPlace(s: State, v: nat, x: Vcpu, a: Action)
    requires Can(s, v, x, a) && Placed(x)
    ensures Placed(After(x, a))
  {
    hide Free, IrqsOn, Unlocked, IsLocal;
  }

  lemma OtherPlace(s: State, step: Step, v: nat)
    requires Enabled(s, step) && v in s.vs && !(step.Thread? && step.v == v)
    ensures v in Apply(s, step).vs && Apply(s, step).vs[v].pc == s.vs[v].pc
    ensures InGuestMode(Apply(s, step).vs[v].mode) <==> InGuestMode(s.vs[v].mode)
  {
    hide Free, IrqsOn, Unlocked, Can, After, LocalAfter, CurrentAfter, TlbAfter;
  }

  lemma NewPlace(s: State, step: Step, v: nat)
    requires Enabled(s, step) && v !in s.vs && v in Apply(s, step).vs
    ensures Placed(Apply(s, step).vs[v])
  {
    hide Free, IrqsOn, Unlocked, Can, After, LocalAfter, CurrentAfter, TlbAfter;
  }

  lemma PlaceStep(s: State, step: Step, v: nat)
    requires Enabled(s, step) && v in Apply(s, step).vs && (v in s.vs ==> Placed(s.vs[v]))
    ensures Placed(Apply(s, step).vs[v])
  {
    if v !in s.vs {
      NewPlace(s, step, v);
    } else if step.Thread? && step.v == v {
      hide After, Can, LocalAfter, CurrentAfter, TlbAfter, Placed;
      OwnPlace(s, v, s.vs[v], step.a);
    } else {
      hide Apply, Enabled;
      OtherPlace(s, step, v);
    }
  }

  /** A flush's mask grows by the CPU it read when the vcpu is not outside, and shrinks by an answer. */
  lemma MaskStep(s: State, step: Step, f: nat)
    requires Enabled(s, step) && f in s.fs
    ensures f in Apply(s, step).fs
    ensures var x, y := s.fs[f], Apply(s, step).fs[f];
      && (y.phase.Lock? || Scanning(y.phase) ==> x.phase.Lock? || Scanning(x.phase))
      && (forall c :: c in y.mask <==>
            (c in x.mask && !(step == Ack(f, c))) || (step == Kick(f) && SendsTo(s, f, c)))
      && (y.phase.Done? ==> y.mask == {} || x.phase.Done?)
      && (step.Ack? && step.f == f ==> x.phase.Wait?)
  {
    hide Free, IrqsOn, Unlocked, Can, After, LocalAfter, CurrentAfter, TlbAfter;
  }

  /** The flush f, about to leave a vcpu, has read CPU c for it and finds it not outside guest mode. */
  predicate SendsTo(s: State, f: nat, c: int) {
    && f in s.fs && Kicks(s.fs[f]) && s.fs[f].phase.cpu == c
    && s.fs[f].phase.v in s.vs && !s.vs[s.fs[f].phase.v].mode.OutsideGuest?
  }

  // ---- whole runs ----

  /** A vcpu is in guest mode, or told to leave it, exactly from the mode change to the exit. */
  lemma {:induction false} ModeIsPlace(states: seq<State>, steps: seq<Step>, n: nat, v: nat)
    requires R.IsRun(states, steps) && n < |states| && v in states[n].vs
    ensures InSection(states[n].vs[v].pc) <==> InGuestMode(states[n].vs[v].mode)
  {
    hide Apply, Enabled;
    if n > 0 {
      if v in states[n - 1].vs { ModeIsPlace(states, steps, n - 1, v); }
      assert Enabled(states[n - 1], steps[n - 1]);
      PlaceStep(states[n - 1], steps[n - 1], v);
    }
  }

  lemma {:induction false} Held(states: seq<State>, steps: seq<Step>, n: nat, k: nat, v: nat)
    requires R.IsRun(states, steps) && n <= k < |states| && v in states[n].vs
    requires states[n].vs[v].mode.Exiting? || !states[n].vs[v].pc.InMode?
    requires forall i :: n <= i < k ==> steps[i] != Thread(v, SetMode)
    ensures v in states[k].vs && (states[k].vs[v].mode.Exiting? || !states[k].vs[v].pc.InMode?)
  {
    hide Apply, Enabled;
    if n < k {
      Held(states, steps, n, k - 1, v);
      assert Enabled(states[k - 1], steps[k - 1]);
      ModeStep(states[k - 1], steps[k - 1], v);
    }
  }

  /** A vcpu in guest mode that a flush kicks does not get past the look at its mode before it has gone round and set
      the mode again. */
  lemma KickStops(states: seq<State>, steps: seq<Step>, n: nat, k: nat, v: nat)
    requires R.IsRun(states, steps) && n < k < |steps| && Kicked(states[n], steps[n], v)
    requires v in states[n].vs && states[n].vs[v].mode.InGuest? && steps[k] == Thread(v, CheckMode)
    ensures exists i :: n < i < k && steps[i] == Thread(v, SetMode)
  {
    hide Apply;
    assert Enabled(states[n], steps[n]) && Enabled(states[k], steps[k]);
    KickStep(states[n], steps[n].f, v);
    if forall i :: n < i < k ==> steps[i] != Thread(v, SetMode) {
      Held(states, steps, n + 1, k, v);
    }
  }

  lemma {:induction false} ModeSince(states: seq<State>, steps: seq<Step>, i: nat, k: nat, v: nat)
    requires R.IsRun(states, steps) && i < k < |states| && steps[i] == Thread(v, SetMode)
    requires forall j :: i < j < k ==> steps[j] != Thread(v, SetMode)
    ensures v in states[k].vs
    ensures states[k].vs[v].pc.InMode? ==>
      states[k].vs[v].mode == if exists j :: i < j < k && Kicked(states[j], steps[j], v) then Exiting else InGuest
  {
    hide Apply, Enabled;
    assert Enabled(states[k - 1], steps[k - 1]);
    if i + 1 == k {
      SetModeStep(states[i], v);
    } else {
      ModeSince(states, steps, i, k - 1, v);
      ModeStep(states[k - 1], steps[k - 1], v);
      if Kicked(states[k - 1], steps[k - 1], v) { assert i < k - 1 < k; }
    }
  }

  /** The look at the mode succeeds exactly when no flush has kicked the vcpu since it set its mode. */
  lemma CheckModeIff(states: seq<State>, steps: seq<Step>, i: nat, k: nat, v: nat)
    requires R.IsRun(states, steps) && i < k < |states| && steps[i] == Thread(v, SetMode)
    requires forall j :: i < j < k ==> steps[j] != Thread(v, SetMode)
    requires v in states[k].vs && states[k].vs[v].pc.InMode?
    ensures Enabled(states[k], Thread(v, CheckMode)) <==> forall j :: i < j < k ==> !Kicked(states[j], steps[j], v)
  {
    hide Apply;
    ModeSince(states, steps, i, k, v);
  }

  /** The request bit is set exactly when the vcpu was asked since it last took the bit. */
  lemma {:induction false} RequestIff(states: seq<State>, steps: seq<Step>, i: nat, k: nat, v: nat)
    requires R.IsRun(states, steps) && i < k < |states| && Clears(steps[i], v)
    requires forall j :: i < j < k ==> !Clears(steps[j], v)
    ensures v in states[k].vs && (states[k].vs[v].flush <==> exists j :: i < j < k && Asks(steps[j], v))
  {
    hide Apply, Enabled;
    assert Enabled(states[k - 1], steps[k - 1]);
    if i + 1 == k {
      ClearStep(states[i], steps[i], v);
    } else {
      RequestIff(states, steps, i, k - 1, v);
      RequestStep(states[k - 1], steps[k - 1], v);
      if Asks(steps[k - 1], v) { assert i < k - 1 < k; }
    }
  }

  /** During the scan the mask is exactly the CPUs on which the flush found a vcpu not outside guest mode, or every
      other CPU if there is no mask. */
  lemma {:induction false} MaskIff(states: seq<State>, steps: seq<Step>, i: nat, k: nat, f: nat, c: int)
    requires R.IsRun(states, steps) && i < k < |states| && steps[i].FlushStart? && steps[i].f == f
    requires f in states[k].fs && (states[k].fs[f].phase.Lock? || Scanning(states[k].fs[f].phase))
    ensures c in states[k].fs[f].mask <==>
      (steps[i].nomask && c in states[i].cpus && c != steps[i].me)
      || exists j :: i < j < k && steps[j] == Kick(f) && SendsTo(states[j], f, c)
  {
    hide Apply, Enabled;
    assert Enabled(states[k - 1], steps[k - 1]);
    if i + 1 == k {
      StartMask(states[i], steps[i]);
    } else {
      Started(states, steps, i, k - 1);
      MaskStep(states[k - 1], steps[k - 1], f);
      MaskIff(states, steps, i, k - 1, f, c);
    }
  }

  lemma StartMask(s: State, step: Step)
    requires Enabled(s, step) && step.FlushStart?
    ensures step.f in Apply(s, step).fs
    ensures Apply(s, step).fs[step.f].mask == if step.nomask then s.cpus - {step.me} else {}
  {
    hide Free;
  }

  lemma {:induction false} Started(states: seq<State>, steps: seq<Step>, i: nat, k: nat)
    requires R.IsRun(states, steps) && i < k < |states| && steps[i].FlushStart?
    ensures steps[i].f in states[k].fs
  {
    hide Apply, Enabled;
    assert Enabled(states[k - 1], steps[k - 1]);
    if i + 1 == k {
      StartMask(states[i], steps[i]);
    } else {
      Started(states, steps, i, k - 1);
      MaskStep(states[k - 1], steps[k - 1], steps[i].f);
    }
  }

  /** When a flush returns, every CPU it sent the IPI to has answered it. */
  lemma {:induction false} AllAnswer(states: seq<State>, steps: seq<Step>, i: nat, k: nat, f: nat, c: int)
    requires R.IsRun(states, steps) && i <= k < |states| && f in states[i].fs && states[i].fs[f].phase.Wait?
    requires c in states[i].fs[f].mask && (forall j :: i <= j < k ==> steps[j] != Ack(f, c))
    ensures f in states[k].fs && c in states[k].fs[f].mask && !states[k].fs[f].phase.Done?
  {
    hide Apply, Enabled;
    if i < k {
      AllAnswer(states, steps, i, k - 1, f, c);
      assert Enabled(states[k - 1], steps[k - 1]);
      MaskStep(states[k - 1], steps[k - 1], f);
    }
  }

  // ---- looks and modes ----

  lemma LookStep(s: State, v: nat)
    requires v in s.vs
    ensures var x := s.vs[v];
      && (x.pc.Loaded? && x.life.Live? ==>
          && (Enabled(s, Thread(v, TakeRequest)) <==> x.flush) && (Enabled(s, Thread(v, NoRequest)) <==> !x.flush))
      && (x.pc.ModeOk? ==> (Enabled(s, Thread(v, CheckRequests)) <==> !x.flush))
  {
  }

  /** Neither look at the requests passes a vcpu that was asked since it last took the bit. */
  lemma LooksSee(states: seq<State>, steps: seq<Step>, i: nat, k: nat, v: nat)
    requires R.IsRun(states, steps) && i < k < |states| && Clears(steps[i], v)
    requires forall j :: i < j < k ==> !Clears(steps[j], v)
    ensures v in states[k].vs
    ensures var x, asked := states[k].vs[v], exists j :: i < j < k && Asks(steps[j], v);
      && (x.pc.Loaded? && x.life.Live? ==>
          && (Enabled(states[k], Thread(v, TakeRequest)) <==> asked)
          && (Enabled(states[k], Thread(v, NoRequest)) <==> !asked))
      && (x.pc.ModeOk? ==> (Enabled(states[k], Thread(v, CheckRequests)) <==> !asked))
  {
    hide Apply, Enabled, Asks, Clears;
    RequestIff(states, steps, i, k, v);
    LookStep(states[k], v);
  }

  /** The actions that set the mode. */
  predicate SetsMode(a: Action) { a.Root? || a.SetMode? || a.Abort? || a.Exit? }

  predicate ModeSetBy(step: Step, v: nat) {
    (step.Create? && step.v == v) || (step.Thread? && step.v == v && SetsMode(step.a))
  }

  /** The mode a step of that kind leaves, the mode change of an entry aside. */
  function ModeLeft(step: Step): Mode
    requires step.Create? || step.Thread?
  {
    if step.Create? then OutsideRoot else if step.a.Root? then step.a.mode else OutsideGuest
  }

  lemma ModeKept(s: State, step: Step, v: nat)
    requires Enabled(s, step) && v in s.vs && !ModeSetBy(step, v) && !s.vs[v].mode.InGuest?
    ensures v in Apply(s, step).vs && Apply(s, step).vs[v].mode == s.vs[v].mode
  {
    hide Free, IrqsOn, Unlocked, IsLocal, LocalAfter, CurrentAfter, TlbAfter;
  }

  lemma ModeSet(s: State, step: Step, v: nat)
    requires Enabled(s, step) && ModeSetBy(step, v) && (step.Thread? ==> !step.a.SetMode?)
    ensures v in Apply(s, step).vs && Apply(s, step).vs[v].mode == ModeLeft(step) && !ModeLeft(step).InGuest?
  {
    hide Free, IrqsOn, Unlocked, IsLocal;
  }

  /** After an exit, or an entry given up, the vcpu is outside guest mode, after the ioctl has set it in the root mode
      it was given, and from its creation outside root mode, until its thread sets the mode again. */
  lemma {:induction false} ModeStays(states: seq<State>, steps: seq<Step>, i: nat, k: nat, v: nat)
    requires R.IsRun(states, steps) && i < k < |states| && ModeSetBy(steps[i], v)
    requires steps[i].Thread? ==> !steps[i].a.SetMode?
    requires forall j :: i < j < k ==> !ModeSetBy(steps[j], v)
    ensures v in states[k].vs
    ensures states[k].vs[v].mode == ModeLeft(steps[i])
    ensures !states[k].vs[v].mode.InGuest?
  {
    hide Apply, Enabled;
    assert Enabled(states[k - 1], steps[k - 1]);
    if i + 1 == k {
      ModeSet(states[i], steps[i], v);
    } else {
      ModeStays(states, steps, i, k - 1, v);
      ModeKept(states[k - 1], steps[k - 1], v);
    }
  }

  /** Destroying a vcpu leaves no translation on the CPU it is done on; a flush none on its own, and no other CPU loses
      any. */
  lemma FlushesOwn(states: seq<State>, steps: seq<Step>, n: nat, v: nat, c: int)
    requires R.IsRun(states, steps) && n < |steps| && steps[n].Thread? && steps[n].v == v
    ensures v in states[n].vs
    ensures (steps[n].a.Flush? || steps[n].a.Destroy?) && c == states[n].vs[v].on ==> Stamps(states[n + 1], c) == {}
    ensures c != states[n].vs[v].on || !(steps[n].a.Flush? || steps[n].a.Destroy?) ==>
      Stamps(states[n], c) <= Stamps(states[n + 1], c)
  {
    hide After, LocalAfter, CurrentAfter, Can;
    assert Enabled(states[n], steps[n]);
  }

  /** Where an action takes the thread: it gives the CPU up exactly by a put, an entry given up, the end of an exit or a
      destroy, and is ready for the guest exactly when its requests are done. */
  lemma PlaceIff(s: State, v: nat, x: Vcpu, a: Action)
    requires Can(s, v, x, a)
    ensures var y := After(x, a);
      && (y.pc.Idle? && !x.pc.Idle? <==> a.Put? || a.Abort? || a.Leave? || a.Destroy?)
      && (y.pc.Loaded? && !x.pc.Loaded? <==> a.LoadSkip? || a.LoadSame? || a.SetCpu?)
      && (y.pc.Ready? <==> a.NoRequest? || a.Flush?) && (y.pc.Flushing? <==> a.TakeRequest?)
      && (y.pc.Guest? && !x.pc.Guest? <==> a.Enter?) && (x.pc.Guest? && !y.pc.Guest? <==> a == Exit(true))
      && (y.on == -1 && x.on != -1 ==> y.pc.Idle?) && (a.Put? || a.Abort? || a.Leave? || a.Destroy? ==> y.on == -1)
  {
    hide Free, IrqsOn, Unlocked, IsLocal;
  }
}
