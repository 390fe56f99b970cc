// Remote TLB flush (ept.c:150-190): when it returns, no vcpu runs guest code over a translation that was cached before
// the call.  Any number of flushes and vcpus, with migration, creation and vcpus that are off every CPU.

module Shootdown {
  import opened VmxEntry
  import R = Residency

  /** Every translation cached on CPU c was filled at or after time e. */
  predicate Clean(s: State, c: int, e: nat) { forall t :: t in Stamps(s, c) ==> t >= e }

  /** The flush has set the request bit of v, or its scan is over. */
  predicate Handled(x: Flusher, v: nat) {
    x.phase.Wait? || x.phase.Done? || v in x.done || ((x.phase.Asked? || x.phase.Read?) && x.phase.v == v)
  }

  /** The flush has left v behind. */
  predicate Passed(x: Flusher, v: nat) { x.phase.Wait? || x.phase.Done? || v in x.done }

  /** Past the last look at the request bits. */
  predicate Inside(pc: Pc) { pc.Checked? || pc.Guest? }

  /** A vcpu that was asked flushes before its next entry, or has a clean CPU already. */
  predicate WillFlush(s: State, x: Flusher, v: nat)
    requires v in s.vs
  {
    s.vs[v].cpu < 0 || s.vs[v].flush || s.vs[v].pc.Flushing? || Clean(s, s.vs[v].cpu, x.epoch)
  }

  predicate PairOk(s: State, x: Flusher, v: nat)
    requires v in s.vs
  {
    && (Handled(x, v) && s.vs[v].life.Live? ==> WillFlush(s, x, v))
    && (x.phase.Read? && x.phase.v == v && Inside(s.vs[v].pc) ==>
          Clean(s, s.vs[v].cpu, x.epoch) || s.vs[v].cpu == x.phase.cpu)
    && (Passed(x, v) && Inside(s.vs[v].pc) ==> Clean(s, s.vs[v].cpu, x.epoch) || s.vs[v].cpu in x.mask)
  }

  predicate FlusherOk(s: State, x: Flusher) {
    && x.epoch <= s.now
    && (x.phase.Lock? ==> x.done == {})
    && (x.phase.Done? ==> x.mask == {})
    && (x.nomask && (x.phase.Lock? || Scanning(x.phase)) ==> x.mask == s.cpus - {x.me})
  }

  predicate Pairs(s: State) { forall f, v :: f in s.fs && v in s.vs ==> PairOk(s, s.fs[f], v) }

  predicate Flushers(s: State) { forall f :: f in s.fs ==> FlusherOk(s, s.fs[f]) }

  predicate OnLine(s: State) { forall v :: v in s.vs && s.vs[v].on >= 0 ==> s.vs[v].on in s.cpus }

  predicate Inv(s: State) { R.Inv(s) && OnLine(s) && Flushers(s) && Pairs(s) }

  // ---- a step of a vcpu ----

  /** A CPU stays clean: translations are only added with the present time, or dropped. */
  lemma CleanKept(s: State, v: nat, a: Action, c: int, e: nat)
    requires Enabled(s, Thread(v, a)) && Clean(s, c, e) && e <= s.now
    ensures Clean(Apply(s, Thread(v, a)), c, e)
  {
    assert Stamps(Apply(s, Thread(v, a)), c) <= Stamps(s, c) + {s.now};
  }

  lemma FlushCleans(s: State, v: nat, e: nat)
    requires Enabled(s, Thread(v, Flush))
    ensures Clean(Apply(s, Thread(v, Flush)), s.vs[v].on, e)
  {
  }

  /** The next entry is over a flush: none is possible yet, or a flush is requested or under way. */
  predicate FlushDue(x: Vcpu) { x.cpu < 0 || x.flush || x.pc.Flushing? }

  /** What one action does to that: it goes away only by the flush itself. */
  lemma DueLocal(s: State, v: nat, x: Vcpu, a: Action)
    requires Can(s, v, x, a) && (x.pc.Pointed? ==> x.flush) && (x.life.Fresh? ==> x.cpu < 0 || x.flush)
    requires x.pc.Flushing? ==> x.cpu == x.on
    ensures var y := After(x, a);
      y.life.Live? && !FlushDue(y) ==> y.cpu == x.cpu && ((a.Flush? && x.cpu == x.on) || (x.life.Live? && !FlushDue(x)))
  {
    hide Free, IrqsOn, Unlocked, IsLocal;
  }

  lemma InsideLocal(s: State, v: nat, x: Vcpu, a: Action)
    requires Can(s, v, x, a) && (x.pc.ModeOk? ==> x.life.Live? && x.cpu >= 0)
    ensures var y := After(x, a);
      Inside(y.pc) ==> y.cpu == x.cpu && (Inside(x.pc) || (x.life.Live? && !FlushDue(x)))
  {
    hide Free, IrqsOn, Unlocked, IsLocal;
  }

  lemma OkFacts(x: Vcpu)
    requires R.VcpuOk(x)
    ensures (x.pc.Pointed? ==> x.flush) && (x.life.Fresh? ==> x.cpu < 0 || x.flush)
    ensures x.pc.Flushing? ==> x.cpu == x.on
    ensures x.pc.ModeOk? ==> x.life.Live? && x.cpu >= 0
  {
  }

  lemma OwnWillFlush(s: State, v: nat, a: Action, x: Flusher)
    requires Enabled(s, Thread(v, a)) && R.VcpuOk(s.vs[v]) && x.epoch <= s.now
    requires s.vs[v].life.Live? ==> WillFlush(s, x, v)
    ensures After(s.vs[v], a).life.Live? ==> WillFlush(Apply(s, Thread(v, a)), x, v)
  {
    hide Clean, Apply, After, Can, R.VcpuOk;
    R.Frame(s, v, a);
    OkFacts(s.vs[v]);
    DueLocal(s, v, s.vs[v], a);
    if Clean(s, s.vs[v].cpu, x.epoch) { CleanKept(s, v, a, s.vs[v].cpu, x.epoch); }
    if a.Flush? { FlushCleans(s, v, x.epoch); }
  }

  /** A vcpu gets past the last look only over a clean CPU, once it was asked. */
  lemma OwnInside(s: State, v: nat, a: Action, x: Flusher)
    requires Enabled(s, Thread(v, a)) && R.VcpuOk(s.vs[v]) && x.epoch <= s.now && Handled(x, v)
    requires s.vs[v].life.Live? ==> WillFlush(s, x, v)
    ensures var s' := Apply(s, Thread(v, a));
      Inside(s'.vs[v].pc) ==> s'.vs[v].cpu == s.vs[v].cpu && (Inside(s.vs[v].pc) || Clean(s', s'.vs[v].cpu, x.epoch))
  {
    hide Clean, Apply, After, Can, R.VcpuOk;
    R.Frame(s, v, a);
    OkFacts(s.vs[v]);
    InsideLocal(s, v, s.vs[v], a);
    if Clean(s, s.vs[v].cpu, x.epoch) { CleanKept(s, v, a, s.vs[v].cpu, x.epoch); }
  }

  lemma OwnPair(s: State, v: nat, a: Action, x: Flusher)
    requires Enabled(s, Thread(v, a)) && R.VcpuOk(s.vs[v]) && x.epoch <= s.now && PairOk(s, x, v)
    requires x.phase.Lock? ==> x.done == {}
    requires a.Publish? ==> !Scanning(x.phase)
    ensures PairOk(Apply(s, Thread(v, a)), x, v)
  {
    hide Clean, Apply, Enabled, R.VcpuOk, WillFlush;
    R.Frame(s, v, a);
    if Handled(x, v) {
      OwnWillFlush(s, v, a, x);
      OwnInside(s, v, a, x);
      if Clean(s, s.vs[v].cpu, x.epoch) { CleanKept(s, v, a, s.vs[v].cpu, x.epoch); }
    }
  }

  lemma OtherPair(s: State, v: nat, a: Action, x: Flusher, w: nat)
    requires Enabled(s, Thread(v, a)) && x.epoch <= s.now && w in s.vs && w != v && PairOk(s, x, w)
    ensures PairOk(Apply(s, Thread(v, a)), x, w)
  {
    hide Clean, Apply, Enabled;
    R.Frame(s, v, a);
    if Clean(s, s.vs[w].cpu, x.epoch) { CleanKept(s, v, a, s.vs[w].cpu, x.epoch); }
  }

  lemma ThreadStep(s: State, v: nat, a: Action)
    requires Inv(s) && Enabled(s, Thread(v, a))
    ensures Inv(Apply(s, Thread(v, a)))
  {
    hide R.Inv, PairOk, Apply, R.VcpuOk;
    var s' := Apply(s, Thread(v, a));
    R.AnyStep(s, Thread(v, a));
    ThreadFrame(s, v, a);
    forall f, w | f in s'.fs && w in s'.vs
      ensures PairOk(s', s'.fs[f], w)
    {
      assert PairOk(s, s.fs[f], w) && FlusherOk(s, s.fs[f]);
      if w == v {
        assert R.VcpuOk(s.vs[v]) by { AreOk(s, v); }
        OwnPair(s, v, a, s.fs[f]);
      } else {
        OtherPair(s, v, a, s.fs[f], w);
      }
    }
  }

  lemma AreOk(s: State, v: nat)
    requires R.Inv(s) && v in s.vs
    ensures R.VcpuOk(s.vs[v])
  {
  }

  lemma ThreadFrame(s: State, v: nat, a: Action)
    requires Enabled(s, Thread(v, a))
    ensures var s' := Apply(s, Thread(v, a));
      s'.fs == s.fs && s'.now == s.now && s'.cpus == s.cpus && s'.vs == s.vs[v := After(s.vs[v], a)]
    ensures After(s.vs[v], a).on == s.vs[v].on || After(s.vs[v], a).on < 0 || After(s.vs[v], a).on in s.cpus
    ensures a.Publish? ==> Unlocked(s)
  {
  }

  // ---- a step of a flush ----

  lemma AskPair(s: State, f: nat, v: nat, g: nat, w: nat)
    requires Enabled(s, Ask(f, v)) && g in s.fs && w in s.vs && PairOk(s, s.fs[g], w)
    ensures PairOk(Apply(s, Ask(f, v)), Apply(s, Ask(f, v)).fs[g], w)
  {
    hide Clean;
    SameTlb(s, Apply(s, Ask(f, v)));
  }

  lemma SameTlb(s: State, s': State)
    requires s'.tlb == s.tlb
    ensures forall c, e :: Clean(s', c, e) <==> Clean(s, c, e)
  {
    assert forall c :: Stamps(s', c) == Stamps(s, c);
  }

  /** The vcpu the flush is about to leave is not past its last look, has a clean CPU, or gets an IPI. */
  lemma KickPair(s: State, f: nat)
    requires R.Inv(s) && OnLine(s) && Enabled(s, Kick(f)) && FlusherOk(s, s.fs[f])
    requires PairOk(s, s.fs[f], s.fs[f].phase.v)
    ensures PairOk(Apply(s, Kick(f)), Apply(s, Kick(f)).fs[f], s.fs[f].phase.v)
  {
    hide Clean, R.Residents, R.Locals, R.Currents;
    var v := s.fs[f].phase.v;
    assert R.VcpuOk(s.vs[v]);
    SameTlb(s, Apply(s, Kick(f)));
  }

  /** Everything but the vcpu being kicked, and every other flush. */
  lemma KickOthers(s: State, f: nat, g: nat, w: nat)
    requires Enabled(s, Kick(f)) && g in s.fs && w in s.vs && PairOk(s, s.fs[g], w)
    requires g != f || w != s.fs[f].phase.v
    ensures PairOk(Apply(s, Kick(f)), Apply(s, Kick(f)).fs[g], w)
  {
    hide Clean;
    SameTlb(s, Apply(s, Kick(f)));
  }

  /** An IPI is taken on CPU c only when no vcpu is inside the guest there. */
  lemma AckPair(s: State, f: nat, c: int, w: nat)
    requires R.Inv(s) && Enabled(s, Ack(f, c)) && w in s.vs && PairOk(s, s.fs[f], w)
    ensures PairOk(Apply(s, Ack(f, c)), Apply(s, Ack(f, c)).fs[f], w)
  {
    hide Clean, R.Exclusive, R.Residents, R.Locals, R.Currents;
    assert R.VcpuOk(s.vs[w]);
    SameTlb(s, Apply(s, Ack(f, c)));
  }

  lemma ScanEndPair(s: State, f: nat, w: nat)
    requires R.Inv(s) && Enabled(s, ScanEnd(f)) && w in s.vs && PairOk(s, s.fs[f], w)
    ensures PairOk(Apply(s, ScanEnd(f)), Apply(s, ScanEnd(f)).fs[f], w)
  {
    hide Clean, R.Exclusive, R.Residents, R.Locals, R.Currents;
    assert R.VcpuOk(s.vs[w]);
    SameTlb(s, Apply(s, ScanEnd(f)));
  }

  lemma QuietPair(s: State, step: Step, g: nat, w: nat)
    requires step.Create? || step.FlushStart? || step.FlushLock? || step.ReadCpu? || step.FlushDone? || step.Ack?
             || step.ScanEnd?
    requires Enabled(s, step) && w in Apply(s, step).vs && g in Apply(s, step).fs
    requires g in s.fs && w in s.vs ==> PairOk(s, s.fs[g], w)
    requires (step.Ack? || step.ScanEnd?) ==> g != step.f
    requires g in s.fs && s.fs[g].phase.Lock? ==> s.fs[g].done == {}
    ensures PairOk(Apply(s, step), Apply(s, step).fs[g], w)
  {
    hide Clean;
    SameTlb(s, Apply(s, step));
  }

  lemma FlusherPairs(s: State, step: Step)
    requires Inv(s) && Enabled(s, step) && !step.Thread?
    ensures Pairs(Apply(s, step))
  {
    hide PairOk, R.Inv, Apply, FlusherOk;
    var s' := Apply(s, step);
    forall g, w | g in s'.fs && w in s'.vs
      ensures PairOk(s', s'.fs[g], w)
    {
      NewKeys(s, step, g, w);
      if g in s.fs { assert FlusherOk(s, s.fs[g]); LockedNone(s, s.fs[g]); }
      if g in s.fs && w in s.vs { assert PairOk(s, s.fs[g], w); }
      match step
      case Ask(f, v) => AskPair(s, f, v, g, w);
      case Kick(f) =>
        if g == f && w == s.fs[f].phase.v { KickPair(s, f); } else { KickOthers(s, f, g, w); }
      case Ack(f, c) => if g == f { AckPair(s, f, c, w); } else { QuietPair(s, step, g, w); }
      case ScanEnd(f) => if g == f { ScanEndPair(s, f, w); } else { QuietPair(s, step, g, w); }
      case _ => QuietPair(s, step, g, w);
    }
  }

  lemma LockedNone(s: State, x: Flusher)
    requires FlusherOk(s, x)
    ensures x.phase.Lock? ==> x.done == {}
  {
  }

  lemma NewKeys(s: State, step: Step, g: nat, w: nat)
    requires Enabled(s, step) && !step.Thread?
    ensures g in Apply(s, step).fs && !step.FlushStart? ==> g in s.fs
    ensures w in Apply(s, step).vs && !step.Create? ==> w in s.vs
  {
  }

  lemma FlusherRest(s: State, step: Step)
    requires OnLine(s) && Flushers(s) && Enabled(s, step) && !step.Thread?
    ensures OnLine(Apply(s, step)) && Flushers(Apply(s, step))
  {
    var s' := Apply(s, step);
    forall f | f in s'.fs ensures FlusherOk(s', s'.fs[f]) {
      if f in s.fs { assert FlusherOk(s, s.fs[f]); }
    }
  }

  lemma AnyStep(s: State, step: Step)
    requires Inv(s) && Enabled(s, step)
    ensures Inv(Apply(s, step))
  {
    hide R.Inv, Pairs, Flushers, OnLine, Apply, Enabled;
    if step.Thread? {
      ThreadStep(s, step.v, step.a);
    } else {
      R.AnyStep(s, step);
      FlusherPairs(s, step);
      FlusherRest(s, step);
    }
  }

  // ---- whole runs ----

  lemma {:induction false} RunInv(states: seq<State>, steps: seq<Step>, n: nat)
    requires R.IsRun(states, steps) && n < |states|
    ensures Inv(states[n])
  {
    hide R.Inv, Apply, Enabled;
    if n == 0 {
      R.RunInv(states, steps, 0);
    } else {
      RunInv(states, steps, n - 1);
      AnyStep(states[n - 1], steps[n - 1]);
    }
  }

  /** Once a flush has returned, and for ever after, no vcpu executes guest code on a CPU that holds a translation
      cached before the flush was called. */
  lemma NoStaleTranslation(states: seq<State>, steps: seq<Step>, n: nat, f: nat, v: nat)
    requires R.IsRun(states, steps) && n < |states|
    requires f in states[n].fs && states[n].fs[f].phase.Done? && v in states[n].vs && states[n].vs[v].pc.Guest?
    ensures states[n].vs[v].on == states[n].vs[v].cpu && Clean(states[n], states[n].vs[v].on, states[n].fs[f].epoch)
  {
    hide R.Residents, R.Locals, R.Currents, R.Exclusive, Apply, Enabled, Clean;
    var s := states[n];
    RunInv(states, steps, n);
    assert PairOk(s, s.fs[f], v) && FlusherOk(s, s.fs[f]);
    assert R.VcpuOk(s.vs[v]);
  }

  /** The times that mark translations as old are those before the call: the epoch of a flush is later than every
      translation cached when it starts. */
  lemma EpochIsNew(states: seq<State>, steps: seq<Step>, n: nat, c: int)
    requires R.IsRun(states, steps) && n < |steps| && steps[n].FlushStart?
    requires forall d, t :: d in states[0].tlb && t in states[0].tlb[d] ==> t <= states[0].now
    ensures forall t :: t in Stamps(states[n], c) ==> t < states[n + 1].fs[steps[n].f].epoch
  {
    StampsPast(states, steps, n);
  }

  lemma {:induction false} StampsPast(states: seq<State>, steps: seq<Step>, n: nat)
    requires R.IsRun(states, steps) && n < |states|
    requires forall d, t :: d in states[0].tlb && t in states[0].tlb[d] ==> t <= states[0].now
    ensures forall d, t :: d in states[n].tlb && t in states[n].tlb[d] ==> t <= states[n].now
  {
    if n > 0 {
      StampsPast(states, steps, n - 1);
      PastKept(states[n - 1], steps[n - 1]);
    }
  }

  lemma PastKept(s: State, step: Step)
    requires Enabled(s, step) && forall d, t :: d in s.tlb && t in s.tlb[d] ==> t <= s.now
    ensures forall d, t :: d in Apply(s, step).tlb && t in Apply(s, step).tlb[d] ==> t <= Apply(s, step).now
  {
    if step.Thread? && step.a.Fill? {
      var c := s.vs[step.v].on;
      assert forall t :: t in Stamps(s, c) ==> t <= s.now;
    }
  }
}
