// Remote TLB flush on SVM (npt.c:180-220): when it returns, no guest hits a translation that was cached before the
// call. A vcpu that was asked drops its own ASID and no other at its next VMRUN, so what holds is about the
// translations a vcpu can hit, not about the TLB of a CPU.

module SvmFlush {
  import opened SvmVmcb
  import opened SvmEntry
  import V = VmxEntry
  import S = Shootdown

  /** Every translation that carries the vcpu's ASID was filled at or after time e. */
  predicate OwnClean(s: State, x: Vcpu, e: nat) {
    forall t :: t in Tlb(s, x.cpu) && IsLive(s, x) && t.asid == x.asid ==> t.stamp >= e
  }

  /** The next VMRUN drops the vcpu's ASID. */
  predicate FlushSet(t: Slot) { t.x.ctl.FlushAsid? && !t.pc.Guest? }

  predicate Fresh(s: State, t: Slot, e: nat) { FlushSet(t) || OwnClean(s, t.x, e) }

  /** A vcpu that was asked flushes before its next entry, or has nothing old already. */
  predicate WillFlush(s: State, t: Slot, e: nat) { t.request || t.pc.Flushing? || Fresh(s, t, e) }

  /** Past the last look at the request bits. */
  predicate Inside(pc: Pc) { pc.Checked? || pc.Guest? }

  predicate PairOk(s: State, x: V.Flusher, v: nat, t: Slot) {
    && (S.Handled(x, v) && t.listed ==> WillFlush(s, t, x.epoch))
    && (x.phase.Read? && x.phase.v == v && Inside(t.pc) ==> Fresh(s, t, x.epoch) || t.x.cpu == x.phase.cpu)
    && (S.Passed(x, v) && Inside(t.pc) ==> Fresh(s, t, x.epoch) || t.x.cpu in x.mask)
  }

  predicate FlusherOk(s: State, x: V.Flusher) {
    && x.epoch <= s.now
    && (x.phase.Lock? ==> x.done == {})
    && (x.phase.Done? ==> x.mask == {})
    && (x.nomask && (x.phase.Lock? || V.Scanning(x.phase)) ==> x.mask == s.cpus.Keys - {x.me})
  }

  predicate Pairs(s: State) { forall f, v :: f in s.fs && v in s.vs ==> PairOk(s, s.fs[f], v, s.vs[v]) }

  predicate Flushers(s: State) { forall f :: f in s.fs ==> FlusherOk(s, s.fs[f]) }

  predicate FlushInv(s: State) { Inv(s) && Flushers(s) && Pairs(s) }

  // ---- a step of a vcpu ----

  lemma SameTlb(s: State, s': State)
    requires s'.tlb == s.tlb && s'.cpus == s.cpus
    ensures forall x, e :: OwnClean(s', x, e) <==> OwnClean(s, x, e)
  {
    assert forall c :: Tlb(s', c) == Tlb(s, c);
    assert forall x :: IsLive(s', x) <==> IsLive(s, x);
  }

  /** VMRUN leaves nothing old under the vcpu's ASID if a flush was set or there was nothing old before. */
  lemma RunFresh(s: State, v: nat, cr2: nat, e: nat)
    requires Inv(s) && Enabled(s, Thread(v, Vmrun(cr2))) && Fresh(s, s.vs[v], e)
    ensures var s' := Apply(s, Thread(v, Vmrun(cr2))); OwnClean(s', s'.vs[v].x, e)
  {
    hide Inv, Effective;
    var s' := Apply(s, Thread(v, Vmrun(cr2)));
    AtRun(s, v, cr2);
    forall t | t in Tlb(s', s'.vs[v].x.cpu) && t.asid == s'.vs[v].x.asid
      ensures t.stamp >= e
    {
      RunHits(s, v, cr2, t);
    }
  }

  lemma FillFresh(s: State, v: nat, w: nat, e: nat)
    requires Inv(s) && Enabled(s, Thread(v, Fill)) && w in s.vs && OwnClean(s, s.vs[w].x, e) && e <= s.now
    ensures OwnClean(Apply(s, Thread(v, Fill)), s.vs[w].x, e)
  {
    hide Slots, Cpus, Entries, Exclusive;
    GuestFacts(s, v);
    if w != v { assert Distinct(s, s.vs[v].x, s.vs[w].x); }
  }

  lemma TagFresh(s: State, s': State, x: Vcpu, y: Vcpu, e: nat)
    requires Cpus(s) && s'.tlb == s.tlb && s'.cpus == s.cpus && OwnClean(s, x, e)
    requires y.generation == 0 || (y.cpu == x.cpu && y.generation == x.generation && y.asid == x.asid)
    ensures OwnClean(s', y, e)
  {
    hide Cpus;
    SameTlb(s, s');
    NotLive(s, y);
  }

  lemma OwnTag(s: State, v: nat, a: Action)
    requires Enabled(s, Thread(v, a)) && !a.Vmrun?
    ensures var x, y := s.vs[v].x, After(s, v, s.vs[v], a).x;
      && (y.generation == 0 || (y.cpu == x.cpu && y.generation == x.generation && y.asid == x.asid))
      && (!a.Exit? && s.vs[v].x.ctl.FlushAsid? ==> y.ctl.FlushAsid?)
  {
    hide Unlocked, Free;
  }

  lemma OwnFresh(s: State, v: nat, a: Action, e: nat)
    requires Inv(s) && Enabled(s, Thread(v, a)) && e <= s.now && Fresh(s, s.vs[v], e)
    ensures var s' := Apply(s, Thread(v, a)); Fresh(s', s'.vs[v], e)
  {
    hide OwnClean, Inv, After, Effective, Unlocked, Free;
    if a.Vmrun? {
      RunFresh(s, v, a.cr2, e);
    } else {
      OwnTag(s, v, a);
      OwnPc(s, v, a);
      if OwnClean(s, s.vs[v].x, e) {
        if a.Fill? {
          FillFresh(s, v, v, e);
        } else {
          CpusOk(s);
          TagFresh(s, Apply(s, Thread(v, a)), s.vs[v].x, After(s, v, s.vs[v], a).x, e);
        }
      }
    }
  }

  lemma CpusOk(s: State)
    requires Inv(s)
    ensures Cpus(s)
  {
  }

  /** What one action does to the way into the guest and to a request. */
  lemma OwnPc(s: State, v: nat, a: Action)
    requires Enabled(s, Thread(v, a))
    ensures var t, u := s.vs[v], After(s, v, s.vs[v], a);
      && (u.pc.Guest? ==> a.Vmrun? || t.pc.Guest?) && (a.Exit? ==> t.pc.Guest?) && (a.Fill? ==> u == t)
      && (u.listed ==> t.listed)
      && (t.request && !u.request ==> u.pc.Flushing?)
      && (Inside(u.pc) ==> u.x.cpu == t.x.cpu && (Inside(t.pc) || (t.pc.ModeOk? && !t.request)))
  {
    hide Unlocked, Free, Effective;
  }

  lemma OwnWill(s: State, v: nat, a: Action, e: nat)
    requires Inv(s) && Enabled(s, Thread(v, a)) && e <= s.now && WillFlush(s, s.vs[v], e)
    ensures var s' := Apply(s, Thread(v, a)); WillFlush(s', s'.vs[v], e)
  {
    hide Fresh, Inv, After, Effective, Unlocked, Free, Can;
    OwnPc(s, v, a);
    if Fresh(s, s.vs[v], e) { OwnFresh(s, v, a, e); }
    if s.vs[v].pc.Flushing? { OwnFlushing(s, v, a, e); }
  }

  lemma OwnFlushing(s: State, v: nat, a: Action, e: nat)
    requires Enabled(s, Thread(v, a)) && s.vs[v].pc.Flushing?
    ensures var s' := Apply(s, Thread(v, a)); s'.vs[v].pc.Flushing? || Fresh(s', s'.vs[v], e)
  {
    hide Unlocked, Free, Effective, OwnClean;
  }

  /** A vcpu gets past the last look only with nothing old or a flush set, once it was asked. */
  lemma OwnInside(s: State, v: nat, a: Action, e: nat)
    requires Inv(s) && Enabled(s, Thread(v, a)) && e <= s.now && WillFlush(s, s.vs[v], e)
    ensures var s' := Apply(s, Thread(v, a));
      Inside(s'.vs[v].pc) ==> s'.vs[v].x.cpu == s.vs[v].x.cpu && (Inside(s.vs[v].pc) || Fresh(s', s'.vs[v], e))
  {
    hide Fresh, Inv, After, Effective, Unlocked, Free, Can;
    OwnPc(s, v, a);
    if Fresh(s, s.vs[v], e) { OwnFresh(s, v, a, e); }
  }

  lemma ListedOk(s: State, v: nat)
    requires Inv(s) && v in s.vs
    ensures !s.vs[v].pc.Idle? ==> s.vs[v].listed
    ensures IrqsOff(s.vs[v].pc) ==> !s.vs[v].mode.OutsideGuest? && s.vs[v].x.cpu in s.cpus
    ensures s.vs[v].x.generation == 0 ==> !IsLive(s, s.vs[v].x)
  {
    OkFacts(s, v);
    NotLive(s, s.vs[v].x);
  }

  lemma OwnPair(s: State, v: nat, a: Action, x: V.Flusher)
    requires Inv(s) && Enabled(s, Thread(v, a)) && x.epoch <= s.now && PairOk(s, x, v, s.vs[v])
    requires x.phase.Lock? ==> x.done == {}
    ensures PairOk(Apply(s, Thread(v, a)), x, v, Apply(s, Thread(v, a)).vs[v])
  {
    hide Fresh, WillFlush, Inv, Apply, Can;
    OwnFrame(s, v, a);
    ListedOk(s, v);
    if S.Handled(x, v) && s.vs[v].listed {
      OwnWill(s, v, a, x.epoch);
      OwnInside(s, v, a, x.epoch);
    }
    if Fresh(s, s.vs[v], x.epoch) { OwnFresh(s, v, a, x.epoch); }
  }

  lemma OwnFrame(s: State, v: nat, a: Action)
    requires Enabled(s, Thread(v, a))
    ensures var t, u := s.vs[v], Apply(s, Thread(v, a)).vs[v];
      (u.listed ==> t.listed) && (Inside(u.pc) ==> !t.pc.Idle? && u.x.cpu == t.x.cpu)
  {
    hide After, Effective, Can;
    OwnPc(s, v, a);
  }

  /** Another vcpu keeps what it has: entries go, or come under the ASID of the vcpu that runs. */
  lemma OtherClean(s: State, v: nat, a: Action, w: nat, e: nat)
    requires Inv(s) && Enabled(s, Thread(v, a)) && w in s.vs && w != v && OwnClean(s, s.vs[w].x, e) && e <= s.now
    ensures OwnClean(Apply(s, Thread(v, a)), s.vs[w].x, e)
  {
    hide Inv, After, Effective, Unlocked, Free;
    if a.Vmrun? {
      StillLive(s, v, a.cr2, w);
    } else if a.Fill? {
      FillFresh(s, v, w, e);
    } else {
      SameTlb(s, Apply(s, Thread(v, a)));
    }
  }

  lemma OtherPair(s: State, v: nat, a: Action, x: V.Flusher, w: nat)
    requires Inv(s) && Enabled(s, Thread(v, a)) && x.epoch <= s.now && w in s.vs && w != v && PairOk(s, x, w, s.vs[w])
    ensures PairOk(Apply(s, Thread(v, a)), x, w, s.vs[w])
  {
    hide OwnClean, Inv, Apply, Enabled;
    if OwnClean(s, s.vs[w].x, x.epoch) { OtherClean(s, v, a, w, x.epoch); }
  }

  lemma ThreadFrame(s: State, v: nat, a: Action)
    requires Enabled(s, Thread(v, a))
    ensures var s' := Apply(s, Thread(v, a));
      && s'.fs == s.fs && s'.now == s.now && s'.cpus.Keys == s.cpus.Keys && s'.vs.Keys == s.vs.Keys
      && forall w :: w in s.vs && w != v ==> s'.vs[w] == s.vs[w]
  {
    hide After, Effective, Can;
    SameCpus(s, v, a);
  }

  lemma ThreadPairs(s: State, v: nat, a: Action)
    requires FlushInv(s) && Enabled(s, Thread(v, a))
    ensures Flushers(Apply(s, Thread(v, a))) && Pairs(Apply(s, Thread(v, a)))
  {
    hide Inv, PairOk, Apply;
    var s' := Apply(s, Thread(v, a));
    ThreadFrame(s, v, a);
    forall f | f in s'.fs ensures FlusherOk(s', s'.fs[f]) { assert FlusherOk(s, s.fs[f]); }
    forall f, w | f in s'.fs && w in s'.vs
      ensures PairOk(s', s'.fs[f], w, s'.vs[w])
    {
      assert PairOk(s, s.fs[f], w, s.vs[w]) && FlusherOk(s, s.fs[f]);
      if w == v { OwnPair(s, v, a, s.fs[f]); } else { OtherPair(s, v, a, s.fs[f], w); }
    }
  }

  // ---- a step of a flush ----

  /** A slot that another thread asked for a flush, or told to leave, keeps what it has. */
  lemma NudgedPair(s: State, s': State, x: V.Flusher, v: nat, t: Slot, u: Slot)
    requires s'.tlb == s.tlb && s'.cpus == s.cpus && Nudged(t, u) && PairOk(s, x, v, t)
    ensures PairOk(s', x, v, u)
  {
    hide OwnClean;
    SameTlb(s, s');
  }

  lemma AskPair(s: State, f: nat, v: nat)
    requires Enabled(s, Ask(f, v)) && PairOk(s, s.fs[f], v, s.vs[v])
    ensures PairOk(Apply(s, Ask(f, v)), Apply(s, Ask(f, v)).fs[f], v, Apply(s, Ask(f, v)).vs[v])
  {
    hide OwnClean, IrqsOn, Unlocked;
    SameTlb(s, Apply(s, Ask(f, v)));
  }

  /** The vcpu the flush is about to leave is not past its last look, has nothing old, or gets an IPI. */
  lemma KickPair(s: State, f: nat)
    requires Inv(s) && Enabled(s, Kick(f)) && FlusherOk(s, s.fs[f])
    requires PairOk(s, s.fs[f], s.fs[f].phase.v, s.vs[s.fs[f].phase.v])
    ensures var v := s.fs[f].phase.v; PairOk(Apply(s, Kick(f)), Apply(s, Kick(f)).fs[f], v, Apply(s, Kick(f)).vs[v])
  {
    hide OwnClean, Slots, Cpus, Asids, Entries;
    ListedOk(s, s.fs[f].phase.v);
    SameTlb(s, Apply(s, Kick(f)));
  }

  /** An IPI is taken on CPU c only when no vcpu is inside the guest there. */
  lemma AckPair(s: State, f: nat, c: int, w: nat)
    requires Enabled(s, Ack(f, c)) && w in s.vs && PairOk(s, s.fs[f], w, s.vs[w])
    ensures PairOk(Apply(s, Ack(f, c)), Apply(s, Ack(f, c)).fs[f], w, s.vs[w])
  {
    hide OwnClean;
    SameTlb(s, Apply(s, Ack(f, c)));
  }

  lemma ScanEndPair(s: State, f: nat, w: nat)
    requires Inv(s) && Enabled(s, ScanEnd(f)) && w in s.vs && PairOk(s, s.fs[f], w, s.vs[w])
    ensures PairOk(Apply(s, ScanEnd(f)), Apply(s, ScanEnd(f)).fs[f], w, s.vs[w])
  {
    hide OwnClean, Inv;
    ListedOk(s, w);
    SameTlb(s, Apply(s, ScanEnd(f)));
  }

  /** Asking, reading the CPU, kicking: the flush itself against a vcpu it is not looking at. */
  lemma QuietPair(s: State, step: Step, w: nat)
    requires step.FlushLock? || step.Ask? || step.ReadCpu? || step.Kick? || step.FlushDone?
    requires Enabled(s, step) && w in s.vs && PairOk(s, s.fs[step.f], w, s.vs[w])
    requires step.Ask? ==> w != step.v
    requires step.Kick? ==> w != s.fs[step.f].phase.v
    requires s.fs[step.f].phase.Lock? ==> s.fs[step.f].done == {}
    ensures PairOk(Apply(s, step), Apply(s, step).fs[step.f], w, Apply(s, step).vs[w])
  {
    hide OwnClean, IrqsOn, Unlocked, V.Kicks;
    SameTlb(s, Apply(s, step));
  }

  /** A new vcpu has no translations, and a new flush has asked nobody. */
  lemma NewPair(s: State, step: Step, g: nat, w: nat)
    requires Inv(s) && Enabled(s, step)
    requires (step.Create? && w == step.v && g in s.fs && FlusherOk(s, s.fs[g]))
             || (step.FlushStart? && g == step.f && w in s.vs)
    ensures PairOk(Apply(s, step), Apply(s, step).fs[g], w, Apply(s, step).vs[w])
  {
    hide Slots, Cpus, Asids, Entries, Exclusive, Free;
    if step.Create? { assert !V.Scanning(s.fs[g].phase); }
  }

  lemma FlusherPair(s: State, step: Step, g: nat, w: nat)
    requires FlushInv(s) && Enabled(s, step) && !step.Thread? && g in Apply(s, step).fs && w in Apply(s, step).vs
    ensures PairOk(Apply(s, step), Apply(s, step).fs[g], w, Apply(s, step).vs[w])
  {
    hide PairOk, Inv, FlusherOk, Apply, Nudged;
    OtherFrame(s, step);
    NewKeys(s, step, g, w);
    if g !in s.fs || w !in s.vs {
      if g in s.fs { assert FlusherOk(s, s.fs[g]); }
      NewPair(s, step, g, w);
    } else {
      assert PairOk(s, s.fs[g], w, s.vs[w]) && FlusherOk(s, s.fs[g]);
      assert Nudged(s.vs[w], Apply(s, step).vs[w]);
      LockedNone(s, s.fs[g]);
      if Apply(s, step).fs[g] == s.fs[g] {
        NudgedPair(s, Apply(s, step), s.fs[g], w, s.vs[w], Apply(s, step).vs[w]);
      } else {
        OwnStep(s, step, g, w);
      }
    }
  }

  lemma OwnStep(s: State, step: Step, g: nat, w: nat)
    requires Inv(s) && Enabled(s, step) && !step.Thread? && !step.Create? && !step.Evict? && !step.FlushStart?
    requires g == step.f && w in s.vs && PairOk(s, s.fs[g], w, s.vs[w]) && FlusherOk(s, s.fs[g])
    ensures PairOk(Apply(s, step), Apply(s, step).fs[g], w, Apply(s, step).vs[w])
  {
    hide PairOk, Inv, FlusherOk, IrqsOn, Unlocked, V.Kicks;
    LockedNone(s, s.fs[g]);
    match step
    case Ask(f, v) => if w == v { AskPair(s, f, v); } else { QuietPair(s, step, w); }
    case Kick(f) => if w == s.fs[f].phase.v { KickPair(s, f); } else { QuietPair(s, step, w); }
    case Ack(f, c) => AckPair(s, f, c, w);
    case ScanEnd(f) => ScanEndPair(s, f, w);
    case _ => QuietPair(s, step, w);
  }

  lemma LockedNone(s: State, x: V.Flusher)
    requires FlusherOk(s, x)
    ensures x.phase.Lock? ==> x.done == {}
  {
  }

  lemma NewKeys(s: State, step: Step, g: nat, w: nat)
    requires Enabled(s, step) && !step.Thread? && g in Apply(s, step).fs && w in Apply(s, step).vs
    ensures g !in s.fs ==> step.FlushStart? && g == step.f && w in s.vs
    ensures w !in s.vs ==> step.Create? && w == step.v && g in s.fs
    ensures g in s.fs && Apply(s, step).fs[g] != s.fs[g] ==>
              !step.Create? && !step.Evict? && !step.FlushStart? && g == step.f
  {
    hide IrqsOn, Unlocked, V.Kicks, Free;
  }

  lemma FlusherRest(s: State, step: Step)
    requires Flushers(s) && Enabled(s, step) && !step.Thread?
    ensures Flushers(Apply(s, step))
  {
    hide IrqsOn, Unlocked, Free;
    var s' := Apply(s, step);
    forall f | f in s'.fs ensures FlusherOk(s', s'.fs[f]) {
      if f in s.fs { assert FlusherOk(s, s.fs[f]); }
    }
  }

  lemma AnyFlushStep(s: State, step: Step)
    requires FlushInv(s) && Enabled(s, step)
    ensures FlushInv(Apply(s, step))
  {
    hide Inv, Pairs, Flushers, Apply, Enabled;
    AnyStep(s, step);
    if step.Thread? { ThreadPairs(s, step.v, step.a); } else { FlusherRest(s, step); OtherPairs(s, step); }
  }

  lemma OtherPairs(s: State, step: Step)
    requires FlushInv(s) && Enabled(s, step) && !step.Thread?
    ensures Pairs(Apply(s, step))
  {
    hide Inv, PairOk, Flushers, Apply, Enabled;
    var s' := Apply(s, step);
    forall f, v | f in s'.fs && v in s'.vs ensures PairOk(s', s'.fs[f], v, s'.vs[v]) { FlusherPair(s, step, f, v); }
  }

  // ---- whole runs ----

  lemma {:induction false} FlushRunInv(states: seq<State>, steps: seq<Step>, n: nat)
    requires IsRun(states, steps) && n < |states|
    ensures FlushInv(states[n])
  {
    hide Inv, Apply, Enabled;
    if n == 0 {
      RunInv(states, steps, 0);
    } else {
      FlushRunInv(states, steps, n - 1);
      AnyFlushStep(states[n - 1], steps[n - 1]);
    }
  }

  lemma OwnHit(s: State, v: nat, e: Entry)
    requires FlushInv(s) && v in s.vs && s.vs[v].pc.Guest? && e in Hits(s, v)
    ensures e.owner == v
  {
    hide Slots, Cpus, Asids, Exclusive, Pairs, Flushers;
    GuestFacts(s, v);
    assert Owned(s, v, s.vs[v].x, e);
  }

  lemma FreshHit(s: State, v: nat, f: nat, e: Entry)
    requires FlushInv(s) && v in s.vs && s.vs[v].pc.Guest? && f in s.fs && s.fs[f].phase.Done? && e in Hits(s, v)
    ensures e.stamp >= s.fs[f].epoch
  {
    hide Inv;
    GuestFacts(s, v);
    assert PairOk(s, s.fs[f], v, s.vs[v]) && FlusherOk(s, s.fs[f]);
  }

  /** Once a flush has returned, and for ever after, no guest hits a translation cached before the flush was called;
      nor, at any time, one that another vcpu cached. */
  lemma NoStaleHit(states: seq<State>, steps: seq<Step>, n: nat, f: nat, v: nat, e: Entry)
    requires IsRun(states, steps) && n < |states| && v in states[n].vs && states[n].vs[v].pc.Guest?
    requires f in states[n].fs && states[n].fs[f].phase.Done? && e in Hits(states[n], v)
    ensures e.owner == v && e.stamp >= states[n].fs[f].epoch
  {
    hide FlushInv, Apply, Enabled, Hits;
    FlushRunInv(states, steps, n);
    OwnHit(states[n], v, e);
    FreshHit(states[n], v, f, e);
  }

  /** The times that mark translations as old are those before the call: the epoch of a flush is later than every
      translation cached when it starts. */
  lemma EpochIsNew(states: seq<State>, steps: seq<Step>, n: nat, c: int, e: Entry)
    requires IsRun(states, steps) && n < |steps| && steps[n].FlushStart? && e in Tlb(states[n], c)
    requires Past(states[0])
    ensures e.stamp < states[n + 1].fs[steps[n].f].epoch
  {
    hide Apply, Enabled, Init;
    AllPast(states, steps, n);
    StartEpoch(states[n], steps[n]);
  }

  predicate Past(s: State) { forall c, e :: c in s.tlb && e in s.tlb[c] ==> e.stamp <= s.now }

  lemma StartEpoch(s: State, step: Step)
    requires Enabled(s, step) && step.FlushStart?
    ensures step.f in Apply(s, step).fs && Apply(s, step).fs[step.f].epoch == s.now + 1
  {
    hide Free;
  }

  lemma {:induction false} AllPast(states: seq<State>, steps: seq<Step>, n: nat)
    requires IsRun(states, steps) && n < |states| && Past(states[0])
    ensures Past(states[n])
  {
    hide Apply, Enabled, Init, Past;
    if n > 0 {
      AllPast(states, steps, n - 1);
      PastKept(states[n - 1], steps[n - 1]);
    }
  }

  lemma PastKept(s: State, step: Step)
    requires Enabled(s, step) && Past(s)
    ensures Past(Apply(s, step))
  {
    hide After, Effective, Unlocked, Free, IrqsOn, V.Kicks;
    var s' := Apply(s, step);
    if step.Thread? {
      var c := s.vs[step.v].x.cpu;
      assert forall e :: e in Tlb(s, c) ==> e.stamp <= s.now;
    } else {
      OtherFrame(s, step);
    }
  }
}
