// The vcpu table and the shutdown of an instance (vcpu.c:12-81, core.c:42-67, vmx.c:212-219, vmx.c:909-968,
// vmx.c:2756-2768, instance.c:145-161), for any number of threads that create, release, enter and shut down.
// Every section under vcpu_lock and every unlocked access to a shared field is one step.

module Lifecycle {
  const VM_MAX_VCPUS: nat := 0x800

  /** Where the thread that runs a vcpu is. */
  datatype Pc =
    | Out          // not in launch, mode is OUTSIDE_ROOT_MODE
    | Top          // in the loop, before the look at vcpu->shutdown
    | OwnLooked    // vcpu->shutdown read as 0, before the look at instance->shutdown
    | Cleared      // both read as 0
    | Guest
    | Back         // after the exit, before the look at vcpu->shutdown at the bottom
    | Leaving      // out of the loop, mode not yet changed

  /** Who has the vcpu: the thread creating it, the table, the thread releasing it, nobody. */
  datatype Owner = Maker(t: nat) | Table | Taker(t: nat) | Nobody

  /** ran says that its thread was in launch when it was taken out of the table. */
  datatype Vcpu = Vcpu(no: nat, owner: Owner, pc: Pc, shutdown: bool, ran: bool)

  /** A thread in vcpu_alloc. */
  datatype Making = Claimed(n: nat) | Made(n: nat, v: nat) | Failing(n: nat)

  /** instance_release: before it, vcpus flagged, instance flagged, all seen outside. */
  datatype Phase = Up | Flagged | Down | Synced

  datatype State = State(
    bits: set<nat>,             // vcpu_bitmap
    table: map<nat, nat>,       // vcpus[]; absent is NULL
    vs: map<nat, Vcpu>,         // every vcpu ever created
    makers: map<nat, Making>,
    takers: map<nat, nat>,      // threads in vcpu_release that have taken a vcpu out of the table
    shutdown: bool,             // instance->shutdown
    phase: Phase)

  /** What the thread in the launch loop does next. */
  datatype Action = LookOwn | LookAll | Stop | Again | Run | Exit | Bottom(done: bool) | Leave

  datatype Step =
    | Claim(t: nat, n: nat) | Make(t: nat, v: nat) | MakeFails(t: nat) | FreeNo(t: nat) | Publish(t: nat)
    | Take(t: nat, n: nat) | Destroy(t: nat)
    | Enter(n: nat) | Thread(v: nat, a: Action)
    | FlagAll | FlagInstance | Sync

  /** find_first_zero_bit. */
  predicate FirstZero(bits: set<nat>, n: nat) {
    n < VM_MAX_VCPUS && n !in bits && forall k :: 0 <= k < n ==> k in bits
  }

  predicate IsOut(s: State, v: nat) { v in s.vs && s.vs[v].pc.Out? }

  predicate Can(x: Vcpu, a: Action) {
    match a
    case LookOwn => x.pc.Top?
    case LookAll => x.pc.OwnLooked?
    case Stop => x.pc.OwnLooked? || x.pc.Cleared?     // a signal, or a failed NMI injection
    case Again => x.pc.Cleared?                       // a request or a reschedule came in
    case Run => x.pc.Cleared?
    case Exit => x.pc.Guest?
    case Bottom(_) => x.pc.Back?
    case Leave => x.pc.Leaving?
  }

  function After(x: Vcpu, a: Action, all: bool): Vcpu {
    match a
    case LookOwn => x.(pc := if x.shutdown then Leaving else OwnLooked)
    case LookAll => x.(pc := if all then Leaving else Cleared)
    case Stop => x.(pc := Leaving)
    case Again => x.(pc := Top)
    case Run => x.(pc := Guest)
    case Exit => x.(pc := Back)
    case Bottom(done) => x.(pc := if done || x.shutdown then Leaving else Top)
    case Leave => x.(pc := Out)
  }

  predicate Enabled(s: State, step: Step) {
    match step
    case Claim(t, n) => t !in s.makers && FirstZero(s.bits, n)
    case Make(t, v) => t in s.makers && s.makers[t].Claimed? && v !in s.vs
    case MakeFails(t) => t in s.makers && s.makers[t].Claimed?
    case FreeNo(t) => t in s.makers && s.makers[t].Failing?
    case Publish(t) => t in s.makers && s.makers[t].Made? && s.makers[t].v in s.vs
    case Take(t, n) => t !in s.takers && n in s.table && s.table[n] in s.vs
    case Destroy(t) => t in s.takers && s.takers[t] in s.vs
    case Enter(n) => !s.shutdown && n in s.table && IsOut(s, s.table[n]) && !s.vs[s.table[n]].shutdown
    case Thread(v, a) => v in s.vs && Can(s.vs[v], a)
    case FlagAll => true
    case FlagInstance => !s.phase.Up?
    case Sync => s.phase.Down? && forall n :: n in s.table ==> IsOut(s, s.table[n])
  }

  /** The vcpu is in vcpus[]. */
  predicate Listed(s: State, v: nat)
    requires v in s.vs
  {
    s.vs[v].no in s.table && s.table[s.vs[v].no] == v
  }

  function Flag(s: State): map<nat, Vcpu> {
    map v | v in s.vs :: if Listed(s, v) then s.vs[v].(shutdown := true) else s.vs[v]
  }

  function Apply(s: State, step: Step): State
    requires Enabled(s, step)
  {
    match step
    // vcpu_alloc
    case Claim(t, n) => s.(bits := s.bits + {n}, makers := s.makers[t := Claimed(n)])
    case Make(t, v) =>
      s.(vs := s.vs[v := Vcpu(s.makers[t].n, Maker(t), Out, false, false)],
         makers := s.makers[t := Made(s.makers[t].n, v)])
    case MakeFails(t) => s.(makers := s.makers[t := Failing(s.makers[t].n)])
    case FreeNo(t) => s.(bits := s.bits - {s.makers[t].n}, makers := s.makers - {t})
    case Publish(t) =>
      var v := s.makers[t].v;
      s.(table := s.table[s.makers[t].n := v], makers := s.makers - {t}, vs := s.vs[v := s.vs[v].(owner := Table)])
    // vcpu_release
    case Take(t, n) =>
      var v := s.table[n];
      s.(bits := s.bits - {n}, table := s.table - {n}, takers := s.takers[t := v],
         vs := s.vs[v := s.vs[v].(owner := Taker(t), ran := !s.vs[v].pc.Out?)])
    case Destroy(t) =>
      var v := s.takers[t];
      s.(vs := s.vs[v := s.vs[v].(owner := Nobody)], takers := s.takers - {t})
    // slimvm_enter and the loop of launch
    case Enter(n) => s.(vs := s.vs[s.table[n] := s.vs[s.table[n]].(pc := Top)])
    case Thread(v, a) => s.(vs := s.vs[v := After(s.vs[v], a, s.shutdown)])
    // shutdown_all_vcpus and sync_all_vcpus
    case FlagAll => s.(vs := Flag(s), phase := if s.phase.Up? then Flagged else s.phase)
    case FlagInstance => s.(shutdown := true, phase := if s.phase.Flagged? then Down else s.phase)
    case Sync => s.(phase := Synced)
  }

  predicate Init(s: State) {
    && s.bits == {} && s.table == map[] && s.vs == map[] && s.makers == map[] && s.takers == map[]
    && !s.shutdown && s.phase.Up?
  }

  // ---- the table ----

  /** The thread is creating a vcpu under number n. */
  predicate Holds(s: State, t: nat, n: nat) { t in s.makers && s.makers[t].n == n }

  /** A set bit is the number of a listed vcpu or of one being created, and of one only. */
  ghost predicate BitsOk(s: State) {
    && (forall n :: n in s.table ==> n in s.bits && n < VM_MAX_VCPUS)
    && (forall t :: t in s.makers ==>
          s.makers[t].n in s.bits && s.makers[t].n !in s.table && s.makers[t].n < VM_MAX_VCPUS)
    && (forall t, u :: t in s.makers && u in s.makers && t != u ==> s.makers[t].n != s.makers[u].n)
    && (forall n :: n in s.bits && n !in s.table ==> exists t :: Holds(s, t, n))
  }

  predicate Owned(s: State, v: nat)
    requires v in s.vs
  {
    var x := s.vs[v];
    match x.owner
    case Maker(t) => t in s.makers && s.makers[t] == Made(x.no, v)
    case Table => x.no in s.table && s.table[x.no] == v
    case Taker(t) => t in s.takers && s.takers[t] == v
    case Nobody => true
  }

  predicate OwnersOk(s: State) {
    && (forall v :: v in s.vs ==> Owned(s, v))
    && (forall n :: n in s.table ==> s.table[n] in s.vs && s.vs[s.table[n]].owner.Table? && s.vs[s.table[n]].no == n)
    && (forall t :: t in s.makers && s.makers[t].Made? ==>
          s.makers[t].v in s.vs && s.vs[s.makers[t].v].owner == Maker(t))
    && (forall t :: t in s.takers ==> s.takers[t] in s.vs && s.vs[s.takers[t]].owner == Taker(t))
  }

  // ---- running and shutting down ----

  predicate VcpuOk(x: Vcpu) {
    && (x.ran ==> x.owner.Taker? || x.owner.Nobody?)
    && (!x.owner.Table? && !x.ran ==> x.pc.Out?)
  }

  predicate RunsOk(s: State) {
    && (forall v :: v in s.vs ==> VcpuOk(s.vs[v]))
    && (s.phase.Down? || s.phase.Synced? ==> s.shutdown)
    && (s.phase.Synced? ==> forall v :: v in s.vs && !s.vs[v].ran ==> s.vs[v].pc.Out?)
  }

  ghost predicate Inv(s: State) { BitsOk(s) && OwnersOk(s) && RunsOk(s) }

  lemma ClaimBits(s: State, step: Step)
    requires BitsOk(s) && Enabled(s, step) && step.Claim?
    ensures BitsOk(Apply(s, step))
  {
    var s' := Apply(s, step);
    forall n | n in s'.bits && n !in s'.table ensures exists t :: Holds(s', t, n) {
      if n in s.bits { var t :| Holds(s, t, n); assert Holds(s', t, n); } else { assert Holds(s', step.t, n); }
    }
  }

  /** The same numbers are held by the same threads. */
  lemma SameNumbers(s: State, s': State)
    requires BitsOk(s) && s'.bits == s.bits && s'.table.Keys == s.table.Keys && s'.makers.Keys == s.makers.Keys
    requires forall t :: t in s.makers ==> s'.makers[t].n == s.makers[t].n
    ensures BitsOk(s')
  {
    forall n | n in s'.bits && n !in s'.table ensures exists t :: Holds(s', t, n) {
      var t :| Holds(s, t, n);
      assert Holds(s', t, n);
    }
  }

  lemma MakeBits(s: State, step: Step)
    requires BitsOk(s) && Enabled(s, step) && (step.Make? || step.MakeFails?)
    ensures BitsOk(Apply(s, step))
  {
    hide BitsOk;
    SameNumbers(s, Apply(s, step));
  }

  lemma FreeBits(s: State, step: Step)
    requires BitsOk(s) && Enabled(s, step) && step.FreeNo?
    ensures BitsOk(Apply(s, step))
  {
    var s' := Apply(s, step);
    forall n | n in s'.bits && n !in s'.table ensures exists t :: Holds(s', t, n) {
      var t :| Holds(s, t, n);
      assert Holds(s', t, n);
    }
  }

  lemma PublishBits(s: State, step: Step)
    requires BitsOk(s) && Enabled(s, step) && step.Publish?
    ensures BitsOk(Apply(s, step))
  {
    var s' := Apply(s, step);
    forall n | n in s'.bits && n !in s'.table ensures exists t :: Holds(s', t, n) {
      var t :| Holds(s, t, n);
      assert Holds(s', t, n);
    }
  }

  lemma TakeBits(s: State, step: Step)
    requires BitsOk(s) && Enabled(s, step) && step.Take?
    ensures BitsOk(Apply(s, step))
  {
    var s' := Apply(s, step);
    forall n | n in s'.bits && n !in s'.table ensures exists t :: Holds(s', t, n) {
      var t :| Holds(s, t, n);
      assert Holds(s', t, n);
    }
  }

  lemma OtherBits(s: State, step: Step)
    requires BitsOk(s) && Enabled(s, step)
    requires !step.Claim? && !step.Make? && !step.MakeFails? && !step.FreeNo? && !step.Publish? && !step.Take?
    ensures BitsOk(Apply(s, step))
  {
    hide BitsOk;
    SameNumbers(s, Apply(s, step));
  }

  lemma NumberOwners(s: State, step: Step)
    requires OwnersOk(s) && Enabled(s, step) && (step.Claim? || step.MakeFails? || step.FreeNo?)
    ensures OwnersOk(Apply(s, step))
  {
    var s' := Apply(s, step);
    forall v | v in s'.vs ensures Owned(s', v) { assert Owned(s, v); }
  }

  lemma MakeOwners(s: State, step: Step)
    requires BitsOk(s) && OwnersOk(s) && Enabled(s, step) && step.Make?
    ensures OwnersOk(Apply(s, step))
  {
    var s' := Apply(s, step);
    forall v | v in s'.vs ensures Owned(s', v) { if v in s.vs { assert Owned(s, v); } }
  }

  lemma PublishIs(s: State, t: nat)
    requires Enabled(s, Publish(t))
    ensures t in s.makers && s.makers[t].Made? && s.makers[t].v in s.vs
    ensures var s', n, v := Apply(s, Publish(t)), s.makers[t].n, s.makers[t].v;
      && s'.table == s.table[n := v] && s'.makers == s.makers - {t} && s'.takers == s.takers
      && s'.vs == s.vs[v := s.vs[v].(owner := Table)]
  {
  }

  lemma NotListed(s: State, t: nat)
    requires BitsOk(s) && t in s.makers
    ensures s.makers[t].n !in s.table
  {
  }

  lemma PublishOwners(s: State, step: Step)
    requires BitsOk(s) && OwnersOk(s) && Enabled(s, step) && step.Publish?
    ensures OwnersOk(Apply(s, step))
  {
    hide Apply, Enabled, BitsOk;
    var s' := Apply(s, step);
    PublishIs(s, step.t);
    assert s.makers[step.t].n !in s.table by { NotListed(s, step.t); }
    assert Owned(s, s.makers[step.t].v);
    forall v | v in s'.vs ensures Owned(s', v) { assert Owned(s, v); }
  }

  lemma TakeOwners(s: State, step: Step)
    requires OwnersOk(s) && Enabled(s, step) && step.Take?
    ensures OwnersOk(Apply(s, step))
  {
    var s' := Apply(s, step);
    forall v | v in s'.vs ensures Owned(s', v) { assert Owned(s, v); }
  }

  lemma DestroyOwners(s: State, step: Step)
    requires OwnersOk(s) && Enabled(s, step) && step.Destroy?
    ensures OwnersOk(Apply(s, step))
  {
    var s' := Apply(s, step);
    forall v | v in s'.vs ensures Owned(s', v) { assert Owned(s, v); }
  }

  predicate SameOwner(x: Vcpu, y: Vcpu) { x.no == y.no && x.owner == y.owner }

  lemma AfterOwner(x: Vcpu, a: Action, all: bool)
    ensures SameOwner(x, After(x, a, all))
  {
  }

  lemma SameOwners(s: State, s': State)
    requires OwnersOk(s) && s'.table == s.table && s'.makers == s.makers && s'.takers == s.takers
    requires s'.vs.Keys == s.vs.Keys
    requires forall v :: v in s.vs ==> SameOwner(s.vs[v], s'.vs[v])
    ensures OwnersOk(s')
  {
    forall v | v in s'.vs ensures Owned(s', v) { assert Owned(s, v); }
  }

  lemma RunOwners(s: State, step: Step)
    requires OwnersOk(s) && Enabled(s, step)
    requires step.Enter? || step.Thread? || step.FlagAll? || step.FlagInstance? || step.Sync?
    ensures OwnersOk(Apply(s, step))
  {
    hide OwnersOk, After;
    var s' := Apply(s, step);
    if step.Thread? { AfterOwner(s.vs[step.v], step.a, s.shutdown); }
    assert s'.vs.Keys == s.vs.Keys;
    SameOwners(s, s');
  }

  lemma AfterOk(x: Vcpu, a: Action, all: bool)
    requires VcpuOk(x) && Can(x, a)
    ensures VcpuOk(After(x, a, all))
  {
  }

  lemma ThreadRuns(s: State, v: nat, a: Action)
    requires RunsOk(s) && Enabled(s, Thread(v, a))
    ensures RunsOk(Apply(s, Thread(v, a)))
  {
    hide VcpuOk;
    AfterOk(s.vs[v], a, s.shutdown);
    AfterOut(s.vs[v], a, s.shutdown);
    hide After;
  }

  /** A thread that is out has no action, and the mark of a vcpu taken in launch stays. */
  lemma AfterOut(x: Vcpu, a: Action, all: bool)
    requires Can(x, a)
    ensures !x.pc.Out? && After(x, a, all).ran == x.ran
  {
  }

  lemma MoveRuns(s: State, step: Step)
    requires OwnersOk(s) && RunsOk(s) && Enabled(s, step)
    requires step.Make? || step.Publish? || step.Take? || step.Destroy?
    ensures RunsOk(Apply(s, step))
  {
    hide After, Can;
    var s' := Apply(s, step);
    forall v | v in s'.vs ensures VcpuOk(s'.vs[v]) { if v in s.vs { assert VcpuOk(s.vs[v]); } }
  }

  lemma OtherRuns(s: State, step: Step)
    requires OwnersOk(s) && RunsOk(s) && Enabled(s, step)
    requires !step.Thread? && !step.Make? && !step.Publish? && !step.Take? && !step.Destroy?
    ensures RunsOk(Apply(s, step))
  {
    hide After, Can;
    var s' := Apply(s, step);
    forall v | v in s'.vs ensures VcpuOk(s'.vs[v]) { assert VcpuOk(s.vs[v]); }
    if step.Sync? {
      forall v | v in s.vs && !s.vs[v].ran
        ensures s.vs[v].pc.Out?
      {
        assert Owned(s, v);
        assert VcpuOk(s.vs[v]);
      }
    }
  }

  lemma AnyStep(s: State, step: Step)
    requires Inv(s) && Enabled(s, step)
    ensures Inv(Apply(s, step))
  {
    hide BitsOk, OwnersOk, RunsOk, Apply, Enabled;
    if step.Thread? { ThreadRuns(s, step.v, step.a); }
    else if step.Make? || step.Publish? || step.Take? || step.Destroy? { MoveRuns(s, step); }
    else { OtherRuns(s, step); }
    if step.Claim? { ClaimBits(s, step); }
    else if step.Make? || step.MakeFails? { MakeBits(s, step); }
    else if step.FreeNo? { FreeBits(s, step); }
    else if step.Publish? { PublishBits(s, step); }
    else if step.Take? { TakeBits(s, step); }
    else { OtherBits(s, step); }
    if step.Claim? || step.MakeFails? || step.FreeNo? { NumberOwners(s, step); }
    else if step.Make? { MakeOwners(s, step); }
    else if step.Publish? { PublishOwners(s, step); }
    else if step.Take? { TakeOwners(s, step); }
    else if step.Destroy? { DestroyOwners(s, step); }
    else { RunOwners(s, step); }
  }

  // ---- whole runs ----

  ghost predicate IsRun(states: seq<State>, steps: seq<Step>) {
    && |states| == |steps| + 1 && Init(states[0])
    && forall i :: 0 <= i < |steps| ==> Enabled(states[i], steps[i]) && states[i + 1] == Apply(states[i], steps[i])
  }

  lemma {:induction false} RunInv(states: seq<State>, steps: seq<Step>, n: nat)
    requires IsRun(states, steps) && n < |states|
    ensures Inv(states[n])
  {
    hide Apply, Enabled;
    if n > 0 {
      RunInv(states, steps, n - 1);
      AnyStep(states[n - 1], steps[n - 1]);
    }
  }

  /** Two vcpus that are listed or being created never have the same number, and that number's bit is set. */
  lemma NumbersUnique(states: seq<State>, steps: seq<Step>, n: nat, v: nat, w: nat)
    requires IsRun(states, steps) && n < |states| && v in states[n].vs && w in states[n].vs && v != w
    requires states[n].vs[v].owner.Table? || states[n].vs[v].owner.Maker?
    requires states[n].vs[w].owner.Table? || states[n].vs[w].owner.Maker?
    ensures states[n].vs[v].no != states[n].vs[w].no
    ensures states[n].vs[v].no in states[n].bits && states[n].vs[v].no < VM_MAX_VCPUS
  {
    hide Apply, Enabled, Init, RunsOk;
    RunInv(states, steps, n);
    assert Owned(states[n], v) && Owned(states[n], w);
  }

  /** The numbers threads hold in vcpu_alloc. */
  function Numbers(m: map<nat, Making>): set<nat> { set t | t in m :: m[t].n }

  /** The set bits are exactly the listed vcpus and the numbers claimed in vcpu_alloc, and as many as both together. */
  lemma BitsCount(states: seq<State>, steps: seq<Step>, n: nat)
    requires IsRun(states, steps) && n < |states|
    ensures states[n].bits == states[n].table.Keys + Numbers(states[n].makers)
    ensures |states[n].bits| == |states[n].table| + |states[n].makers|
  {
    hide Apply, Enabled, Init, RunsOk, OwnersOk;
    RunInv(states, steps, n);
    var s := states[n];
    assert s.bits == s.table.Keys + Numbers(s.makers) by {
      forall k | k in s.bits && k !in s.table ensures k in Numbers(s.makers) { var t :| Holds(s, t, k); }
    }
    HeldCount(s.makers);
  }

  lemma {:induction false} HeldCount(m: map<nat, Making>)
    requires forall t, u :: t in m && u in m && t != u ==> m[t].n != m[u].n
    ensures |Numbers(m)| == |m|
    decreases |m|
  {
    if m != map[] {
      var t :| t in m;
      var m' := m - {t};
      assert m'.Keys == m.Keys - {t};
      HeldCount(m');
      OneMore(m, t);
    }
  }

  lemma OneMore(m: map<nat, Making>, t: nat)
    requires t in m && forall u :: u in m && u != t ==> m[u].n != m[t].n
    ensures Numbers(m) == Numbers(m - {t}) + {m[t].n} && m[t].n !in Numbers(m - {t})
  {
    forall k | k in Numbers(m) ensures k in Numbers(m - {t}) || k == m[t].n {
      var u :| u in m && m[u].n == k;
      if u != t { assert u in m - {t} && (m - {t})[u].n == k; }
    }
  }

  /** Once instance_release has seen every vcpu outside, no vcpu is in launch unless it was taken out of the table
      while it was; none can enter, and it stays so. */
  lemma SyncedIsQuiet(states: seq<State>, steps: seq<Step>, n: nat, k: nat)
    requires IsRun(states, steps) && n < |states| && states[n].phase.Synced?
    ensures forall v :: v in states[n].vs && !states[n].vs[v].ran ==> states[n].vs[v].pc.Out?
    ensures forall m :: m in states[n].table ==> IsOut(states[n], states[n].table[m])
    ensures states[n].shutdown && !Enabled(states[n], Enter(k))
    ensures n < |steps| ==> states[n + 1].phase.Synced?
  {
    hide Init, BitsOk;
    RunInv(states, steps, n);
    forall m | m in states[n].table ensures IsOut(states[n], states[n].table[m]) {
      assert VcpuOk(states[n].vs[states[n].table[m]]);
    }
  }

  // ---- when a vcpu is destroyed while its thread is in launch ----

  ghost predicate IsPath(states: seq<State>, steps: seq<Step>) {
    && |states| == |steps| + 1
    && forall i :: 0 <= i < |steps| ==> Enabled(states[i], steps[i]) && states[i + 1] == Apply(states[i], steps[i])
  }

  /** A vcpu that was outside when it was taken stays outside. */
  lemma {:induction false} StaysOut(states: seq<State>, steps: seq<Step>, n: nat, v: nat)
    requires IsPath(states, steps) && Inv(states[0]) && n < |states|
    requires v in states[0].vs && !states[0].vs[v].ran && !states[0].vs[v].owner.Table? && !states[0].vs[v].owner.Maker?
    ensures Inv(states[n]) && v in states[n].vs && states[n].vs[v].pc.Out?
    ensures !states[n].vs[v].ran && !states[n].vs[v].owner.Table? && !states[n].vs[v].owner.Maker?
  {
    hide BitsOk, Apply, Enabled;
    if n > 0 {
      StaysOut(states, steps, n - 1, v);
      AnyStep(states[n - 1], steps[n - 1]);
      TakenStaysTaken(states[n - 1], steps[n - 1], v);
    }
    assert VcpuOk(states[n].vs[v]);
  }

  lemma TakenStaysTaken(s: State, step: Step, v: nat)
    requires Inv(s) && Enabled(s, step) && v in s.vs && (s.vs[v].owner.Taker? || s.vs[v].owner.Nobody?)
    ensures var s' := Apply(s, step);
      v in s'.vs && (s'.vs[v].owner.Taker? || s'.vs[v].owner.Nobody?) && s'.vs[v].ran == s.vs[v].ran
  {
    hide BitsOk, RunsOk, After;
    assert Owned(s, v);
    if step.Thread? { AfterOwner(s.vs[step.v], step.a, s.shutdown); AfterOut(s.vs[step.v], step.a, s.shutdown); }
  }

  /** What a release that takes vcpu v may lead to: v is in launch when thread t destroys it. */
  ghost predicate HitRunning(s: State, states: seq<State>, steps: seq<Step>, t: nat, v: nat) {
    && IsPath(states, steps) && states[0] == s
    && var e := states[|steps|]; Enabled(e, Destroy(t)) && e.takers[t] == v && !e.vs[v].pc.Out?
  }

  /** A release can destroy the vcpu in launch exactly when its mode was not OUTSIDE_ROOT_MODE as it left the table. */
  lemma TakeIff(s: State, t: nat, k: nat)
    requires Inv(s) && Enabled(s, Take(t, k))
    ensures IsOut(s, s.table[k]) <==>
      forall states, steps :: !HitRunning(Apply(s, Take(t, k)), states, steps, t, s.table[k])
  {
    var v, s' := s.table[k], Apply(s, Take(t, k));
    AnyStep(s, Take(t, k));
    if IsOut(s, v) {
      forall states, steps ensures !HitRunning(s', states, steps, t, v) {
        if IsPath(states, steps) && states[0] == s' { StaysOut(states, steps, |steps|, v); }
      }
    } else {
      assert HitRunning(s', [s'], [], t, v);
    }
  }

  /** The only vcpu, listed, with its thread at pc. */
  function Listing(pc: Pc): State {
    State({0}, map[0 := 0], map[0 := Vcpu(0, Table, pc, false, false)], map[], map[], false, Up)
  }

  /** The same vcpu while it is being created. */
  function Creating(m: Making, vs: map<nat, Vcpu>): State { State({0}, map[], vs, map[0 := m], map[], false, Up) }

  lemma Created(states: seq<State>, steps: seq<Step>)
    requires steps == [Claim(0, 0), Make(0, 0), Publish(0)]
    requires states == [State({}, map[], map[], map[], map[], false, Up), Creating(Claimed(0), map[]),
                        Creating(Made(0, 0), map[0 := Vcpu(0, Maker(0), Out, false, false)]), Listing(Out)]
    ensures IsPath(states, steps)
  {
    assert Apply(states[0], steps[0]) == states[1];
    assert Apply(states[1], steps[1]) == states[2];
    assert Apply(states[2], steps[2]) == states[3];
  }

  lemma Entered(states: seq<State>, steps: seq<Step>)
    requires steps == [Enter(0), Thread(0, LookOwn), Thread(0, LookAll), Thread(0, Run)]
    requires states == [Listing(Out), Listing(Top), Listing(OwnLooked), Listing(Cleared), Listing(Guest)]
    ensures IsPath(states, steps)
  {
    assert Apply(states[0], steps[0]) == states[1];
    assert Apply(states[1], steps[1]) == states[2];
    assert Apply(states[2], steps[2]) == states[3];
    assert Apply(states[3], steps[3]) == states[4];
  }

  lemma Joined(xs: seq<State>, ss: seq<Step>, ys: seq<State>, ts: seq<Step>)
    requires IsPath(xs, ss) && IsPath(ys, ts) && xs[|ss|] == ys[0]
    ensures IsPath(xs + ys[1..], ss + ts)
  {
    hide Enabled, Apply;
    var states, steps := xs + ys[1..], ss + ts;
    forall i | 0 <= i < |steps| ensures Enabled(states[i], steps[i]) && states[i + 1] == Apply(states[i], steps[i]) {
      if i < |ss| {
        assert states[i] == xs[i] && states[i + 1] == xs[i + 1] && steps[i] == ss[i];
      } else {
        assert states[i] == ys[i - |ss|] && states[i + 1] == ys[i - |ss| + 1] && steps[i] == ts[i - |ss|];
      }
    }
  }

  /** SLIMVM_RELEASE_VCPU looks at no mode: a vcpu in the guest is taken out of the table and destroyed. */
  lemma RunningDestroyed() returns (states: seq<State>, steps: seq<Step>)
    ensures IsRun(states, steps) && |steps| == 8 && Enabled(states[8], Destroy(1))
    ensures states[8].takers[1] in states[8].vs && states[8].vs[states[8].takers[1]].pc.Guest?
  {
    hide Enabled, Apply;
    var s0 := State({}, map[], map[], map[], map[], false, Up);
    var x := Vcpu(0, Maker(0), Out, false, false);
    var xs, ss := [s0, Creating(Claimed(0), map[]), Creating(Made(0, 0), map[0 := x]), Listing(Out)],
                  [Claim(0, 0), Make(0, 0), Publish(0)];
    Created(xs, ss);
    var ys, ts := [Listing(Out), Listing(Top), Listing(OwnLooked), Listing(Cleared), Listing(Guest)],
                  [Enter(0), Thread(0, LookOwn), Thread(0, LookAll), Thread(0, Run)];
    Entered(ys, ts);
    Joined(xs, ss, ys, ts);
    TakeGuest();
    var zs, us := [Listing(Guest), Apply(Listing(Guest), Take(1, 0))], [Take(1, 0)];
    assert IsPath(zs, us);
    Joined(xs + ys[1..], ss + ts, zs, us);
    states, steps := xs + ys[1..] + zs[1..], ss + ts + us;
    assert states[8] == zs[1] && states[0] == s0;
  }

  lemma TakeGuest()
    ensures Enabled(Listing(Guest), Take(1, 0))
    ensures var s := Apply(Listing(Guest), Take(1, 0)); Enabled(s, Destroy(1)) && s.takers[1] == 0 && s.vs[0].pc.Guest?
  {
  }

  /** What instance_release destroys after its sync is never in launch. */
  lemma ReleaseAfterSync(states: seq<State>, steps: seq<Step>, n: nat, later: seq<State>, more: seq<Step>)
    requires IsRun(states, steps) && n < |steps| && states[n].phase.Synced? && steps[n].Take?
    ensures IsOut(states[n], states[n].table[steps[n].n])
    ensures !HitRunning(states[n + 1], later, more, steps[n].t, states[n].table[steps[n].n])
  {
    hide Init, Inv, HitRunning, Apply;
    RunInv(states, steps, n);
    assert Enabled(states[n], steps[n]);
    SyncedIsQuiet(states, steps, n, 0);
    TakeIff(states[n], steps[n].t, steps[n].n);
  }

  // ---- shutdown ----

  /** Past its last entry under its own flag, or under the instance's. */
  predicate Spent(pc: Pc) { pc.Guest? || pc.Back? || pc.Leaving? || pc.Out? }

  predicate SpentAll(pc: Pc) { Spent(pc) || pc.Top? || pc.OwnLooked? }

  /** The instance's flag is set once and for all, a vcpu's by shutdown_all_vcpus while it is in the table. */
  lemma FlagStep(s: State, step: Step, v: nat)
    requires Enabled(s, step)
    ensures var s' := Apply(s, step);
      && (v in s.vs ==> v in s'.vs) && (s'.shutdown <==> s.shutdown || step.FlagInstance?)
      && (v in s'.vs ==> (s'.vs[v].shutdown <==> v in s.vs && (s.vs[v].shutdown || (step.FlagAll? && Listed(s, v)))))
  {
    hide FirstZero, IsOut, Can;
  }

  /** With its own flag set, or the instance's, a vcpu that has entered once does not come back to the entry. */
  lemma SpentStep(s: State, step: Step, v: nat)
    requires Enabled(s, step) && v in s.vs
    ensures var s' := Apply(s, step);
      && v in s'.vs
      && (s.vs[v].shutdown && Spent(s.vs[v].pc) ==> Spent(s'.vs[v].pc))
      && (s.shutdown && SpentAll(s.vs[v].pc) ==> SpentAll(s'.vs[v].pc))
  {
    hide FirstZero, Flag;
    if step.FlagAll? { FlagPc(s, v); }
  }

  lemma FlagPc(s: State, v: nat)
    requires v in s.vs
    ensures v in Flag(s) && Flag(s)[v].pc == s.vs[v].pc
  {
  }

  /** A vcpu's flag is set exactly when shutdown_all_vcpus has found it in the table. */
  lemma {:induction false} FlagIff(states: seq<State>, steps: seq<Step>, n: nat, v: nat)
    requires IsRun(states, steps) && n < |states| && v in states[n].vs
    ensures states[n].vs[v].shutdown <==>
      exists i :: 0 <= i < n && steps[i].FlagAll? && v in states[i].vs && Listed(states[i], v)
  {
    hide Apply, Enabled, Listed;
    if n > 0 {
      assert Enabled(states[n - 1], steps[n - 1]);
      FlagStep(states[n - 1], steps[n - 1], v);
      if v in states[n - 1].vs { FlagIff(states, steps, n - 1, v); } else { NotYet(states, steps, n - 1, v); }
      if steps[n - 1].FlagAll? { assert 0 <= n - 1 < n; }
    }
  }

  lemma {:induction false} NotYet(states: seq<State>, steps: seq<Step>, n: nat, v: nat)
    requires IsRun(states, steps) && n < |states| && v !in states[n].vs
    ensures forall i :: 0 <= i <= n ==> v !in states[i].vs
  {
    hide Apply, Enabled, Listed;
    if n > 0 {
      assert Enabled(states[n - 1], steps[n - 1]);
      FlagStep(states[n - 1], steps[n - 1], v);
      NotYet(states, steps, n - 1, v);
    }
  }

  /** And the instance's exactly when its step has come. */
  lemma {:induction false} InstanceFlagIff(states: seq<State>, steps: seq<Step>, n: nat)
    requires IsRun(states, steps) && n < |states|
    ensures states[n].shutdown <==> exists i :: 0 <= i < n && steps[i].FlagInstance?
  {
    hide Apply, Enabled;
    if n > 0 {
      InstanceFlagIff(states, steps, n - 1);
      assert Enabled(states[n - 1], steps[n - 1]);
      FlagStep(states[n - 1], steps[n - 1], 0);
      if steps[n - 1].FlagInstance? { assert 0 <= n - 1 < n; }
    }
  }

  lemma {:induction false} FlagStays(states: seq<State>, steps: seq<Step>, n: nat, k: nat, v: nat)
    requires IsRun(states, steps) && n <= k < |states| && v in states[n].vs
    ensures v in states[k].vs && (states[n].vs[v].shutdown ==> states[k].vs[v].shutdown)
    ensures states[n].shutdown ==> states[k].shutdown
  {
    hide Apply, Enabled, Listed;
    if n < k {
      FlagStays(states, steps, n, k - 1, v);
      assert Enabled(states[k - 1], steps[k - 1]);
      FlagStep(states[k - 1], steps[k - 1], v);
    }
  }

  lemma {:induction false} StaysSpent(states: seq<State>, steps: seq<Step>, n: nat, k: nat, v: nat)
    requires IsRun(states, steps) && n <= k < |states| && v in states[n].vs
    requires (states[n].vs[v].shutdown && Spent(states[n].vs[v].pc))
             || (states[n].shutdown && SpentAll(states[n].vs[v].pc))
    ensures v in states[k].vs && !states[k].vs[v].pc.Cleared?
    decreases k - n
  {
    hide Apply, Enabled;
    if n < k {
      assert Enabled(states[n], steps[n]);
      FlagStep(states[n], steps[n], v);
      SpentStep(states[n], steps[n], v);
      StaysSpent(states, steps, n + 1, k, v);
    }
  }

  lemma RunStep(s: State, v: nat)
    requires Enabled(s, Thread(v, Run))
    ensures v in s.vs && s.vs[v].pc.Cleared?
    ensures v in Apply(s, Thread(v, Run)).vs && Apply(s, Thread(v, Run)).vs[v].pc.Guest?
  {
  }

  /** After its own flag is set, or the instance's, a vcpu enters the guest at most once more: no two entries of it come
      after that in any run. */
  lemma AtMostOneMore(states: seq<State>, steps: seq<Step>, n: nat, v: nat, i: nat, k: nat)
    requires IsRun(states, steps) && n <= i < k < |steps| && v in states[n].vs
    requires states[n].vs[v].shutdown || states[n].shutdown
    ensures !(steps[i] == Thread(v, Run) && steps[k] == Thread(v, Run))
  {
    hide Apply, Enabled, Init;
    assert Enabled(states[i], steps[i]) && Enabled(states[k], steps[k]);
    FlagStays(states, steps, n, i, v);
    if steps[i] == Thread(v, Run) && steps[k] == Thread(v, Run) {
      RunStep(states[i], v);
      RunStep(states[k], v);
      FlagStep(states[i], steps[i], v);
      StaysSpent(states, steps, i + 1, k, v);
    }
  }

  /** A vcpu at the top of the loop gets into the guest by looking at both flags exactly when neither is set. */
  lemma EntersIff(s: State, v: nat)
    requires v in s.vs && s.vs[v].pc.Top?
    ensures Enabled(s, Thread(v, LookOwn))
    ensures var s1 := Apply(s, Thread(v, LookOwn));
      && (Enabled(s1, Thread(v, LookAll)) <==> !s.vs[v].shutdown)
      && (!s.vs[v].shutdown ==>
          var s2 := Apply(s1, Thread(v, LookAll));
          && (Enabled(s2, Thread(v, Run)) <==> !s.shutdown)
          && (!s.shutdown ==> Apply(s2, Thread(v, Run)).vs[v].pc.Guest?))
  {
  }

  /** Where an action of its thread takes a vcpu: it leaves the loop exactly when it sees a flag, is stopped, or is
      done; it is at the top exactly after it was sent round or came back from the guest with no flag set; it is out
      of launch only by the mode change that ends it. */
  lemma PlaceIff(x: Vcpu, a: Action, all: bool)
    requires Can(x, a)
    ensures var y := After(x, a, all).pc;
      && (y.Leaving? <==>
          || (a.LookOwn? && x.shutdown) || (a.LookAll? && all) || a.Stop? || (a.Bottom? && (a.done || x.shutdown)))
      && (y.Top? <==> a.Again? || (a.Bottom? && !a.done && !x.shutdown))
      && (y.Out? <==> a.Leave?) && (y.Guest? <==> a.Run?) && (y.Back? <==> a.Exit?)
  {
  }

  lemma OtherPc(s: State, step: Step, v: nat)
    requires Enabled(s, step) && v in s.vs && !(step.Thread? && step.v == v)
    ensures v in Apply(s, step).vs
    ensures Apply(s, step).vs[v].pc == if step.Enter? && IsFor(s, step.n, v) then Top else s.vs[v].pc
  {
    hide FirstZero, Flag, Can, After;
    if step.FlagAll? { FlagPc(s, v); }
  }

  /** Nothing else moves it, but slimvm_enter that puts it at the top. */
  lemma OthersLeave(states: seq<State>, steps: seq<Step>, n: nat, v: nat)
    requires IsRun(states, steps) && n < |steps| && v in states[n].vs && !(steps[n].Thread? && steps[n].v == v)
    ensures v in states[n + 1].vs
    ensures states[n + 1].vs[v].pc ==
            if steps[n].Enter? && IsFor(states[n], steps[n].n, v) then Top else states[n].vs[v].pc
  {
    hide Apply, Enabled, Init;
    assert Enabled(states[n], steps[n]);
    OtherPc(states[n], steps[n], v);
  }

  predicate IsFor(s: State, n: nat, v: nat) { n in s.table && s.table[n] == v }

  /** shutdown_all_vcpus, the instance's flag and the sync can be carried through from every state; the sync waits
      exactly for the listed vcpus to be outside. */
  lemma ReleaseIff(s: State)
    requires s.phase.Up? || s.phase.Flagged?
    ensures Enabled(s, FlagAll) && Enabled(Apply(s, FlagAll), FlagInstance)
    ensures var s' := Apply(Apply(s, FlagAll), FlagInstance);
      && s'.table == s.table && (forall n :: n in s.table ==> (IsOut(s', s.table[n]) <==> IsOut(s, s.table[n])))
      && (Enabled(s', Sync) <==> forall n :: n in s.table ==> IsOut(s, s.table[n]))
      && (Enabled(s', Sync) ==> Apply(s', Sync).phase.Synced?)
  {
    hide Flag;
    forall v | v in s.vs ensures v in Flag(s) && Flag(s)[v].pc == s.vs[v].pc { FlagPc(s, v); }
    FlagKeys(s);
  }

  lemma FlagKeys(s: State)
    ensures Flag(s).Keys == s.vs.Keys
  {
  }

  /** The number a creation claims is the lowest that is free. */
  lemma ClaimsLowest(states: seq<State>, steps: seq<Step>, n: nat, k: nat)
    requires IsRun(states, steps) && n < |steps| && steps[n].Claim?
    ensures steps[n].n < 0x800 && steps[n].n !in states[n].bits && steps[n].n in states[n + 1].bits
    ensures k < steps[n].n ==> k in states[n].bits
  {
    assert Enabled(states[n], steps[n]);
  }

  lemma Gone(s: State, step: Step, v: nat)
    requires Enabled(s, step) && OwnersOk(s) && v in s.vs && s.vs[v].owner.Nobody?
    ensures v in Apply(s, step).vs && Apply(s, step).vs[v].owner.Nobody?
  {
    hide FirstZero, Flag, Can, After;
    if step.FlagAll? { FlagOwner(s, v); }
    if step.Thread? { AfterOwner(s.vs[step.v], step.a, s.shutdown); }
  }

  lemma FlagOwner(s: State, v: nat)
    requires v in s.vs
    ensures v in Flag(s) && Flag(s)[v].owner == s.vs[v].owner
  {
  }

  lemma {:induction false} StaysGone(states: seq<State>, steps: seq<Step>, n: nat, k: nat, v: nat)
    requires IsRun(states, steps) && n <= k < |states| && v in states[n].vs && states[n].vs[v].owner.Nobody?
    ensures v in states[k].vs && states[k].vs[v].owner.Nobody?
  {
    hide Apply, Enabled, Init, BitsOk, RunsOk, OwnersOk;
    if n < k {
      StaysGone(states, steps, n, k - 1, v);
      RunInv(states, steps, k - 1);
      assert Enabled(states[k - 1], steps[k - 1]);
      Gone(states[k - 1], steps[k - 1], v);
    }
  }

  lemma DestroyStep(s: State, t: nat)
    requires Enabled(s, Destroy(t)) && OwnersOk(s)
    ensures t in s.takers && s.takers[t] in s.vs && s.vs[s.takers[t]].owner.Taker?
    ensures var s' := Apply(s, Destroy(t)); s.takers[t] in s'.vs && s'.vs[s.takers[t]].owner.Nobody?
  {
  }

  /** No two steps of a run destroy the same vcpu, and none destroys one that is in the table. */
  lemma DestroyedOnce(states: seq<State>, steps: seq<Step>, i: nat, k: nat)
    requires IsRun(states, steps) && i < k < |steps| && steps[i].Destroy? && steps[k].Destroy?
    ensures steps[i].t in states[i].takers && steps[k].t in states[k].takers
    ensures states[i].takers[steps[i].t] != states[k].takers[steps[k].t]
    ensures states[i].takers[steps[i].t] !in states[i].table.Values
  {
    hide Apply, Enabled, Init, BitsOk, RunsOk;
    assert Enabled(states[i], steps[i]) && Enabled(states[k], steps[k]);
    RunInv(states, steps, i);
    RunInv(states, steps, k);
    DestroyStep(states[i], steps[i].t);
    DestroyStep(states[k], steps[k].t);
    StaysGone(states, steps, i + 1, k, states[i].takers[steps[i].t]);
  }
}
