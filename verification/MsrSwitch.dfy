// Lazy switching of the shared MSRs (vmx.c:878-903, vmx.c:1697-1728, vmx.c:2334-2354, vmx.c:2604-2665): at each entry
// and each time the thread gives the CPU up, the hardware holds what switching everything every time would put there.

module MsrSwitch {
  import opened MsrTable

  /** After these exits only MSR_EFER and MSR_KERNEL_GS_BASE go back to the host. */
  predicate Short(r: Exit) { r.Vmcall? || r.EptViolation? || r.ExternalInterrupt? }

  const PAIR: set<Msr> := {Efer, KernelGsBase}

  // ---- the code ----

  /** vmx_load_vcpu and slimvm_sched_in, on a CPU that holds the values hw. */
  function LazyIn(s: State, hw: Values): State
    requires WellFormed(s) && Full(hw)
  {
    HostSaved(s.(hw := hw), First(6)).(scheded := true)
  }

  function LazyEnter(s: State): State
    requires WellFormed(s)
  {
    if s.scheded then GuestIn(s, First(6)).(loaded := true, scheded := false)
    else if Short(s.last) then GuestIn(s, PAIR)
    else GuestIn(s, First(6)).(loaded := true)
  }

  function LazyExit(s: State, r: Exit): State
    requires WellFormed(s)
  {
    var t := GuestSaved(s, KernelGsBase).(last := r);
    if Short(r) then HostIn(t, PAIR) else HostOut(t)
  }

  // ---- the reference: everything, every time ----

  function Write(s: State, vals: Values): State
    requires vals.Keys == s.tracked
  {
    s.(hw := map m | m in s.hw :: if m in s.tracked then vals[m] else s.hw[m])
  }

  function EagerIn(s: State, hw: Values): State
    requires WellFormed(s) && Full(hw)
  {
    s.(hw := hw, host := map m | m in s.tracked :: hw[m])
  }

  function EagerExit(s: State, r: Exit): State
    requires WellFormed(s)
  {
    var t := if KernelGsBase in s.tracked then s.(guest := s.guest[KernelGsBase := s.hw[KernelGsBase]]) else s;
    Write(t, t.host).(last := r)
  }

  // ---- runs ----

  datatype Event =
    | In(hw: Values) | Enter | Swapgs(base: int) | Exit(reason: MsrTable.Exit) | WriteMsr(m: Msr, data: int) | Out

  datatype Place = Away | Host | Guest

  /** A thread: where it is, its MSRs, and what the CPU held when it last got one. */
  datatype Thread = Thread(at: Place, s: State, base: Values)

  predicate Can(t: Thread, e: Event) {
    match e
    case In(hw) => t.at.Away? && Full(hw)
    case Enter => t.at.Host?
    case Swapgs(_) => t.at.Guest? && KernelGsBase in t.s.tracked   // a CPU without it has no SWAPGS
    case Exit(_) => t.at.Guest?
    case WriteMsr(_, _) => t.at.Host? && t.s.last.MsrWrite?
    case Out => t.at.Host?
  }

  function Lazy(t: Thread, e: Event): Thread
    requires WellFormed(t.s) && Can(t, e)
  {
    match e
    case In(hw) => Thread(Host, LazyIn(t.s, hw), hw)
    case Enter => t.(at := Guest, s := LazyEnter(t.s))
    case Swapgs(base) => t.(s := t.s.(hw := t.s.hw[KernelGsBase := base]))
    case Exit(r) => t.(at := Host, s := LazyExit(t.s, r))
    case WriteMsr(m, data) => t.(s := GuestWritten(t.s, m, data))
    case Out => t.(at := Away, s := HostOut(t.s))
  }

  function Eager(t: Thread, e: Event): Thread
    requires WellFormed(t.s) && (match e case In(hw) => Full(hw) case _ => true)
  {
    match e
    case In(hw) => Thread(Host, EagerIn(t.s, hw), hw)
    case Enter => t.(at := Guest, s := Write(t.s, t.s.guest))
    case Swapgs(base) => t.(s := t.s.(hw := t.s.hw[KernelGsBase := base]))
    case Exit(r) => t.(at := Host, s := EagerExit(t.s, r))
    case WriteMsr(m, data) => if m in t.s.tracked then t.(s := t.s.(guest := t.s.guest[m := data])) else t
    case Out => t.(at := Away)
  }

  // ---- what relates the two ----

  /** The hardware value the code leaves in MSR m while the kernel runs after a short exit. */
  function Left(s: State, m: Msr): int
    requires m in s.tracked && WellFormed(s)
  {
    if m in PAIR then s.host[m] else s.guest[m]
  }

  predicate SameTables(l: State, e: State) {
    && WellFormed(l) && WellFormed(e) && l.tracked == e.tracked
    && l.guest == e.guest && l.host == e.host && l.last == e.last
  }

  predicate HostHw(s: State, base: Values)
    requires WellFormed(s)
  {
    s.hw == base && forall m :: m in s.tracked ==> s.host[m] == s.hw[m]
  }

  predicate Related(l: Thread, e: Thread) {
    && SameTables(l.s, e.s) && l.at == e.at && l.base == e.base && Full(l.base)
    && l.s.tracked <= First(6)
    && (forall m :: m !in l.s.tracked ==> l.s.hw[m] == e.s.hw[m] == l.base[m])
    && match l.at
       case Away => !l.s.loaded && l.s.hw == e.s.hw == l.base
       case Host =>
         && HostHw(e.s, e.base) && (l.s.scheded ==> !l.s.loaded)
         && (l.s.loaded ==> Short(l.s.last)) && (!l.s.scheded && Short(l.s.last) ==> l.s.loaded)
         && (!l.s.loaded ==> l.s.hw == e.s.hw)
         && (l.s.loaded ==> forall m :: l.s.hw[m] == if m in l.s.tracked then Left(l.s, m) else l.base[m])
       case Guest =>
         && l.s.loaded && !l.s.scheded && l.s.hw == e.s.hw
         && (forall m :: m in l.s.tracked && m != KernelGsBase ==> l.s.hw[m] == l.s.guest[m])
         && (forall m :: m in l.s.tracked ==> l.s.host[m] == l.base[m])
  }

  lemma InStep(l: Thread, e: Thread, hw: Values)
    requires Related(l, e) && Can(l, In(hw))
    ensures Related(Lazy(l, In(hw)), Eager(e, In(hw)))
  {
    assert LazyIn(l.s, hw).host == EagerIn(e.s, hw).host;
  }

  /** After an entry both hold the guest's value in every MSR. */
  lemma EnterStep(l: Thread, e: Thread)
    requires Related(l, e) && Can(l, Enter)
    ensures Related(Lazy(l, Enter), Eager(e, Enter))
    ensures var s := Lazy(l, Enter).s; forall m :: m in s.tracked ==> s.hw[m] == s.guest[m]
  {
    assert LazyEnter(l.s).hw == Write(e.s, e.s.guest).hw;
  }

  lemma SwapStep(l: Thread, e: Thread, base: int)
    requires Related(l, e) && Can(l, Swapgs(base))
    ensures Related(Lazy(l, Swapgs(base)), Eager(e, Swapgs(base)))
  {
  }

  /** A thread just out of the guest, its swapped base saved: the hardware holds the guest's values. */
  predicate JustOut(t: State, base: Values) {
    && WellFormed(t) && Full(base) && t.loaded && t.tracked <= First(6)
    && (forall m :: m in t.tracked ==> t.hw[m] == t.guest[m] && t.host[m] == base[m])
    && (forall m :: m !in t.tracked ==> t.hw[m] == base[m])
  }

  lemma ShortExit(t: State, base: Values)
    requires JustOut(t, base)
    ensures var s := HostIn(t, PAIR); forall m :: s.hw[m] == if m in s.tracked then Left(s, m) else base[m]
  {
  }

  lemma LongExit(t: State, base: Values)
    requires JustOut(t, base)
    ensures HostOut(t).hw == base
  {
  }

  lemma EagerOut(e: State, base: Values, r: MsrTable.Exit)
    requires WellFormed(e) && Full(base) && e.tracked <= First(6)
    requires forall m :: m in e.tracked ==> e.host[m] == base[m]
    requires forall m :: m !in e.tracked ==> e.hw[m] == base[m]
    ensures EagerExit(e, r).hw == base
  {
  }

  lemma SavedOut(l: Thread, e: Thread, r: MsrTable.Exit)
    requires Related(l, e) && Can(l, Exit(r))
    ensures var t := GuestSaved(l.s, KernelGsBase).(last := r);
      && JustOut(t, l.base) && t.tracked == l.s.tracked && t.host == l.s.host && t.guest == EagerExit(e.s, r).guest
      && !t.scheded
    ensures EagerExit(e.s, r).hw == e.base
  {
    EagerOut(e.s, e.base, r);
  }

  lemma ExitStep(l: Thread, e: Thread, r: MsrTable.Exit)
    requires Related(l, e) && Can(l, Exit(r))
    ensures Related(Lazy(l, Exit(r)), Eager(e, Exit(r)))
  {
    hide HostIn, HostOut, First, GuestSaved, EagerExit;
    var t := GuestSaved(l.s, KernelGsBase).(last := r);
    SavedOut(l, e, r);
    ExitKeeps(e.s, r);
    var e' := EagerExit(e.s, r);
    assert HostHw(e', e.base);
    if Short(r) {
      ShortExit(t, l.base);
      ShortKeeps(t);
    } else {
      LongExit(t, l.base);
      LongKeeps(t);
    }
  }

  lemma ShortKeeps(t: State)
    requires WellFormed(t)
    ensures HostIn(t, PAIR) == t.(hw := HostIn(t, PAIR).hw) && Full(HostIn(t, PAIR).hw)
  {
  }

  lemma LongKeeps(t: State)
    requires WellFormed(t)
    ensures HostOut(t) == t.(hw := HostOut(t).hw, loaded := false) && Full(HostOut(t).hw)
  {
  }

  lemma ExitKeeps(e: State, r: MsrTable.Exit)
    requires WellFormed(e)
    ensures var t := EagerExit(e, r); t.tracked == e.tracked && t.host == e.host && t.last == r && WellFormed(t)
  {
  }

  lemma WriteStep(l: Thread, e: Thread, m: Msr, data: int)
    requires Related(l, e) && Can(l, WriteMsr(m, data))
    ensures Related(Lazy(l, WriteMsr(m, data)), Eager(e, WriteMsr(m, data)))
  {
  }

  lemma OutStep(l: Thread, e: Thread)
    requires Related(l, e) && Can(l, Out)
    ensures Related(Lazy(l, Out), Eager(e, Out))
  {
    assert HostOut(l.s).hw == e.s.hw;
  }

  lemma AnyStep(l: Thread, e: Thread, ev: Event)
    requires Related(l, e) && Can(l, ev)
    ensures Related(Lazy(l, ev), Eager(e, ev))
  {
    hide Lazy, Eager;
    match ev
    case In(hw) => InStep(l, e, hw);
    case Enter => EnterStep(l, e);
    case Swapgs(base) => SwapStep(l, e, base);
    case Exit(r) => ExitStep(l, e, r);
    case WriteMsr(m, data) => WriteStep(l, e, m, data);
    case Out => OutStep(l, e);
  }

  // ---- whole runs ----

  predicate Start(t: Thread) {
    WellFormed(t.s) && t.at.Away? && !t.s.loaded && t.s.tracked <= First(6) && t.s.hw == t.base
  }

  /** The same events, switched lazily in ls and eagerly in es. */
  ghost predicate AreRuns(ls: seq<Thread>, es: seq<Thread>, events: seq<Event>) {
    && |ls| == |es| == |events| + 1 && ls[0] == es[0] && Start(ls[0])
    && (forall i :: 0 <= i < |ls| ==> WellFormed(ls[i].s) && WellFormed(es[i].s))
    && (forall i :: 0 <= i < |events| ==> Can(ls[i], events[i]) && ls[i + 1] == Lazy(ls[i], events[i]))
    && (forall i :: 0 <= i < |events| ==> es[i + 1] == Eager(es[i], events[i]))
  }

  lemma {:induction false} RunsRelated(ls: seq<Thread>, es: seq<Thread>, events: seq<Event>, n: nat)
    requires AreRuns(ls, es, events) && n < |ls|
    ensures Related(ls[n], es[n])
  {
    hide Lazy, Eager;
    if n > 0 {
      RunsRelated(ls, es, events, n - 1);
      AnyStep(ls[n - 1], es[n - 1], events[n - 1]);
    }
  }

  /** Whatever happens, each entry finds every shared MSR at its guest value, each time the thread gives up the CPU
      the MSRs are what they were when it got it, and the tables never differ from those of eager switching. */
  lemma LazyIsEager(ls: seq<Thread>, es: seq<Thread>, events: seq<Event>, n: nat)
    requires AreRuns(ls, es, events) && n < |events|
    ensures ls[n].s.guest == es[n].s.guest && ls[n].s.host == es[n].s.host
    ensures events[n].Enter? ==> ls[n + 1].s.hw == es[n + 1].s.hw
    ensures events[n].Enter? ==> forall m :: m in ls[n].s.tracked ==> ls[n + 1].s.hw[m] == ls[n].s.guest[m]
    ensures events[n].Out? ==> ls[n + 1].s.hw == es[n + 1].s.hw == ls[n].base
  {
    RunsRelated(ls, es, events, n);
    RunsRelated(ls, es, events, n + 1);
    if events[n].Enter? { EnterStep(ls[n], es[n]); }
  }

  // ---- what the guest and the host find ----

  lemma TableStep(t: Thread, ev: Event, m: Msr)
    requires WellFormed(t.s) && Can(t, ev) && !t.at.Guest? && !ev.Enter? && m in t.s.tracked
    requires !(ev.WriteMsr? && ev.m == m)
    ensures var u := Lazy(t, ev);
      !u.at.Guest? && u.s.tracked == t.s.tracked && m in u.s.guest && u.s.guest[m] == t.s.guest[m]
  {
  }

  /** Out of the guest, only a write by the guest's own request changes what the next entry will load. */
  lemma {:induction false} TableKept(ls: seq<Thread>, es: seq<Thread>, events: seq<Event>, i: nat, k: nat, m: Msr)
    requires AreRuns(ls, es, events) && i <= k < |ls| && !ls[i].at.Guest? && m in ls[i].s.tracked
    requires forall j :: i <= j < k ==> !events[j].Enter? && !(events[j].WriteMsr? && events[j].m == m)
    ensures !ls[k].at.Guest? && ls[k].s.tracked == ls[i].s.tracked && ls[k].s.guest[m] == ls[i].s.guest[m]
  {
    hide Lazy, Eager, Start;
    if i < k {
      TableKept(ls, es, events, i, k - 1, m);
      TableStep(ls[k - 1], events[k - 1], m);
    }
  }

  /** What the guest wrote to an MSR is in the hardware at its next entry. */
  lemma WriteIsSeen(ls: seq<Thread>, es: seq<Thread>, events: seq<Event>, n: nat, k: nat)
    requires AreRuns(ls, es, events) && n < k < |events| && events[n].WriteMsr? && events[k].Enter?
    requires events[n].m in ls[n].s.tracked
    requires forall j :: n < j < k ==> !events[j].Enter? && !(events[j].WriteMsr? && events[j].m == events[n].m)
    ensures events[n].m in ls[k + 1].s.hw && ls[k + 1].s.hw[events[n].m] == events[n].data
  {
    hide Eager, Start;
    var m := events[n].m;
    assert Can(ls[n], events[n]) && ls[n + 1] == Lazy(ls[n], events[n]);
    TableKept(ls, es, events, n + 1, k, m);
    LazyIsEager(ls, es, events, k);
  }

  /** An entry finds every MSR as the guest left it at its last exit, but for what it has asked to be written since. */
  lemma GuestSeesItsOwn(ls: seq<Thread>, es: seq<Thread>, events: seq<Event>, n: nat, k: nat, m: Msr)
    requires AreRuns(ls, es, events) && n < k < |events| && events[n].Exit? && events[k].Enter? && m in ls[n].s.tracked
    requires forall j :: n < j < k ==> !events[j].Enter? && !(events[j].WriteMsr? && events[j].m == m)
    ensures m in ls[k + 1].s.hw && ls[k + 1].s.hw[m] == ls[n].s.hw[m]
  {
    hide Eager, Start;
    assert Can(ls[n], events[n]) && ls[n + 1] == Lazy(ls[n], events[n]);
    RunsRelated(ls, es, events, n);
    ExitTable(ls[n], es[n], events[n].reason, m);
    TableKept(ls, es, events, n + 1, k, m);
    LazyIsEager(ls, es, events, k);
  }

  lemma ExitTable(l: Thread, e: Thread, r: MsrTable.Exit, m: Msr)
    requires Related(l, e) && Can(l, Exit(r)) && m in l.s.tracked
    ensures var u := Lazy(l, Exit(r));
      u.at.Host? && u.s.tracked == l.s.tracked && m in u.s.guest && u.s.guest[m] == l.s.hw[m]
  {
    hide HostIn, HostOut, First, GuestSaved, EagerExit;
    var t := GuestSaved(l.s, KernelGsBase).(last := r);
    SavedOut(l, e, r);
    SavedHw(l.s);
    if Short(r) { ShortKeeps(t); } else { LongKeeps(t); }
  }

  lemma SavedHw(s: State)
    requires WellFormed(s)
    ensures GuestSaved(s, KernelGsBase).hw == s.hw
  {
  }

  /** What the host finds after an exit: its own values everywhere, but after a VMCALL, an EPT violation or an external
      interrupt the guest's in all tracked MSRs other than MSR_EFER and MSR_KERNEL_GS_BASE. */
  lemma ExitLeaves(ls: seq<Thread>, es: seq<Thread>, events: seq<Event>, n: nat, m: Msr)
    requires AreRuns(ls, es, events) && n < |events| && events[n].Exit?
    ensures var r, l := events[n].reason, ls[n + 1];
      && m in l.s.hw && m in l.base && l.base == ls[n].base
      && l.s.hw[m] == if (r.Vmcall? || r.EptViolation? || r.ExternalInterrupt?) && m in l.s.tracked && !m.Efer?
                         && !m.KernelGsBase? then l.s.guest[m] else l.base[m]
  {
    hide Lazy, Eager, Start;
    RunsRelated(ls, es, events, n);
    RunsRelated(ls, es, events, n + 1);
    assert Can(ls[n], events[n]);
    ExitPlace(ls[n], events[n].reason);
  }

  lemma ExitPlace(t: Thread, r: MsrTable.Exit)
    requires WellFormed(t.s) && Can(t, Exit(r))
    ensures var u := Lazy(t, Exit(r)); u.at.Host? && u.base == t.base && u.s.last == r && u.s.scheded == t.s.scheded
  {
  }

  // ---- the code, in place ----

  method SchedIn(v: Vcpu, hw: Values)
    requires v.Valid() && Full(hw)
    modifies v, v.host
    ensures v.Valid() && v.Value() == LazyIn(old(v.Value()), hw)
  {
    hide v.Tables, v.Tracked, v.GuestValues, v.HostValues, HostSaved, First;
    v.hw := hw;
    v.SaveHostMsrs();
    v.scheded := true;
  }

  method EnterGuest(v: Vcpu)
    requires v.Valid()
    modifies v`hw, v`loaded, v`scheded
    ensures v.Valid() && v.Value() == LazyEnter(old(v.Value()))
  {
    hide v.Tables, v.Tracked, v.GuestValues, v.HostValues, GuestIn, First;
    ghost var s := v.Value();
    if v.scheded {
      v.LoadGuestMsrs();
      v.scheded := false;
    } else {
      match v.last
      case Vmcall | EptViolation | ExternalInterrupt =>
        v.LoadGuestMsr(Efer);
        v.LoadGuestMsr(KernelGsBase);
        BothIn(s);
      case _ =>
        v.LoadGuestMsrs();
    }
  }

  method ExitGuest(v: Vcpu, reason: MsrTable.Exit)
    requires v.Valid()
    modifies v`hw, v`loaded, v`last, v.guest
    ensures v.Valid() && v.Value() == LazyExit(old(v.Value()), reason)
  {
    hide v.Tables, v.Tracked, v.GuestValues, v.HostValues, HostIn, GuestSaved, HostOut;
    v.last := reason;
    LastAside(v.Value(), old(v.Value()).last);
    v.SaveGuestMsr(KernelGsBase);
    ghost var s := v.Value();
    match reason
    case Vmcall | EptViolation | ExternalInterrupt =>
      v.LoadHostMsr(Efer);
      v.LoadHostMsr(KernelGsBase);
      BothIn(s);
    case _ =>
      v.LoadHostMsrs();
  }

  lemma LastAside(s: State, last: MsrTable.Exit)
    requires WellFormed(s)
    ensures GuestSaved(s, KernelGsBase) == GuestSaved(s.(last := last), KernelGsBase).(last := s.last)
  {
  }

  lemma BothIn(s: State)
    requires WellFormed(s)
    ensures GuestIn(GuestIn(s, {Efer}), {KernelGsBase}) == GuestIn(s, PAIR)
    ensures HostIn(HostIn(s, {Efer}), {KernelGsBase}) == HostIn(s, PAIR)
  {
  }

  /** One event, as the code takes it; an event that cannot happen now is passed over. */
  method Take(v: Vcpu, at: Place, e: Event, ghost base: Values) returns (at': Place)
    requires v.Valid()
    modifies v, v.guest, v.host
    ensures v.Valid()
    ensures var l := Thread(at, old(v.Value()), base);
      if Can(l, e) then at' == Lazy(l, e).at && v.Value() == Lazy(l, e).s else at' == at && v.Value() == l.s
  {
    hide v.Tables, v.GuestValues, v.HostValues, HostOut, LazyEnter, LazyExit, LazyIn, GuestWritten;
    at' := at;
    match e
    case In(hw) => if at.Away? && Full(hw) { SchedIn(v, hw); at' := Host; }
    case Enter => if at.Host? { EnterGuest(v); at' := Guest; }
    case Swapgs(b) =>
      v.Row(KernelGsBase);
      if at.Guest? && v.index[KernelGsBase] >= 0 { v.hw := v.hw[KernelGsBase := b]; }
    case Exit(r) => if at.Guest? { ExitGuest(v, r); at' := Host; }
    case WriteMsr(m, data) => if at.Host? && v.last.MsrWrite? { var _ := v.HandleMsrWrite(m, data); }
    case Out => if at.Host? { v.LoadHostMsrs(); at' := Away; }
  }

  lemma Alike(v: Vcpu)
    requires v.Valid() && !v.loaded
    ensures var t := Thread(Away, v.Value(), v.hw); Related(t, t)
  {
    forall m | m in v.Tracked() ensures m in First(6) { var k :| 0 <= k < 6 && SHARED[k] == m; }
  }

  // ---- the code over whole runs, against the reference over the same events ----

  /** The thread after the events, each taken if it can happen when it comes. */
  function LazyRun(t: Thread, events: seq<Event>): Thread {
    if events == [] then t
    else
      var u, e := LazyRun(t, events[..|events| - 1]), events[|events| - 1];
      if WellFormed(u.s) && Can(u, e) then Lazy(u, e) else u
  }

  function EagerRun(t: Thread, events: seq<Event>): Thread {
    if events == [] then t
    else
      var u, e := EagerRun(t, events[..|events| - 1]), events[|events| - 1];
      if WellFormed(u.s) && Can(u, e) then Eager(u, e) else u
  }

  lemma OneMore(t: Thread, events: seq<Event>, i: nat)
    requires i < |events|
    ensures var u, e := LazyRun(t, events[..i]), events[i];
      LazyRun(t, events[..i + 1]) == if WellFormed(u.s) && Can(u, e) then Lazy(u, e) else u
    ensures var u, e := EagerRun(t, events[..i]), events[i];
      EagerRun(t, events[..i + 1]) == if WellFormed(u.s) && Can(u, e) then Eager(u, e) else u
  {
    var longer := events[..i + 1];
    assert longer[..|longer| - 1] == events[..i] && longer[|longer| - 1] == events[i];
  }

  /** Related threads can take the same events. */
  lemma SameEvents(l: Thread, e: Thread, ev: Event)
    requires Related(l, e)
    ensures Can(l, ev) <==> Can(e, ev)
  {
  }

  /** The code run over any events ends as the lazy thread does, with the tables of eager switching over the same
      events; in the guest and away from the CPU the hardware is that of eager switching, and a thread that is away
      has left the CPU as it found it. */
  method Drive(v: Vcpu, events: seq<Event>) returns (at: Place)
    requires v.Valid() && !v.loaded
    modifies v, v.guest, v.host
    ensures v.Valid()
    ensures var start := Thread(Away, old(v.Value()), old(v.hw));
      var l, e := LazyRun(start, events), EagerRun(start, events);
      && at == l.at == e.at && v.Value() == l.s && Related(l, e)
      && v.GuestValues() == e.s.guest && v.HostValues() == e.s.host
      && (at.Guest? ==> v.hw == e.s.hw) && (at.Away? ==> v.hw == e.s.hw == e.base)
  {
    hide v.Tables, v.Tracked, v.GuestValues, v.HostValues, Lazy, Eager, LazyRun, EagerRun, Can;
    at := Away;
    ghost var start := Thread(Away, v.Value(), v.hw);
    Alike(v);
    NoEvents(start);
    assert events[..0] == [];
    for i := 0 to |events|
      invariant v.Valid() && at == LazyRun(start, events[..i]).at && v.Value() == LazyRun(start, events[..i]).s
      invariant Related(LazyRun(start, events[..i]), EagerRun(start, events[..i]))
    {
      ghost var l, e := LazyRun(start, events[..i]), EagerRun(start, events[..i]);
      OneMore(start, events, i);
      SameEvents(l, e, events[i]);
      if Can(l, events[i]) { AnyStep(l, e, events[i]); }
      at := Take(v, at, events[i], l.base);
    }
    assert events[..|events|] == events;
  }

  lemma NoEvents(t: Thread)
    ensures LazyRun(t, []) == t && EagerRun(t, []) == t
  {
  }
}
