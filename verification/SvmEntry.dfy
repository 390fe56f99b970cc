// The entry path of an SVM vcpu (svm.c:575-582, svm.c:1818-1942, svm.c:2293-2304, svm.c:2319-2400) and the remote flush
// (npt.c:180-220), one step for each access to state that another CPU can see, for any number of vcpus and CPUs.
// The hardware is what sections 15.15 and 15.16 of the AMD64 APM, volume 2, allow: a TLB tagged with ASIDs, and
// for each CPU and VMCB a private copy of the fields that VMRUN may use for every group marked clean.
// Memory is sequentially consistent.

module SvmEntry {
  import opened SvmVmcb
  import V = VmxEntry

  /** A cached translation: the ASID that tags it, the vcpu that was running and the time it was filled. */
  datatype Entry = Entry(asid: nat, owner: nat, stamp: nat)

  /** Where the thread of a vcpu is.  In Idle it may be preempted; in the others it keeps the CPU x.cpu. */
  datatype Pc =
    | Idle
    | Loaded               // __load_vcpu has returned
    | Flushing             // request bit taken, TLB_CONTROL still to be set
    | Ready                // requests processed
    | InMode               // interrupts off, mode is IN_GUEST_MODE
    | ModeOk               // mode read again
    | Checked              // requests read as zero
    | Guest

  /** A vcpu: its fields and VMCB, the fields VMRUN found, its thread, its mode, whether it is in instp->vcpus and
      whether a flush is requested. */
  datatype Slot = Slot(x: Vcpu, seen: Fields, pc: Pc, mode: V.Mode, listed: bool, request: bool)

  /** The copy a CPU holds of a VMCB, and the groups for which it holds one. */
  datatype Copy = Copy(fields: Fields, held: set<Group>)

  datatype State = State(
    cpus: map<int, Cpu>,         // online CPUs
    vs: map<nat, Slot>, tlb: map<int, set<Entry>>, cache: map<(int, nat), Copy>, now: nat, fs: map<nat, V.Flusher>)

  function Tlb(s: State, c: int): set<Entry> { if c in s.tlb then s.tlb[c] else {} }

  // ---- VMRUN ----

  predicate UsesCopy(s: State, v: nat, x: Vcpu, g: Group) {
    g in x.clean && (x.cpu, v) in s.cache && g in s.cache[(x.cpu, v)].held
  }

  predicate RestFromCopy(s: State, v: nat, x: Vcpu, g: Group) { Other(g) && UsesCopy(s, v, x, g) }

  /** The fields VMRUN works with: the CPU's copy for groups marked clean, memory for the others. */
  function Effective(s: State, v: nat, x: Vcpu): Fields {
    if (x.cpu, v) !in s.cache then x.mem
    else
      var k := s.cache[(x.cpu, v)].fields;
      Fields(if UsesCopy(s, v, x, Intercepts) then k.intercepts else x.mem.intercepts,
             if UsesCopy(s, v, x, Asid) then k.asid else x.mem.asid,
             if UsesCopy(s, v, x, Intr) then k.virq else x.mem.virq,
             if UsesCopy(s, v, x, Intr) then k.prio else x.mem.prio,
             if UsesCopy(s, v, x, Intr) then k.vector else x.mem.vector,
             if UsesCopy(s, v, x, Cr2) then k.cr2 else x.mem.cr2,
             map g | g in GROUPS && (if RestFromCopy(s, v, x, g) then g in k.rest else g in x.mem.rest)
               :: if RestFromCopy(s, v, x, g) then k.rest[g] else x.mem.rest[g])
  }

  /** What TLB_CONTROL leaves of the TLB for ASID a. */
  function AfterCtl(t: set<Entry>, ctl: Ctl, a: nat): set<Entry> {
    match ctl
    case DoNothing => t
    case FlushAsid => set e | e in t && e.asid != a
    case FlushAll => {}
  }

  /** The CPU and the vcpu at the VMRUN instruction. */
  function Before(s: State, x: Vcpu, cr2: nat): (Cpu, Vcpu)
    requires x.cpu in s.cpus
  {
    Prologue(s.cpus[x.cpu], x, cr2)
  }

  // ---- steps ----

  /** What the thread of a vcpu does next. */
  datatype Action =
    | Unpublish | Root(mode: V.Mode) | Load(c: int) | Unload
    | SetIntercept(bit: nat) | ClrIntercept(bit: nat) | SetVintr | ClearVintr
    | TakeRequest | NoRequest | FlushTlb | SetMode | CheckMode | CheckRequests | Abort
    | Vmrun(cr2: nat) | Fill | Exit(left: Fields)

  datatype Step =
    | Create(v: nat, mem: Fields)
    | Thread(v: nat, a: Action)
    | Evict(c: int, v: nat, g: Group)
    | FlushStart(f: nat, me: int, nomask: bool) | FlushLock(f: nat) | Ask(f: nat, v: nat) | ReadCpu(f: nat)
    | Kick(f: nat) | ScanEnd(f: nat) | Ack(f: nat, c: int) | FlushDone(f: nat)

  /** No interrupt is answered from the mode change to the exit. */
  predicate IrqsOff(pc: Pc) { pc.InMode? || pc.ModeOk? || pc.Checked? || pc.Guest? }

  predicate IrqsOn(s: State, c: int) { forall v :: v in s.vs && s.vs[v].x.cpu == c ==> !IrqsOff(s.vs[v].pc) }

  /** No thread holds CPU c with preemption off. */
  predicate Free(s: State, c: int) {
    && (forall v :: v in s.vs && s.vs[v].x.cpu == c ==> s.vs[v].pc.Idle?)
    && (forall f :: f in s.fs && !s.fs[f].phase.Done? ==> s.fs[f].me != c)
  }

  /** vcpu_lock is not held by a flush. */
  predicate Unlocked(s: State) { forall f :: f in s.fs ==> !V.Scanning(s.fs[f].phase) }

  /** When a thread whose vcpu is t can take the action. */
  predicate Can(s: State, t: Slot, a: Action) {
    match a
    case Unpublish => t.pc.Idle? && t.listed && Unlocked(s)
    case Root(mode) => t.pc.Idle? && t.listed && (mode.OutsideRoot? || mode.InRoot?)
    case Load(c) => t.pc.Idle? && t.listed && c in s.cpus && Free(s, c)
    case Unload => t.pc.Loaded?
    case SetIntercept(_) => !IrqsOff(t.pc)
    case ClrIntercept(_) => !IrqsOff(t.pc)
    case SetVintr => !IrqsOff(t.pc)
    case ClearVintr => !IrqsOff(t.pc)
    case TakeRequest => t.pc.Loaded? && t.request
    case NoRequest => t.pc.Loaded? && !t.request
    case FlushTlb => t.pc.Flushing?
    case SetMode => t.pc.Ready?
    case CheckMode => t.pc.InMode? && !t.mode.Exiting?
    case CheckRequests => t.pc.ModeOk? && !t.request
    case Abort => t.pc.Ready? || t.pc.InMode? || t.pc.ModeOk?
    case Vmrun(_) => t.pc.Checked? && t.x.cpu in s.cpus
    case Fill => t.pc.Guest?
    case Exit(left) => t.pc.Guest? && left.asid == t.x.mem.asid     // the guest cannot change its ASID
  }

  /** The vcpu after it. */
  function After(s: State, v: nat, t: Slot, a: Action): Slot
    requires Can(s, t, a)
  {
    match a
    case Unpublish => t.(listed := false)
    case Root(mode) => t.(mode := mode)
    case Load(c) => t.(pc := Loaded, x := LoadedOn(t.x, c))
    case Unload => t.(pc := Idle)
    case SetIntercept(bit) => t.(x := WithIntercept(t.x, bit))
    case ClrIntercept(bit) => t.(x := WithoutIntercept(t.x, bit))
    case SetVintr => t.(x := WithVintr(t.x))
    case ClearVintr => t.(x := WithoutVintr(t.x))
    case TakeRequest => t.(pc := Flushing, request := false)
    case NoRequest => t.(pc := Ready)
    case FlushTlb => t.(pc := Ready, x := t.x.(ctl := FlushAsid))
    case SetMode => t.(pc := InMode, mode := V.InGuest)
    case CheckMode => t.(pc := ModeOk)
    case CheckRequests => t.(pc := Checked)
    case Abort => t.(pc := Idle, mode := V.OutsideGuest)
    case Vmrun(cr2) => var y := Before(s, t.x, cr2).1; t.(pc := Guest, x := y, seen := Effective(s, v, y))
    case Fill => t
    case Exit(left) => t.(pc := Idle, mode := V.OutsideGuest, x := Epilogue(t.x, left))
  }

  function CpusAfter(s: State, t: Slot, a: Action): map<int, Cpu>
    requires Can(s, t, a)
  {
    if a.Vmrun? then s.cpus[t.x.cpu := Before(s, t.x, a.cr2).0] else s.cpus
  }

  function TlbAfter(s: State, v: nat, t: Slot, a: Action): map<int, set<Entry>>
    requires Can(s, t, a)
  {
    if a.Vmrun? then
      var y := Before(s, t.x, a.cr2).1;
      s.tlb[t.x.cpu := AfterCtl(Tlb(s, t.x.cpu), y.ctl, Effective(s, v, y).asid)]
    else if a.Fill? then s.tlb[t.x.cpu := Tlb(s, t.x.cpu) + {Entry(t.seen.asid, v, s.now)}]
    else s.tlb
  }

  function CacheAfter(s: State, v: nat, t: Slot, a: Action): map<(int, nat), Copy> {
    if a.Exit? then s.cache[(t.x.cpu, v) := Copy(a.left, GROUPS)] else s.cache
  }

  predicate Enabled(s: State, step: Step) {
    match step
    case Create(v, mem) => v !in s.vs && mem.asid == 0 && Unlocked(s)
    case Thread(v, a) => v in s.vs && Can(s, s.vs[v], a)
    case Evict(c, v, _) => (c, v) in s.cache
    case FlushStart(f, me, _) => f !in s.fs && me in s.cpus && Free(s, me)
    case FlushLock(f) => f in s.fs && s.fs[f].phase.Lock? && Unlocked(s)
    case Ask(f, v) => f in s.fs && s.fs[f].phase.Scan? && v in s.vs && s.vs[v].listed && v !in s.fs[f].done
    case ReadCpu(f) => f in s.fs && s.fs[f].phase.Asked? && s.fs[f].phase.v in s.vs
    case Kick(f) => f in s.fs && s.fs[f].phase.Read? && s.fs[f].phase.v in s.vs
    case ScanEnd(f) => f in s.fs && s.fs[f].phase.Scan? && forall v :: v in s.vs && s.vs[v].listed ==> v in s.fs[f].done
    case Ack(f, c) => f in s.fs && s.fs[f].phase.Wait? && c in s.fs[f].mask && IrqsOn(s, c)
    case FlushDone(f) => f in s.fs && s.fs[f].phase.Wait? && s.fs[f].mask == {}
  }

  function SetF(s: State, f: nat, x: V.Flusher): State { s.(fs := s.fs[f := x]) }

  function Apply(s: State, step: Step): State
    requires Enabled(s, step)
  {
    match step
    case Create(v, mem) =>
      s.(vs := s.vs[v := Slot(Vcpu(-1, 0, 0, DoNothing, {}, mem), mem, Idle, V.OutsideRoot, true, false)])
    case Thread(v, a) =>
      var t := s.vs[v];
      s.(vs := s.vs[v := After(s, v, t, a)], cpus := CpusAfter(s, t, a), tlb := TlbAfter(s, v, t, a),
         cache := CacheAfter(s, v, t, a))
    case Evict(c, v, g) => s.(cache := s.cache[(c, v) := Copy(s.cache[(c, v)].fields, s.cache[(c, v)].held - {g})])
    // npt_flush_remote_tlbs
    case FlushStart(f, me, nomask) =>
      var mask := if nomask then s.cpus.Keys - {me} else {};
      SetF(s.(now := s.now + 1), f, V.Flusher(me, s.now + 1, nomask, V.Lock, {}, mask))
    case FlushLock(f) => SetF(s, f, s.fs[f].(phase := V.Scan))
    case Ask(f, v) => SetF(s.(vs := s.vs[v := s.vs[v].(request := true)]), f, s.fs[f].(phase := V.Asked(v)))
    case ReadCpu(f) => SetF(s, f, s.fs[f].(phase := V.Read(s.fs[f].phase.v, s.vs[s.fs[f].phase.v].x.cpu)))
    case Kick(f) =>
      var x, v := s.fs[f], s.fs[f].phase.v;
      var m := s.vs[v].mode;
      var mask := if V.Kicks(x) && !m.OutsideGuest? then x.mask + {x.phase.cpu} else x.mask;
      SetF(s.(vs := s.vs[v := s.vs[v].(mode := if V.Kicks(x) && m.InGuest? then V.Exiting else m)]),
           f, x.(phase := V.Scan, done := x.done + {v}, mask := mask))
    case ScanEnd(f) => SetF(s, f, s.fs[f].(phase := V.Wait))
    case Ack(f, c) => SetF(s, f, s.fs[f].(mask := s.fs[f].mask - {c}))
    case FlushDone(f) => SetF(s, f, s.fs[f].(phase := V.Done))
  }

  /** Any CPUs as svm_cpu_init leaves them, any contents of the TLB. */
  predicate Init(s: State) {
    && s.vs == map[] && s.cache == map[] && s.fs == map[] && -1 !in s.cpus
    && forall c :: c in s.cpus ==> s.cpus[c].generation == 1 && s.cpus[c].next == s.cpus[c].max + 1
  }

  // ---- the clean bits ----

  /** Where a group is marked clean, the copy of the CPU the vcpu is on agrees with memory. */
  predicate CleanOk(s: State, v: nat, x: Vcpu) {
    && Cr2 !in x.clean
    && forall g :: g in x.clean && UsesCopy(s, v, x, g) ==> Same(s.cache[(x.cpu, v)].fields, x.mem, g)
  }

  lemma AllGroups(g: Group)
    ensures g in GROUPS
  {
  }

  /** VMRUN works with memory exactly when every group it takes from the CPU's copy is the same there. */
  lemma EffectiveIsMemory(s: State, v: nat, x: Vcpu)
    ensures Effective(s, v, x) == x.mem <==>
      forall g :: UsesCopy(s, v, x, g) ==> Same(s.cache[(x.cpu, v)].fields, x.mem, g)
  {
    if (x.cpu, v) in s.cache {
      forall g: Group ensures g in GROUPS { AllGroups(g); }
      if forall g :: UsesCopy(s, v, x, g) ==> Same(s.cache[(x.cpu, v)].fields, x.mem, g) {
        assert Effective(s, v, x).rest == x.mem.rest;
      }
      if Effective(s, v, x) == x.mem {
        forall g | UsesCopy(s, v, x, g) ensures Same(s.cache[(x.cpu, v)].fields, x.mem, g) { CopyShows(s, v, x, g); }
      }
    }
  }

  /** A group taken from the copy shows as it is there. */
  lemma CopyShows(s: State, v: nat, x: Vcpu, g: Group)
    requires UsesCopy(s, v, x, g)
    ensures Same(s.cache[(x.cpu, v)].fields, Effective(s, v, x), g)
  {
    AllGroups(g);
  }

  lemma PrologueClean(s: State, v: nat, d: Cpu, x: Vcpu, cr2: nat)
    requires CleanOk(s, v, x)
    ensures CleanOk(s, v, Prologue(d, x, cr2).1)
  {
    var y := Prologue(d, x, cr2).1;
    assert y.clean <= x.clean && y.cpu == x.cpu;
    forall g | g in y.clean && UsesCopy(s, v, y, g)
      ensures Same(s.cache[(y.cpu, v)].fields, y.mem, g)
    {
      assert UsesCopy(s, v, x, g) && g != Cr2;
    }
  }

  /** Marking a group dirty as it changes keeps the clean groups right. */
  lemma DirtyKeeps(s: State, v: nat, x: Vcpu, m: Fields, dirty: set<Group>)
    requires CleanOk(s, v, x) && forall g :: g !in dirty ==> Same(x.mem, m, g)
    ensures CleanOk(s, v, x.(mem := m, clean := x.clean - dirty))
  {
    var y := x.(mem := m, clean := x.clean - dirty);
    forall g | g in y.clean && UsesCopy(s, v, y, g)
      ensures Same(s.cache[(y.cpu, v)].fields, y.mem, g)
    {
      assert UsesCopy(s, v, x, g) && Same(x.mem, m, g);
    }
  }

  lemma InterceptClean(s: State, v: nat, x: Vcpu, bit: nat)
    requires CleanOk(s, v, x)
    ensures CleanOk(s, v, WithIntercept(x, bit)) && CleanOk(s, v, WithoutIntercept(x, bit))
  {
    DirtyKeeps(s, v, x, x.mem.(intercepts := x.mem.intercepts + {bit}), {Intercepts});
    DirtyKeeps(s, v, x, x.mem.(intercepts := x.mem.intercepts - {bit}), {Intercepts});
  }

  lemma VintrClean(s: State, v: nat, x: Vcpu)
    requires CleanOk(s, v, x)
    ensures CleanOk(s, v, WithVintr(x)) && CleanOk(s, v, WithoutVintr(x))
  {
    InterceptClean(s, v, x, INTERCEPT_VINTR);
    var y, z := WithIntercept(x, INTERCEPT_VINTR), WithoutIntercept(x, INTERCEPT_VINTR);
    DirtyKeeps(s, v, y, y.mem.(vector := 0, prio := 15, virq := true), {Intr});
    DirtyKeeps(s, v, z, z.mem.(vector := 0, prio := 0, virq := false), {Intr});
  }

  lemma NoneClean(s: State, v: nat, x: Vcpu)
    ensures x.clean == {} ==> CleanOk(s, v, x)
  {
  }

  /** CleanOk looks at the VMCB, its clean bits, the CPU and that CPU's copy only. */
  lemma SameBits(s: State, s': State, v: nat, x: Vcpu, y: Vcpu)
    requires CleanOk(s, v, x) && y.clean == x.clean && y.mem == x.mem && y.cpu == x.cpu
    requires (x.cpu, v) in s'.cache ==>
               (x.cpu, v) in s.cache && s'.cache[(x.cpu, v)].fields == s.cache[(x.cpu, v)].fields
               && s'.cache[(x.cpu, v)].held <= s.cache[(x.cpu, v)].held
    ensures CleanOk(s', v, y)
  {
    assert forall g :: UsesCopy(s', v, y, g) ==> UsesCopy(s, v, x, g);
  }

  // ---- what holds between steps ----

  predicate IsLive(s: State, x: Vcpu) { x.cpu in s.cpus && x.generation == s.cpus[x.cpu].generation }

  predicate SlotOk(s: State, v: nat, t: Slot) {
    && (t.pc.Idle? || (t.listed && t.x.cpu in s.cpus))
    && (IrqsOff(t.pc) ==> t.mode.InGuest? || t.mode.Exiting?)
    && (t.x.generation == 0 || (t.x.cpu in s.cpus && 2 <= t.x.generation <= s.cpus[t.x.cpu].generation))
    && (IsLive(s, t.x) ==> s.cpus[t.x.cpu].min <= t.x.asid < s.cpus[t.x.cpu].next)
    && (t.x.ctl.FlushAll? ==> t.pc.Guest?)
    && (t.pc.Guest? ==> IsLive(s, t.x) && t.seen == t.x.mem && t.x.mem.asid == t.x.asid)
    && CleanOk(s, v, t.x)
  }

  /** Once a CPU has started its own generations, its TLB holds only ASIDs given out in the present one. */
  predicate CpuOk(s: State, c: int)
    requires c in s.cpus
  {
    && 1 <= s.cpus[c].generation
    && (s.cpus[c].generation == 1 ==> s.cpus[c].next > s.cpus[c].max)
    && (s.cpus[c].generation > 1 ==> s.cpus[c].min < s.cpus[c].next)
    && (s.cpus[c].min <= s.cpus[c].max ==> s.cpus[c].next <= s.cpus[c].max + 1)
    && (s.cpus[c].generation > 1 ==> forall e :: e in Tlb(s, c) ==> e.asid < s.cpus[c].next)
  }

  predicate Distinct(s: State, x: Vcpu, y: Vcpu) {
    IsLive(s, x) && IsLive(s, y) && x.cpu == y.cpu ==> x.asid != y.asid
  }

  /** A translation that carries a live vcpu's ASID is its own. */
  predicate Owned(s: State, v: nat, x: Vcpu, e: Entry) { IsLive(s, x) && e.asid == x.asid ==> e.owner == v }

  predicate Apart(t: Slot, u: Slot) { t.pc.Idle? || u.pc.Idle? || t.x.cpu != u.x.cpu }

  predicate Slots(s: State) { forall v :: v in s.vs ==> SlotOk(s, v, s.vs[v]) }
  predicate Cpus(s: State) { forall c :: c in s.cpus ==> CpuOk(s, c) }
  predicate Asids(s: State) { forall v, w :: v in s.vs && w in s.vs && v != w ==> Distinct(s, s.vs[v].x, s.vs[w].x) }
  predicate Entries(s: State) { forall v, e :: v in s.vs && e in Tlb(s, s.vs[v].x.cpu) ==> Owned(s, v, s.vs[v].x, e) }

  /** A CPU is kept by one thread at a time. */
  predicate Exclusive(s: State) {
    && (forall v, w :: v in s.vs && w in s.vs && v != w ==> Apart(s.vs[v], s.vs[w]))
    && (forall f, v :: f in s.fs && v in s.vs && !s.fs[f].phase.Done? && !s.vs[v].pc.Idle? ==>
          s.fs[f].me != s.vs[v].x.cpu)
  }

  predicate Inv(s: State) { Slots(s) && Cpus(s) && Asids(s) && Entries(s) && Exclusive(s) && -1 !in s.cpus }

  // ---- VMRUN ----

  /** The vcpu at VMRUN: the ASID in effect is its own, it lies in the CPU's present generation, and no other live
      vcpu of the CPU has it. */
  lemma AtRun(s: State, v: nat, cr2: nat)
    requires Inv(s) && v in s.vs && s.vs[v].x.cpu in s.cpus
    ensures var (d, y) := Before(s, s.vs[v].x, cr2);
      && Effective(s, v, y) == y.mem && y.mem.asid == y.asid && y.generation == d.generation >= 2
      && d.min <= y.asid < d.next && y.cpu == s.vs[v].x.cpu && CleanOk(s, v, y)
      && (forall w :: w in s.vs && w != v && s.vs[w].x.cpu == y.cpu && s.vs[w].x.generation == d.generation
                      ==> s.vs[w].x.asid != y.asid)
  {
    hide Entries, Exclusive, CleanOk, Effective;
    var c := s.vs[v].x.cpu;
    assert SlotOk(s, v, s.vs[v]) && CpuOk(s, c);
    PrologueClean(s, v, s.cpus[c], s.vs[v].x, cr2);
    var (d, y) := Before(s, s.vs[v].x, cr2);
    EffectiveIsMemory(s, v, y);
    forall w | w in s.vs && w != v && s.vs[w].x.cpu == c && s.vs[w].x.generation == d.generation
      ensures s.vs[w].x.asid != y.asid
    {
      assert SlotOk(s, w, s.vs[w]) && Distinct(s, s.vs[v].x, s.vs[w].x);
    }
  }

  /** What is left after TLB_CONTROL under the ASID that VMRUN works with: nothing if the vcpu was given that ASID just
      now or a flush is due, else its own translations. */
  lemma RunHits(s: State, v: nat, cr2: nat, e: Entry)
    requires Inv(s) && v in s.vs && s.vs[v].x.cpu in s.cpus
    requires var y := Before(s, s.vs[v].x, cr2).1;
      e in AfterCtl(Tlb(s, y.cpu), y.ctl, Effective(s, v, y).asid) && e.asid == y.asid
    ensures e in Tlb(s, s.vs[v].x.cpu) && e.owner == v && IsLive(s, s.vs[v].x) && e.asid == s.vs[v].x.asid
    ensures s.vs[v].x.ctl.DoNothing? || s.vs[v].pc.Guest?
  {
    hide Slots, Asids, Exclusive, CleanOk, Effective;
    AtRun(s, v, cr2);
    var c := s.vs[v].x.cpu;
    assert SlotOk(s, v, s.vs[v]) && CpuOk(s, c) by { OkFacts(s, v); }
    assert e in Tlb(s, c);
    assert Owned(s, v, s.vs[v].x, e);
  }

  lemma OkFacts(s: State, v: nat)
    requires Inv(s) && v in s.vs
    ensures SlotOk(s, v, s.vs[v]) && (s.vs[v].x.cpu in s.cpus ==> CpuOk(s, s.vs[v].x.cpu))
  {
  }

  // ---- steps that leave ASIDs and TLBs alone ----

  /** The vcpu keeps its CPU, generation and ASID, or gives its ASID up. */
  predicate SameTag(s: State, v: nat, x: Vcpu) {
    x.generation == 0
    || (v in s.vs && x.cpu == s.vs[v].x.cpu && x.generation == s.vs[v].x.generation && x.asid == s.vs[v].x.asid)
  }

  lemma TagsKept(s: State, s': State)
    requires Inv(s) && s'.cpus == s.cpus && s'.tlb == s.tlb && forall v :: v in s'.vs ==> SameTag(s, v, s'.vs[v].x)
    ensures Cpus(s') && Asids(s') && Entries(s')
  {
    hide Slots, Exclusive;
    forall c | c in s'.cpus ensures CpuOk(s', c) { assert CpuOk(s, c); }
    forall v, w | v in s'.vs && w in s'.vs && v != w ensures Distinct(s', s'.vs[v].x, s'.vs[w].x) {
      assert SameTag(s, v, s'.vs[v].x) && SameTag(s, w, s'.vs[w].x);
      if v in s.vs && w in s.vs { assert Distinct(s, s.vs[v].x, s.vs[w].x); }
      NotLive(s', s'.vs[v].x);
      NotLive(s', s'.vs[w].x);
    }
    forall v, e | v in s'.vs && e in Tlb(s', s'.vs[v].x.cpu) ensures Owned(s', v, s'.vs[v].x, e) {
      assert SameTag(s, v, s'.vs[v].x);
      if v in s.vs && e in Tlb(s, s.vs[v].x.cpu) { assert Owned(s, v, s.vs[v].x, e); }
      NotLive(s', s'.vs[v].x);
    }
  }

  lemma NotLive(s: State, x: Vcpu)
    requires Cpus(s)
    ensures x.generation == 0 ==> !IsLive(s, x)
  {
    if x.cpu in s.cpus { assert CpuOk(s, x.cpu); }
  }

  /** What an action other than VMRUN does to its own vcpu. */
  lemma OwnSlot(s: State, v: nat, a: Action)
    requires Inv(s) && Enabled(s, Thread(v, a)) && !a.Vmrun? && !a.Exit?
    ensures SlotOk(s, v, After(s, v, s.vs[v], a)) && SameTag(s, v, After(s, v, s.vs[v], a).x)
  {
    hide Asids, Entries, Exclusive, CleanOk, Unlocked, Free, Slots;
    var t := s.vs[v];
    OkFacts(s, v);
    VintrClean(s, v, t.x);
    if a.SetIntercept? || a.ClrIntercept? { InterceptClean(s, v, t.x, a.bit); }
    if a.Load? { NoneClean(s, v, LoadedOn(t.x, a.c)); }
    SameBits(s, s, v, t.x, t.x.(ctl := FlushAsid));
    NotLive(s, After(s, v, t, a).x);
  }

  lemma ExitSlot(s: State, v: nat, left: Fields)
    requires Inv(s) && Enabled(s, Thread(v, Exit(left)))
    ensures SlotOk(Apply(s, Thread(v, Exit(left))), v, After(s, v, s.vs[v], Exit(left)))
    ensures SameTag(s, v, After(s, v, s.vs[v], Exit(left)).x)
  {
    hide Asids, Entries, Exclusive, Slots;
    OkFacts(s, v);
  }

  /** Another vcpu's slot holds for as long as its CPU and its copy do. */
  lemma OtherSlot(s: State, s': State, w: nat)
    requires w in s.vs && SlotOk(s, w, s.vs[w]) && s'.cpus == s.cpus
    requires forall k :: k in s'.cache && k.1 == w ==> k in s.cache && s'.cache[k].fields == s.cache[k].fields
                                                       && s'.cache[k].held <= s.cache[k].held
    ensures SlotOk(s', w, s.vs[w])
  {
    hide CleanOk;
    SameBits(s, s', w, s.vs[w].x, s.vs[w].x);
  }

  /** Taking a CPU needs a free one; nothing else changes who is where. */
  lemma OwnApart(s: State, v: nat, a: Action, u: Slot)
    requires Enabled(s, Thread(v, a)) && Apart(s.vs[v], u) && (a.Load? && u.x.cpu == a.c ==> u.pc.Idle?)
    ensures Apart(After(s, v, s.vs[v], a), u)
  {
    hide Effective, Unlocked, Free;
  }

  lemma ThreadExclusive(s: State, v: nat, a: Action)
    requires Inv(s) && Enabled(s, Thread(v, a))
    ensures Exclusive(Apply(s, Thread(v, a)))
  {
    hide Slots, Asids, Entries, Cpus, After, Effective;
    var s' := Apply(s, Thread(v, a));
    var t := After(s, v, s.vs[v], a);
    forall w, u | w in s'.vs && u in s'.vs && w != u ensures Apart(s'.vs[w], s'.vs[u]) {
      assert Apart(s.vs[w], s.vs[u]);
      if w == v { OwnApart(s, v, a, s.vs[u]); }
      if u == v { OwnApart(s, v, a, s.vs[w]); }
    }
    Keeps(s, v, a);
  }

  lemma Keeps(s: State, v: nat, a: Action)
    requires Enabled(s, Thread(v, a))
    ensures var t, t' := s.vs[v], After(s, v, s.vs[v], a);
      !t'.pc.Idle? ==> (a.Load? && t'.x.cpu == a.c) || (!t.pc.Idle? && t'.x.cpu == t.x.cpu)
  {
    hide Effective, Unlocked, Free;
  }

  lemma ThreadSlots(s: State, v: nat, a: Action)
    requires Inv(s) && Enabled(s, Thread(v, a)) && !a.Vmrun?
    ensures Slots(Apply(s, Thread(v, a))) && forall w :: w in s.vs ==> SameTag(s, w, Apply(s, Thread(v, a)).vs[w].x)
  {
    hide Asids, Entries, Exclusive, CleanOk, After, Effective, SlotOk, Can;
    var s' := Apply(s, Thread(v, a));
    forall w | w in s'.vs ensures SlotOk(s', w, s'.vs[w]) && SameTag(s, w, s'.vs[w].x) {
      if w != v {
        assert SlotOk(s, w, s.vs[w]);
        OtherSlot(s, s', w);
      } else if a.Exit? {
        ExitSlot(s, v, a.left);
      } else {
        OwnSlot(s, v, a);
        SlotFrame(s, s', v, s'.vs[v]);
      }
    }
  }

  lemma SlotFrame(s: State, s': State, v: nat, t: Slot)
    requires SlotOk(s, v, t) && s'.cpus == s.cpus && s'.cache == s.cache
    ensures SlotOk(s', v, t)
  {
    hide CleanOk;
    SameBits(s, s', v, t.x, t.x);
  }

  /** A translation is filled under the ASID of the one vcpu that runs on the CPU. */
  lemma FillEntries(s: State, v: nat)
    requires Inv(s) && Enabled(s, Thread(v, Fill))
    ensures Entries(Apply(s, Thread(v, Fill))) && Cpus(Apply(s, Thread(v, Fill)))
  {
    hide CleanOk, Exclusive, Slots, SlotOk;
    var s', t := Apply(s, Thread(v, Fill)), s.vs[v];
    GuestFacts(s, v);
    forall c | c in s'.cpus ensures CpuOk(s', c) { assert CpuOk(s, c); }
    forall w, e | w in s'.vs && e in Tlb(s', s'.vs[w].x.cpu) ensures Owned(s', w, s'.vs[w].x, e) {
      if e in Tlb(s, s.vs[w].x.cpu) { assert Owned(s, w, s.vs[w].x, e); }
      if w != v { assert Distinct(s, t.x, s.vs[w].x); }
    }
  }

  lemma FillAsids(s: State, v: nat)
    requires Asids(s) && Enabled(s, Thread(v, Fill))
    ensures Asids(Apply(s, Thread(v, Fill)))
  {
    var s' := Apply(s, Thread(v, Fill));
    forall w, u | w in s'.vs && u in s'.vs && w != u ensures Distinct(s', s'.vs[w].x, s'.vs[u].x) {
      assert Distinct(s, s.vs[w].x, s.vs[u].x);
    }
  }

  lemma GuestFacts(s: State, v: nat)
    requires Inv(s) && v in s.vs && s.vs[v].pc.Guest?
    ensures var t := s.vs[v];
      IsLive(s, t.x) && t.seen == t.x.mem && t.seen.asid == t.x.asid && t.x.asid < s.cpus[t.x.cpu].next
  {
    assert SlotOk(s, v, s.vs[v]);
  }

  // ---- the step that gives ASIDs out ----

  lemma RunSlots(s: State, v: nat, cr2: nat)
    requires Inv(s) && Enabled(s, Thread(v, Vmrun(cr2)))
    ensures Slots(Apply(s, Thread(v, Vmrun(cr2))))
  {
    hide CleanOk, Entries, Asids, Effective;
    var s' := Apply(s, Thread(v, Vmrun(cr2)));
    AtRun(s, v, cr2);
    OkFacts(s, v);
    forall w | w in s'.vs ensures SlotOk(s', w, s'.vs[w]) {
      assert SlotOk(s, w, s.vs[w]);
      SameBits(s, s', w, s.vs[w].x, s.vs[w].x);
      if w == v { SameBits(s, s', v, s'.vs[v].x, s'.vs[v].x); } else { assert Apart(s.vs[v], s.vs[w]); }
    }
  }

  lemma RunCpus(s: State, v: nat, cr2: nat)
    requires Inv(s) && Enabled(s, Thread(v, Vmrun(cr2)))
    ensures Cpus(Apply(s, Thread(v, Vmrun(cr2))))
  {
    hide CleanOk, Entries, Asids, Effective, Exclusive, Slots;
    var s' := Apply(s, Thread(v, Vmrun(cr2)));
    AtRun(s, v, cr2);
    forall c | c in s'.cpus ensures CpuOk(s', c) { assert CpuOk(s, c); }
  }

  lemma RunAsids(s: State, v: nat, cr2: nat)
    requires Inv(s) && Enabled(s, Thread(v, Vmrun(cr2)))
    ensures Asids(Apply(s, Thread(v, Vmrun(cr2))))
  {
    hide CleanOk, Entries, Effective, Exclusive, Slots, SlotOk;
    var s' := Apply(s, Thread(v, Vmrun(cr2)));
    AtRun(s, v, cr2);
    forall w, u | w in s'.vs && u in s'.vs && w != u
      ensures Distinct(s', s'.vs[w].x, s'.vs[u].x)
    {
      assert Distinct(s, s.vs[w].x, s.vs[u].x);
      if w != v { StillLive(s, v, cr2, w); }
      if u != v { StillLive(s, v, cr2, u); }
    }
  }

  /** No other vcpu comes to life by it. */
  lemma StillLive(s: State, v: nat, cr2: nat, w: nat)
    requires Inv(s) && Enabled(s, Thread(v, Vmrun(cr2))) && w in s.vs && w != v
    ensures IsLive(Apply(s, Thread(v, Vmrun(cr2))), s.vs[w].x) ==> IsLive(s, s.vs[w].x)
  {
    hide CleanOk, Entries, Asids, Effective, Exclusive;
    OkFacts(s, w);
    OkFacts(s, v);
  }

  lemma RunEntries(s: State, v: nat, cr2: nat)
    requires Inv(s) && Enabled(s, Thread(v, Vmrun(cr2)))
    ensures Entries(Apply(s, Thread(v, Vmrun(cr2))))
  {
    hide CleanOk, Asids, Effective, Exclusive, Slots, SlotOk, Cpus;
    var s' := Apply(s, Thread(v, Vmrun(cr2)));
    AtRun(s, v, cr2);
    forall w, e | w in s'.vs && e in Tlb(s', s'.vs[w].x.cpu)
      ensures Owned(s', w, s'.vs[w].x, e)
    {
      if w == v {
        if e.asid == s'.vs[v].x.asid { RunHits(s, v, cr2, e); }
      } else {
        assert e in Tlb(s, s.vs[w].x.cpu);
        assert Owned(s, w, s.vs[w].x, e);
        StillLive(s, v, cr2, w);
      }
    }
  }

  // ---- every step ----

  lemma ThreadStep(s: State, v: nat, a: Action)
    requires Inv(s) && Enabled(s, Thread(v, a))
    ensures Inv(Apply(s, Thread(v, a)))
  {
    hide Slots, Cpus, Asids, Entries, Exclusive, After, Can, SameTag;
    ThreadExclusive(s, v, a);
    SameCpus(s, v, a);
    if a.Vmrun? {
      RunSlots(s, v, a.cr2);
      RunCpus(s, v, a.cr2);
      RunAsids(s, v, a.cr2);
      RunEntries(s, v, a.cr2);
    } else if a.Fill? {
      ThreadSlots(s, v, Fill);
      FillAsids(s, v);
      FillEntries(s, v);
    } else {
      ThreadSlots(s, v, a);
      TagsKept(s, Apply(s, Thread(v, a)));
    }
  }

  lemma SameCpus(s: State, v: nat, a: Action)
    requires Enabled(s, Thread(v, a))
    ensures Apply(s, Thread(v, a)).cpus.Keys == s.cpus.Keys
  {
  }

  /** A slot after a step that is not its thread's: asked for a flush, or told to leave guest mode. */
  predicate Nudged(t: Slot, u: Slot) {
    && u == t.(mode := u.mode, request := u.request) && (t.request ==> u.request)
    && (u.mode == t.mode || (t.mode.InGuest? && u.mode.Exiting?))
  }

  lemma OtherFrame(s: State, step: Step)
    requires Enabled(s, step) && !step.Thread?
    ensures var s' := Apply(s, step);
      && s'.cpus == s.cpus && s'.tlb == s.tlb && (!step.Evict? ==> s'.cache == s.cache) && s.now <= s'.now
      && s.vs.Keys <= s'.vs.Keys && (!step.Create? ==> s'.vs.Keys == s.vs.Keys)
      && (forall w :: w in s.vs ==> Nudged(s.vs[w], s'.vs[w]))
  {
    hide IrqsOn, Unlocked, V.Kicks, Free;
  }

  lemma OtherFlushers(s: State, step: Step, f: nat)
    requires Enabled(s, step) && !step.Thread? && f in Apply(s, step).fs
    ensures var s' := Apply(s, step);
      if f in s.fs then s'.fs[f].me == s.fs[f].me && (s.fs[f].phase.Done? ==> s'.fs[f] == s.fs[f])
      else step.FlushStart? && s'.fs[f].me == step.me
  {
    hide IrqsOn, Unlocked, V.Kicks, Free;
  }

  lemma NudgedOk(s: State, s': State, w: nat, t: Slot, u: Slot)
    requires SlotOk(s, w, t) && Nudged(t, u) && s'.cpus == s.cpus
    requires (t.x.cpu, w) in s'.cache ==>
               (t.x.cpu, w) in s.cache && s'.cache[(t.x.cpu, w)].fields == s.cache[(t.x.cpu, w)].fields
               && s'.cache[(t.x.cpu, w)].held <= s.cache[(t.x.cpu, w)].held
    ensures SlotOk(s', w, u)
  {
    hide CleanOk;
    SameBits(s, s', w, t.x, t.x);
  }

  lemma OtherSlots(s: State, step: Step)
    requires Inv(s) && Enabled(s, step) && !step.Thread?
    ensures Slots(Apply(s, step)) && forall w :: w in Apply(s, step).vs ==> SameTag(s, w, Apply(s, step).vs[w].x)
  {
    hide Cpus, Asids, Entries, Exclusive, CleanOk, SlotOk, IrqsOn, Unlocked, V.Kicks, Free, Nudged;
    var s' := Apply(s, step);
    OtherFrame(s, step);
    forall w | w in s'.vs ensures SlotOk(s', w, s'.vs[w]) && SameTag(s, w, s'.vs[w].x) {
      if w in s.vs {
        assert SlotOk(s, w, s.vs[w]);
        assert Nudged(s.vs[w], s'.vs[w]);
        NudgedOk(s, s', w, s.vs[w], s'.vs[w]);
        NudgedTag(s, w, s'.vs[w]);
      } else {
        NewSlot(s', w, step.mem);
      }
    }
  }

  lemma NudgedTag(s: State, w: nat, u: Slot)
    requires w in s.vs && Nudged(s.vs[w], u)
    ensures SameTag(s, w, u.x)
  {
  }

  lemma NewSlot(s: State, w: nat, mem: Fields)
    requires -1 !in s.cpus
    ensures SlotOk(s, w, Slot(Vcpu(-1, 0, 0, DoNothing, {}, mem), mem, Idle, V.OutsideRoot, true, false))
  {
  }

  lemma OtherExclusive(s: State, step: Step)
    requires Inv(s) && Enabled(s, step) && !step.Thread?
    ensures Exclusive(Apply(s, step))
  {
    hide Slots, Cpus, Asids, Entries, Apply, IrqsOn, Unlocked, V.Kicks, Nudged;
    var s' := Apply(s, step);
    OtherFrame(s, step);
    forall w, u | w in s'.vs && u in s'.vs && w != u ensures Apart(s'.vs[w], s'.vs[u]) {
      SamePlace(s, step, w);
      SamePlace(s, step, u);
      if w in s.vs && u in s.vs { assert Apart(s.vs[w], s.vs[u]); }
    }
    forall f, v | f in s'.fs && v in s'.vs && !s'.fs[f].phase.Done? && !s'.vs[v].pc.Idle?
      ensures s'.fs[f].me != s'.vs[v].x.cpu
    {
      OtherFlushers(s, step, f);
      SamePlace(s, step, v);
    }
  }

  lemma SamePlace(s: State, step: Step, w: nat)
    requires Enabled(s, step) && !step.Thread? && w in Apply(s, step).vs
    ensures var t := Apply(s, step).vs[w];
      if w in s.vs then t.pc == s.vs[w].pc && t.x == s.vs[w].x else t.pc.Idle?
  {
    hide IrqsOn, Unlocked, V.Kicks, Free;
  }

  lemma AnyStep(s: State, step: Step)
    requires Inv(s) && Enabled(s, step)
    ensures Inv(Apply(s, step))
  {
    hide Slots, Cpus, Asids, Entries, Exclusive, Enabled, Apply, SameTag;
    if step.Thread? {
      ThreadStep(s, step.v, step.a);
    } else {
      OtherSlots(s, step);
      OtherExclusive(s, step);
      OtherFrame(s, step);
      TagsKept(s, Apply(s, step));
    }
  }

  // ---- whole runs ----

  ghost predicate IsRun(states: seq<State>, steps: seq<Step>) {
    && |states| == |steps| + 1 && Init(states[0])
    && forall i :: 0 <= i < |steps| ==> Enabled(states[i], steps[i]) && states[i + 1] == Apply(states[i], steps[i])
  }

  lemma {:induction false} RunInv(states: seq<State>, steps: seq<Step>, n: nat)
    requires IsRun(states, steps) && n < |states|
    ensures Inv(states[n])
  {
    hide Apply, Enabled;
    if n > 0 {
      RunInv(states, steps, n - 1);
      AnyStep(states[n - 1], steps[n - 1]);
    }
  }

  /** Whenever a guest runs, the state VMRUN found is the VMCB in memory, although the CPU may use its own copy of every
      group marked clean. */
  lemma EffectiveState(states: seq<State>, steps: seq<Step>, n: nat, v: nat)
    requires IsRun(states, steps) && n < |states| && v in states[n].vs && states[n].vs[v].pc.Guest?
    ensures states[n].vs[v].seen == states[n].vs[v].x.mem
  {
    hide Inv, Apply, Init;
    RunInv(states, steps, n);
    GuestFacts(states[n], v);
  }

  /** The translations that the guest of v can hit: those of its CPU that carry the ASID VMRUN found. */
  function Hits(s: State, v: nat): set<Entry>
    requires v in s.vs
  {
    set e | e in Tlb(s, s.vs[v].x.cpu) && e.asid == s.vs[v].seen.asid
  }

  /** No guest hits a translation filled by another vcpu, whatever the TLBs held at the start. */
  lemma NoForeignHit(states: seq<State>, steps: seq<Step>, n: nat, v: nat, e: Entry)
    requires IsRun(states, steps) && n < |states| && v in states[n].vs && states[n].vs[v].pc.Guest?
    requires e in Hits(states[n], v)
    ensures e.owner == v
  {
    hide Apply, Init, Slots, Asids, Cpus, Exclusive;
    RunInv(states, steps, n);
    GuestFacts(states[n], v);
    assert Owned(states[n], v, states[n].vs[v].x, e);
  }

  /** A VMRUN that gives the vcpu a new ASID finds no translation at all under it. */
  lemma NewAsidIsUnused(states: seq<State>, steps: seq<Step>, n: nat)
    requires IsRun(states, steps) && n < |steps| && steps[n].Thread? && steps[n].a.Vmrun?
    requires steps[n].v in states[n].vs && !IsLive(states[n], states[n].vs[steps[n].v].x)
    ensures steps[n].v in states[n + 1].vs && Hits(states[n + 1], steps[n].v) == {}
  {
    hide Inv, Init, Effective, IsLive;
    var s, v, a := states[n], steps[n].v, steps[n].a;
    RunInv(states, steps, n);
    assert Enabled(s, steps[n]);
    AtRun(s, v, a.cr2);
    if Hits(states[n + 1], v) != {} {
      var e :| e in Hits(states[n + 1], v);
      RunHits(s, v, a.cr2, e);
    }
  }

  /** Vcpus of the present generation of a CPU have different ASIDs, none below the first one that is free for
      guests; they stay within what the CPU has exactly when there is one free at all. */
  lemma LiveAsids(states: seq<State>, steps: seq<Step>, n: nat, v: nat, w: nat)
    requires IsRun(states, steps) && n < |states|
    requires v in states[n].vs && w in states[n].vs && states[n].vs[v].x.cpu == states[n].vs[w].x.cpu
    requires IsLive(states[n], states[n].vs[v].x) && IsLive(states[n], states[n].vs[w].x)
    ensures var d := states[n].cpus[states[n].vs[v].x.cpu];
      && (v != w ==> states[n].vs[v].x.asid != states[n].vs[w].x.asid)
      && d.min <= states[n].vs[v].x.asid
      && (states[n].vs[v].x.asid <= d.max <==> d.min <= d.max)
  {
    hide Apply, Enabled, Init;
    RunInv(states, steps, n);
    OkFacts(states[n], v);
    assert v != w ==> Distinct(states[n], states[n].vs[v].x, states[n].vs[w].x);
  }
}
