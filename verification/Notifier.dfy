// The mmu-notifier sequence/count protocol between faults and invalidations (ept.c:379-393, ept.c:537-608,
// ept.c:811-857), as steps of any number of faulting threads and overlapping invalidations.
// The host page table is environment state; every step is one section under ept_lock or one unlocked access.

module Notifier {
  import opened Regions
  import opened EptTree
  import opened EptFlat
  import opened EptWalk
  import opened EptRun
  import Ept

  /** A host page table entry: a frame, whether it is a raw frame of an IO or PFNMAP area, and whether the host may
      write to it. */
  datatype Pte = Pte(frame: nat, raw: bool, w: bool)

  /** The entry now is the entry then, with no right taken away. */
  predicate Covers(now: Pte, was: Pte) { now.frame == was.frame && now.raw == was.raw && (was.w ==> now.w) }

  /** The W bit of a leaf. */
  predicate Writable(e: Epte) { e.w }

  /** A leaf the processor accepts and the guest can use: it may read and execute, a host page is write-back memory, and
      what is dirty is accessed and may be written to. */
  predicate Usable(e: Epte) {
    e.r && e.x && e.ipat && (!e.pfnmap ==> e.mtype == Ept.TYPE_WB) && (e.d ==> e.a && e.w)
  }

  /** A faulting thread in ept_set_epte. */
  datatype Thread =
    | Seen(gpa: u64, seen: nat)                              // has read mmu_notifier_seq
    | Pinned(gpa: u64, seen: nat, pte: Pte, write: bool)     // has pinned the page

  /** A host range under invalidation; swept once its start callback has returned. */
  datatype Span = Span(lo: nat, hi: nat, swept: bool)

  datatype State = State(
    host: map<nat, Pte>,
    f: Flat,
    count: nat,              // mmu_notifier_count
    sequence: nat,           // mmu_notifier_seq
    open: map<nat, Span>,
    threads: map<nat, Thread>)

  predicate InSpan(s: Span, h: nat) { s.lo <= h < s.hi }

  /** The leaves of f' are leaves of f. */
  predicate Fewer(f: Flat, f': Flat) {
    && (forall g :: g in f'.small ==> g in f.small && f'.small[g] == f.small[g])
    && (forall b :: b in f'.huge ==> b in f.huge && f'.huge[b] == f.huge[b])
  }

  // ---- steps ----

  datatype Step =
    | ReadSeq(t: nat, gpa: u64)
    | PinPage(t: nat, write: bool)
    | GiveUp(t: nat)
    | Install(t: nat, e: Epte, wide: bool, drop: bool)
    | Begin(id: nat, lo: nat, hi: nat)
    | Sweep(id: nat, left: Flat)
    | Swept(id: nat)
    | HostChange(h: nat, pte: Option<Pte>)
    | Populate(h: nat, page: Pte)
    | Upgrade(h: nat)
    | End(id: nat)
    | Invalidate(left: Flat, bump: bool)

  /** The host maps the 512 pages from h to the frames from head, as pages of a transparent huge page, writable if w. */
  ghost predicate HostHuge(host: map<nat, Pte>, h: nat, head: nat, w: bool) {
    forall n: nat :: h <= n < h + 512 ==> n in host && Covers(host[n], Pte(head + (n - h), false, w))
  }

  /** mmu_notifier_retry. */
  predicate MustRetry(s: State, seen: nat) { s.count > 0 || s.sequence != seen }

  /** The part of ept_set_epte under the lock; Ept.Table.SetEpte refines it.  drop stands for the ways out
      without a write: a 2M leaf met by a 4K install, and no memory for a directory. */
  ghost predicate Installs(rs: seq<Region>, s: State, th: Thread, e: Epte, wide: bool, drop: bool, f': Flat)
    requires th.Pinned?
  {
    var g, b := th.gpa / 4096, th.gpa / 4096 / 512;
    if MustRetry(s, th.seen) || drop then f' == s.f
    else if wide then
      && !th.pte.raw && HugeConsistent(rs, th.gpa) && (forall g' :: g' in s.f.small ==> g' / 512 != b)
      && Leaf2M(e) && Usable(e) && e.pfn == th.pte.frame - th.pte.frame % 512 && Writable(e) == th.write
      && f' == s.f.(huge := s.f.huge[b := e])
    else
      && b !in s.f.huge && Leaf4K(e) && Usable(e)
      && e.pfn == th.pte.frame && e.pfnmap == th.pte.raw && Writable(e) == th.write
      && f' == s.f.(small := s.f.small[g := e])
  }

  /** Kernel facts the protocol relies on: a page reported as a mapped transparent huge page belongs to a 2M-aligned
      host block that the host page table maps to the 512 frames from an aligned head, all with the same rights. */
  ghost predicate ThpHonest(rs: seq<Region>, s: State, th: Thread)
    requires th.Pinned?
  {
    HostPage(rs, th.gpa / 4096).Some? ==>
      var h := HostPage(rs, th.gpa / 4096).value;
      h in s.host && Covers(s.host[h], th.pte) ==>
        HostHuge(s.host, h - h % 512, th.pte.frame - th.pte.frame % 512, th.pte.w)
  }

  ghost predicate Next(rs: seq<Region>, s: State, step: Step, s': State) {
    match step
    case ReadSeq(t, gpa) =>
      && t !in s.threads && gpa < 0x1_0000_0000_0000 && HostPage(rs, gpa / 4096).Some?
      && s' == s.(threads := s.threads[t := Seen(gpa, s.sequence)])
    // get_user_pages for writing gives a page the host may write to; ept_follow_pfn takes a raw frame as it is
    case PinPage(t, write) =>
      && t in s.threads && s.threads[t].Seen?
      && var h := HostPage(rs, s.threads[t].gpa / 4096);
         h.Some? && h.value in s.host && (write && !s.host[h.value].raw ==> s.host[h.value].w)
         && s' == s.(threads := s.threads[t := Pinned(s.threads[t].gpa, s.threads[t].seen, s.host[h.value], write)])
    case GiveUp(t) => t in s.threads && s' == s.(threads := s.threads - {t})
    case Install(t, e, wide, drop) =>
      && t in s.threads && s.threads[t].Pinned?
      && (wide ==> ThpHonest(rs, s, s.threads[t]))
      && s' == s.(threads := s.threads - {t}, f := s'.f)
      && Installs(rs, s, s.threads[t], e, wide, drop, s'.f)
    case Begin(id, lo, hi) =>
      id !in s.open && lo < hi && s' == s.(open := s.open[id := Span(lo, hi, false)], count := s.count + 1)
    case Sweep(id, left) =>
      id in s.open && !s.open[id].swept && Fewer(s.f, left) && s' == s.(f := left)
    case Swept(id) =>
      && id in s.open && RangeEmpty(s.f, rs, s.open[id].lo, s.open[id].hi)
      && s' == s.(open := s.open[id := s.open[id].(swept := true)])
    case HostChange(h, pte) =>
      && (exists id :: id in s.open && s.open[id].swept && InSpan(s.open[id], h))
      && s' == s.(host := if pte.Some? then s.host[h := pte.value] else s.host - {h})
    // the host maps an absent page, and lets a page be written to, with no notifier call
    case Populate(h, page) => h !in s.host && s' == s.(host := s.host[h := page])
    case Upgrade(h) => h in s.host && s' == s.(host := s.host[h := s.host[h].(w := true)])
    case End(id) =>
      && id in s.open && s.open[id].swept && s.count > 0
      && s' == s.(open := s.open - {id}, count := s.count - 1, sequence := s.sequence + 1)
    case Invalidate(left, bump) =>
      Fewer(s.f, left) && s' == s.(f := left, sequence := if bump then s.sequence + 1 else s.sequence)
  }

  ghost predicate Init(s: State) {
    s.f == Flat(map[], map[]) && s.count == 0 && s.open == map[] && s.threads == map[]
  }

  // ---- what every step keeps ----

  /** A present leaf maps its page to the frame the host page table holds for it now, with the same kind, and lets the
      guest read and execute, and write only where the host may, raw frames aside. */
  ghost predicate SmallCoherent(rs: seq<Region>, host: map<nat, Pte>, g: nat, e: Epte) {
    && Usable(e) && HostPage(rs, g).Some? && HostPage(rs, g).value in host
    && Covers(host[HostPage(rs, g).value], Pte(e.pfn, e.pfnmap, Writable(e) && !e.pfnmap))
  }

  ghost predicate HugeCoherent(rs: seq<Region>, host: map<nat, Pte>, b: nat, e: Epte) {
    Usable(e) && HostPage(rs, 512 * b).Some? && HostHuge(host, HostPage(rs, 512 * b).value, e.pfn, Writable(e))
  }

  ghost predicate Coherent(rs: seq<Region>, host: map<nat, Pte>, f: Flat) {
    && (forall g :: g in f.small ==> SmallCoherent(rs, host, g, f.small[g]))
    && (forall b :: b in f.huge ==> HugeCoherent(rs, host, b, f.huge[b]))
  }

  /** Nothing is mapped inside a range whose start callback has returned. */
  ghost predicate RangesEmpty(rs: seq<Region>, open: map<nat, Span>, f: Flat) {
    forall id :: id in open && open[id].swept ==> RangeEmpty(f, rs, open[id].lo, open[id].hi)
  }

  /** A pinned page is still the host's page, unless an open invalidation covers it or one has ended since. */
  ghost predicate Fresh(rs: seq<Region>, s: State, th: Thread) {
    && th.seen <= s.sequence && th.gpa < 0x1_0000_0000_0000 && HostPage(rs, th.gpa / 4096).Some?
    && (th.Pinned? && th.write && !th.pte.raw ==> th.pte.w)
    && (th.Pinned? && th.seen == s.sequence ==>
          var h := HostPage(rs, th.gpa / 4096).value;
          (h in s.host && Covers(s.host[h], th.pte)) || s.count > 0)
  }

  ghost predicate Inv(rs: seq<Region>, s: State) {
    && s.count == |s.open|
    && Mapped(s.f, rs) && Coherent(rs, s.host, s.f) && RangesEmpty(rs, s.open, s.f)
    && (forall t :: t in s.threads ==> Fresh(rs, s, s.threads[t]))
  }

  lemma InitInv(rs: seq<Region>, s: State)
    requires Init(s)
    ensures Inv(rs, s)
  {
  }

  // ---- one lemma per kind of step ----

  lemma FewerKeeps(rs: seq<Region>, s: State, left: Flat)
    requires Mapped(s.f, rs) && Coherent(rs, s.host, s.f) && RangesEmpty(rs, s.open, s.f) && Fewer(s.f, left)
    ensures Mapped(left, rs) && Coherent(rs, s.host, left) && RangesEmpty(rs, s.open, left)
  {
    hide HostPage, SmallCoherent, HugeCoherent;
  }

  lemma ThreadStep(rs: seq<Region>, s: State, step: Step, s': State)
    requires Inv(rs, s) && (step.ReadSeq? || step.PinPage? || step.GiveUp?) && Next(rs, s, step, s')
    ensures Inv(rs, s')
  {
    hide HostPage, Mapped, Coherent, RangesEmpty;
  }

  lemma SweepStep(rs: seq<Region>, s: State, step: Step, s': State)
    requires Inv(rs, s) && (step.Sweep? || step.Invalidate?) && Next(rs, s, step, s')
    ensures Inv(rs, s')
  {
    hide HostPage, Mapped, Coherent, RangesEmpty, Fewer;
    FewerKeeps(rs, s, step.left);
  }

  lemma Removed(open: map<nat, Span>, id: nat)
    requires id in open
    ensures |open - {id}| == |open| - 1
  {
    assert (open - {id}).Keys == open.Keys - {id};
  }

  lemma OpenStep(rs: seq<Region>, s: State, step: Step, s': State)
    requires Inv(rs, s) && (step.Begin? || step.Swept?) && Next(rs, s, step, s')
    ensures Inv(rs, s')
  {
    hide HostPage, Mapped, Coherent, RangeEmpty;
  }

  /** When the sequence goes up, nothing is promised of a page pinned before. */
  lemma FreshLater(rs: seq<Region>, s: State, s': State, th: Thread)
    requires Fresh(rs, s, th) && s'.sequence == s.sequence + 1
    ensures Fresh(rs, s', th)
  {
    hide HostPage, Covers;
  }

  lemma FewerOpen(rs: seq<Region>, open: map<nat, Span>, id: nat, f: Flat)
    requires RangesEmpty(rs, open, f)
    ensures RangesEmpty(rs, open - {id}, f)
  {
    hide RangeEmpty;
  }

  lemma EndIs(rs: seq<Region>, s: State, id: nat, s': State)
    requires Next(rs, s, Step.End(id), s')
    ensures id in s.open && s.count > 0
    ensures s' == s.(open := s.open - {id}, count := s.count - 1, sequence := s.sequence + 1)
  {
    hide Installs, ThpHonest, HostPage, RangeEmpty, InSpan, Fewer;
  }

  lemma EndStep(rs: seq<Region>, s: State, step: Step, s': State)
    requires Inv(rs, s) && step.End? && Next(rs, s, step, s')
    ensures Inv(rs, s')
  {
    hide HostPage, Mapped, Coherent, RangesEmpty, Fresh, Next;
    EndIs(rs, s, step.id, s');
    Removed(s.open, step.id);
    FewerOpen(rs, s.open, step.id, s.f);
    forall t | t in s'.threads ensures Fresh(rs, s', s'.threads[t]) {
      assert Fresh(rs, s, s.threads[t]);
      FreshLater(rs, s, s', s.threads[t]);
    }
  }

  lemma HostStep(rs: seq<Region>, s: State, step: Step, s': State)
    requires Inv(rs, s) && step.HostChange? && Next(rs, s, step, s')
    ensures Inv(rs, s')
  {
    hide HostPage, Mapped;
    var id :| id in s.open && s.open[id].swept && InSpan(s.open[id], step.h);
    var lo, hi := s.open[id].lo, s.open[id].hi;
    assert RangeEmpty(s.f, rs, lo, hi);
    forall g | g in s'.f.small ensures SmallCoherent(rs, s'.host, g, s.f.small[g]) {
      assert SmallCoherent(rs, s.host, g, s.f.small[g]) && !SmallIn(rs, g, lo, hi);
    }
    forall b | b in s'.f.huge ensures HugeCoherent(rs, s'.host, b, s.f.huge[b]) {
      assert HugeCoherent(rs, s.host, b, s.f.huge[b]) && !HugeMeets(rs, b, lo, hi);
    }
    assert |s.open| > 0;
  }

  /** A host table with more pages and more rights. */
  predicate Grown(host: map<nat, Pte>, host': map<nat, Pte>) {
    forall h :: h in host ==> h in host' && Covers(host'[h], host[h])
  }

  lemma GrownCoherent(rs: seq<Region>, host: map<nat, Pte>, host': map<nat, Pte>, f: Flat)
    requires Grown(host, host') && Coherent(rs, host, f)
    ensures Coherent(rs, host', f)
  {
    hide HostPage, Writable;
    forall g | g in f.small ensures SmallCoherent(rs, host', g, f.small[g]) {
      assert SmallCoherent(rs, host, g, f.small[g]);
    }
    forall b | b in f.huge ensures HugeCoherent(rs, host', b, f.huge[b]) {
      assert HugeCoherent(rs, host, b, f.huge[b]);
    }
  }

  lemma GrowStep(rs: seq<Region>, s: State, step: Step, s': State)
    requires Inv(rs, s) && (step.Populate? || step.Upgrade?) && Next(rs, s, step, s')
    ensures Inv(rs, s')
  {
    hide HostPage, Mapped, RangesEmpty, Coherent;
    assert Grown(s.host, s'.host);
    GrownCoherent(rs, s.host, s'.host, s.f);
    forall t | t in s'.threads ensures Fresh(rs, s', s'.threads[t]) { assert Fresh(rs, s, s.threads[t]); }
  }

  /** A page that passes the retry test is still the host's page. */
  lemma StillCurrent(rs: seq<Region>, s: State, t: nat)
    requires Inv(rs, s) && t in s.threads && s.threads[t].Pinned? && !MustRetry(s, s.threads[t].seen)
    ensures HostPage(rs, s.threads[t].gpa / 4096).Some? && s.open == map[]
    ensures var h := HostPage(rs, s.threads[t].gpa / 4096).value; h in s.host && Covers(s.host[h], s.threads[t].pte)
  {
    assert Fresh(rs, s, s.threads[t]);
  }

  /** The leaf a 4K install writes agrees with the host. */
  lemma SmallAgrees(rs: seq<Region>, s: State, t: nat, e: Epte)
    requires Inv(rs, s) && t in s.threads && s.threads[t].Pinned? && !MustRetry(s, s.threads[t].seen)
    requires e.pfn == s.threads[t].pte.frame && e.pfnmap == s.threads[t].pte.raw && Writable(e) == s.threads[t].write
    requires Usable(e)
    ensures SmallCoherent(rs, s.host, s.threads[t].gpa / 4096, e) && s.open == map[]
  {
    hide HostPage, Mapped, Coherent, RangesEmpty, Writable;
    assert Fresh(rs, s, s.threads[t]);
    StillCurrent(rs, s, t);
  }

  lemma SmallKeepsMapped(f: Flat, rs: seq<Region>, g: nat, e: Epte)
    requires Mapped(f, rs) && HostPage(rs, g).Some? && g / 512 !in f.huge
    ensures Mapped(f.(small := f.small[g := e]), rs)
  {
    hide HostPage;
  }

  lemma SmallInstall(rs: seq<Region>, s: State, t: nat, e: Epte, s': State)
    requires Regular(rs) && Inv(rs, s) && Next(rs, s, Install(t, e, false, false), s')
    ensures Inv(rs, s')
  {
    hide HostPage, Regular, Mapped, SmallCoherent, HugeCoherent, Writable;
    if !MustRetry(s, s.threads[t].seen) {
      StillCurrent(rs, s, t);
      SmallAgrees(rs, s, t, e);
      SmallKeepsMapped(s.f, rs, s.threads[t].gpa / 4096, e);
    }
  }

  /** The 2M block behind a transparent huge page is the block of the guest page. */
  lemma BlockBase(rs: seq<Region>, gpa: u64)
    requires Regular(rs) && Solid(rs) && gpa < 0x1_0000_0000_0000 && HugeConsistent(rs, gpa)
    ensures var g, b := gpa / 4096, gpa / 4096 / 512;
      && HostPage(rs, 512 * b).Some? && HostPage(rs, g).Some?
      && HostPage(rs, 512 * b).value == HostPage(rs, g).value - HostPage(rs, g).value % 512
  {
    hide HostPage, Regular, Solid, HugeConsistent;
    var g := gpa / 4096;
    ConsistentIsLine(rs, gpa, g);
    var _ := HostPageFacts(rs, g);
  }

  lemma HugeWeaker(host: map<nat, Pte>, h: nat, head: nat, w: bool, w': bool)
    requires w' ==> w
    ensures HostHuge(host, h, head, w) ==> HostHuge(host, h, head, w')
  {
  }

  /** The leaf a wide install writes agrees with the host. */
  lemma WideCoherent(rs: seq<Region>, s: State, t: nat, e: Epte)
    requires Regular(rs) && Solid(rs) && Inv(rs, s) && t in s.threads && s.threads[t].Pinned?
    requires !MustRetry(s, s.threads[t].seen) && ThpHonest(rs, s, s.threads[t])
    requires HugeConsistent(rs, s.threads[t].gpa) && !s.threads[t].pte.raw
    requires e.pfn == s.threads[t].pte.frame - s.threads[t].pte.frame % 512 && Writable(e) == s.threads[t].write
    requires Usable(e)
    ensures s.threads[t].gpa < 0x1_0000_0000_0000 && s.open == map[]
    ensures HugeCoherent(rs, s.host, s.threads[t].gpa / 4096 / 512, e)
  {
    hide HostPage, Regular, Solid, HugeConsistent, HostHuge, Mapped, Coherent, RangesEmpty, Writable;
    var th := s.threads[t];
    assert Fresh(rs, s, th);
    StillCurrent(rs, s, t);
    BlockBase(rs, th.gpa);
    HugeWeaker(s.host, HostPage(rs, 512 * (th.gpa / 4096 / 512)).value, e.pfn, th.pte.w, th.write);
  }

  lemma WideInstall(rs: seq<Region>, s: State, t: nat, e: Epte, s': State)
    requires Regular(rs) && Solid(rs) && Inv(rs, s) && Next(rs, s, Install(t, e, true, false), s')
    ensures Inv(rs, s')
  {
    hide HostPage, Regular, Solid, HugeConsistent, HostHuge, Mapped, SmallCoherent, HugeCoherent, ThpHonest, Writable;
    var th := s.threads[t];
    if !MustRetry(s, th.seen) {
      WideCoherent(rs, s, t, e);
      HugeKeepsMapped(s.f, rs, th.gpa, e);
    }
  }

  lemma InstallStep(rs: seq<Region>, s: State, step: Step, s': State)
    requires Regular(rs) && Solid(rs) && Inv(rs, s) && step.Install? && Next(rs, s, step, s')
    ensures Inv(rs, s')
  {
    hide HostPage, Regular, Solid, Mapped, Coherent, RangesEmpty;
    if !step.drop {
      if step.wide {
        WideInstall(rs, s, step.t, step.e, s');
      } else {
        SmallInstall(rs, s, step.t, step.e, s');
      }
    }
  }

  lemma AnyStep(rs: seq<Region>, s: State, step: Step, s': State)
    requires Regular(rs) && Solid(rs) && Inv(rs, s) && Next(rs, s, step, s')
    ensures Inv(rs, s')
  {
    hide Inv, Next, Regular, Solid;
    match step
    case ReadSeq(_, _) => ThreadStep(rs, s, step, s');
    case PinPage(_, _) => ThreadStep(rs, s, step, s');
    case GiveUp(_) => ThreadStep(rs, s, step, s');
    case Populate(_, _) => GrowStep(rs, s, step, s');
    case Upgrade(_) => GrowStep(rs, s, step, s');
    case Install(_, _, _, _) => InstallStep(rs, s, step, s');
    case HostChange(_, _) => HostStep(rs, s, step, s');
    case Sweep(_, _) => SweepStep(rs, s, step, s');
    case Invalidate(_, _) => SweepStep(rs, s, step, s');
    case End(_) => EndStep(rs, s, step, s');
    case _ => OpenStep(rs, s, step, s');
  }

  // ---- whole runs ----

  ghost predicate IsRun(rs: seq<Region>, states: seq<State>, steps: seq<Step>) {
    && |states| == |steps| + 1 && Init(states[0])
    && forall i :: 0 <= i < |steps| ==> Next(rs, states[i], steps[i], states[i + 1])
  }

  lemma {:induction false} RunInv(rs: seq<Region>, states: seq<State>, steps: seq<Step>, n: nat)
    requires Regular(rs) && Solid(rs) && IsRun(rs, states, steps) && n < |states|
    ensures Inv(rs, states[n])
  {
    hide Inv, Next, Init, Regular, Solid;
    if n == 0 {
      InitInv(rs, states[0]);
    } else {
      RunInv(rs, states, steps, n - 1);
      AnyStep(rs, states[n - 1], steps[n - 1], states[n]);
    }
  }

  /** In every state of every run each leaf maps its page to the frame the host holds for it now, and no leaf
      touches a range whose invalidation has started and not ended. */
  lemma LeavesCoherent(rs: seq<Region>, states: seq<State>, steps: seq<Step>, n: nat)
    requires Regular(rs) && Solid(rs) && IsRun(rs, states, steps) && n < |states|
    ensures Coherent(rs, states[n].host, states[n].f) && RangesEmpty(rs, states[n].open, states[n].f)
  {
    RunInv(rs, states, steps, n);
  }

  /** The frame a walk that ends in this leaf gives page g. */
  function FrameOf(hit: Hit, g: nat): nat
    requires hit.Hit?
  {
    if hit.level == 1 then hit.entry.pfn + g % 512 else hit.entry.pfn
  }

  /** What a walk that ends in this leaf lets the guest do with page g is what the host's entry covers. */
  predicate HitCovered(pte: Pte, hit: Hit, g: nat)
    requires hit.Hit?
  {
    && pte.frame == FrameOf(hit, g) && pte.raw == (hit.level == 0 && hit.entry.pfnmap)
    && Usable(hit.entry) && (Writable(hit.entry) ==> pte.w || pte.raw)
  }

  lemma HugeHit(rs: seq<Region>, host: map<nat, Pte>, f: Flat, g: nat)
    requires Mapped(f, rs) && g / 512 in f.huge && HugeCoherent(rs, host, g / 512, f.huge[g / 512])
    ensures HostPage(rs, g).Some? && HostPage(rs, g).value in host
    ensures HitCovered(host[HostPage(rs, g).value], Hit(1, f.huge[g / 512]), g)
  {
    hide HostPage;
    var b := g / 512;
    var h := HostPage(rs, 512 * b).value + g % 512;
    assert HostPage(rs, g) == Some(h);
    assert Covers(host[h], Pte(f.huge[b].pfn + g % 512, false, Writable(f.huge[b])));
  }

  lemma SmallHit(rs: seq<Region>, host: map<nat, Pte>, f: Flat, g: nat)
    requires g in f.small && SmallCoherent(rs, host, g, f.small[g])
    ensures HostPage(rs, g).Some? && HostPage(rs, g).value in host
    ensures HitCovered(host[HostPage(rs, g).value], Hit(0, f.small[g]), g)
  {
    hide HostPage;
  }

  lemma HugeOutside(rs: seq<Region>, f: Flat, g: nat, lo: nat, hi: nat)
    requires Mapped(f, rs) && g / 512 in f.huge && RangeEmpty(f, rs, lo, hi)
    ensures !SmallIn(rs, g, lo, hi)
  {
    hide HostPage;
    var b := g / 512;
    assert HostPage(rs, g) == Some(HostPage(rs, 512 * b).value + g % 512);
    assert !HugeMeets(rs, b, lo, hi);
  }

  lemma SmallOutside(rs: seq<Region>, f: Flat, g: nat, lo: nat, hi: nat)
    requires g in f.small && RangeEmpty(f, rs, lo, hi)
    ensures !SmallIn(rs, g, lo, hi)
  {
  }

  /** A walk of the leaves of such a state, and where it does not end. */
  lemma FlatHit(rs: seq<Region>, s: State, g: nat)
    requires Inv(rs, s) && FlatWalk(s.f, g).Hit?
    ensures HostPage(rs, g).Some? && HostPage(rs, g).value in s.host
    ensures HitCovered(s.host[HostPage(rs, g).value], FlatWalk(s.f, g), g)
    ensures forall id :: id in s.open && s.open[id].swept ==> !SmallIn(rs, g, s.open[id].lo, s.open[id].hi)
  {
    hide HostPage, Fresh, Mapped, SmallCoherent, HugeCoherent, RangeEmpty, SmallIn, HitCovered;
    if g / 512 in s.f.huge {
      HugeHit(rs, s.host, s.f, g);
      forall id | id in s.open && s.open[id].swept ensures !SmallIn(rs, g, s.open[id].lo, s.open[id].hi) {
        HugeOutside(rs, s.f, g, s.open[id].lo, s.open[id].hi);
      }
    } else {
      SmallHit(rs, s.host, s.f, g);
      forall id | id in s.open && s.open[id].swept ensures !SmallIn(rs, g, s.open[id].lo, s.open[id].hi) {
        SmallOutside(rs, s.f, g, s.open[id].lo, s.open[id].hi);
      }
    }
  }

  /** Seen from the guest: for any radix tree holding the leaves of a reachable state, whatever the hardware walk
      finds for a page is the frame the host maps there now, of the same kind, which the guest may read and execute,
      and write only where the host may, raw frames aside; and it finds nothing in a range between the return of its
      start and its end. */
  lemma WalksAgree(rs: seq<Region>, states: seq<State>, steps: seq<Step>, n: nat, root: nat, pages: Pages, node: Nodes,
                   g: nat)
    requires Regular(rs) && Solid(rs) && IsRun(rs, states, steps) && n < |states|
    requires Tree(root, pages, node) && Abs(pages, node) == states[n].f
    requires g < GPNS && Walk(pages, root, 3, g).Hit?
    ensures HostPage(rs, g).Some? && HostPage(rs, g).value in states[n].host
    ensures HitCovered(states[n].host[HostPage(rs, g).value], Walk(pages, root, 3, g), g)
    ensures forall id :: id in states[n].open && states[n].open[id].swept ==>
      !SmallIn(rs, g, states[n].open[id].lo, states[n].open[id].hi)
  {
    hide HostPage, Regular, Solid, Next, Inv, Tree, Abs, Walk, FlatWalk, HitCovered, SmallIn;
    RunInv(rs, states, steps, n);
    WalkIsFlat(root, pages, node, g);
    FlatHit(rs, states[n], g);
  }

  /** A 4K leaf that a fault meets is of the page it has pinned. */
  lemma SmallMatch(rs: seq<Region>, s: State, t: nat)
    requires Inv(rs, s) && t in s.threads && s.threads[t].Pinned? && !MustRetry(s, s.threads[t].seen)
    requires s.threads[t].gpa / 4096 in s.f.small
    ensures var e := s.f.small[s.threads[t].gpa / 4096];
      e.pfn == s.threads[t].pte.frame && e.pfnmap == s.threads[t].pte.raw
  {
    hide HostPage, Mapped, RangesEmpty, Fresh, HugeCoherent, Writable;
    StillCurrent(rs, s, t);
    assert SmallCoherent(rs, s.host, s.threads[t].gpa / 4096, s.f.small[s.threads[t].gpa / 4096]);
  }

  /** So is a 2M leaf: its frame is the one below the pinned page by the page's place in the block. */
  lemma HugeMatch(rs: seq<Region>, s: State, t: nat)
    requires Inv(rs, s) && t in s.threads && s.threads[t].Pinned? && !MustRetry(s, s.threads[t].seen)
    requires s.threads[t].gpa / 4096 / 512 in s.f.huge
    ensures var g := s.threads[t].gpa / 4096;
      s.f.huge[g / 512].pfn + g % 512 == s.threads[t].pte.frame && !s.threads[t].pte.raw
  {
    hide HostPage, Mapped, RangesEmpty, Fresh, SmallCoherent, HugeCoherent, Writable;
    var g := s.threads[t].gpa / 4096;
    StillCurrent(rs, s, t);
    HugeHit(rs, s.host, s.f, g);
  }

  lemma OneHead(host: map<nat, Pte>, h: nat, head: nat, w: bool, head': nat, w': bool)
    requires HostHuge(host, h, head, w) && HostHuge(host, h, head', w')
    ensures head == head'
  {
    assert Covers(host[h], Pte(head, false, w)) && Covers(host[h], Pte(head', false, w'));
  }

  /** And it is the head that a 2M install is about to write. */
  lemma HeadMatch(rs: seq<Region>, s: State, t: nat)
    requires Regular(rs) && Solid(rs) && Inv(rs, s)
    requires t in s.threads && s.threads[t].Pinned? && !MustRetry(s, s.threads[t].seen)
    requires s.threads[t].gpa / 4096 / 512 in s.f.huge && HugeConsistent(rs, s.threads[t].gpa)
    requires ThpHonest(rs, s, s.threads[t])
    ensures s.f.huge[s.threads[t].gpa / 4096 / 512].pfn == s.threads[t].pte.frame - s.threads[t].pte.frame % 512
  {
    hide HostPage, Regular, Solid, HugeConsistent, Mapped, SmallCoherent, RangesEmpty, HostHuge;
    var th, b := s.threads[t], s.threads[t].gpa / 4096 / 512;
    assert Fresh(rs, s, th);
    StillCurrent(rs, s, t);
    BlockBase(rs, th.gpa);
    assert HugeCoherent(rs, s.host, b, s.f.huge[b]);
    var h := HostPage(rs, 512 * b).value;
    OneHead(s.host, h, s.f.huge[b].pfn, Writable(s.f.huge[b]), th.pte.frame - th.pte.frame % 512, th.pte.w);
  }

  /** The frame-mismatch warning of ept_set_epte cannot fire, for a 4K install nor for a 2M one, and a leaf is only
      overwritten by one of its kind. */
  lemma NoMismatch(rs: seq<Region>, states: seq<State>, steps: seq<Step>, n: nat, t: nat)
    requires Regular(rs) && Solid(rs) && IsRun(rs, states, steps) && n < |states|
    requires t in states[n].threads && states[n].threads[t].Pinned? && !MustRetry(states[n], states[n].threads[t].seen)
    ensures var s, th := states[n], states[n].threads[t];
      var g, b := th.gpa / 4096, th.gpa / 4096 / 512;
      && (g in s.f.small ==> s.f.small[g].pfn == th.pte.frame && s.f.small[g].pfnmap == th.pte.raw)
      && (b in s.f.huge ==> s.f.huge[b].pfn + g % 512 == th.pte.frame && !th.pte.raw)
      && (b in s.f.huge && HugeConsistent(rs, th.gpa) && ThpHonest(rs, s, th) ==>
            s.f.huge[b].pfn == th.pte.frame - th.pte.frame % 512)
  {
    hide Regular, Solid, Next, Inv, MustRetry, HugeConsistent, ThpHonest;
    var s, th := states[n], states[n].threads[t];
    RunInv(rs, states, steps, n);
    if th.gpa / 4096 in s.f.small { SmallMatch(rs, s, t); }
    if th.gpa / 4096 / 512 in s.f.huge {
      HugeMatch(rs, s, t);
      if HugeConsistent(rs, th.gpa) && ThpHonest(rs, s, th) { HeadMatch(rs, s, t); }
    }
  }

  // ---- the code's own start callback, and the table itself ----

  /** ept.c clears the whole range in the same locked section that raises the count.  That start is a Begin, a Sweep and
      a Swept step exactly when no 2M leaf starting in the range contains the range's end. */
  lemma StartIff(rs: seq<Region>, s: State, id: nat, lo: nat, hi: nat)
    requires Regular(rs) && OneRegionPerBlock(rs) && Inv(rs, s) && id !in s.open && lo < hi
    ensures var f := ClearRange(s.f, rs, 4096 * lo, 4096 * hi);
      var s1 := s.(open := s.open[id := Span(lo, hi, false)], count := s.count + 1);
      var s2 := s1.(f := f);
      && Next(rs, s, Begin(id, lo, hi), s1) && Next(rs, s1, Sweep(id, f), s2)
      && (Next(rs, s2, Swept(id), s2.(open := s.open[id := Span(lo, hi, true)])) <==>
          forall b :: b in s.f.huge ==> !Straddles(rs, b, lo, hi))
  {
    hide HostPage, Regular, OneRegionPerBlock, Straddles, RangeEmpty, Coherent, RangesEmpty, Fresh, Mapped;
    ClearTotalIff(s.f, rs, lo, hi);
    assert s.open[id := Span(lo, hi, false)][id := Span(lo, hi, true)] == s.open[id := Span(lo, hi, true)];
  }

  /** When that condition fails the leaf outlives the start, and any change of the host page at its base makes
      it stale. */
  lemma StraddlingLeafGoesStale(rs: seq<Region>, s: State, b: nat, lo: nat, hi: nat, pte: Pte)
    requires Regular(rs) && OneRegionPerBlock(rs) && Inv(rs, s) && lo < hi
    requires b in s.f.huge && Straddles(rs, b, lo, hi)
    ensures var h, f := HostPage(rs, 512 * b).value, ClearRange(s.f, rs, 4096 * lo, 4096 * hi);
      && lo <= h < hi && h in s.host && b in f.huge
      && (!Covers(pte, s.host[h].(w := false)) ==> !HugeCoherent(rs, s.host[h := pte], b, f.huge[b]))
  {
    hide HostPage, Regular, OneRegionPerBlock, Mapped, RangesEmpty, Fresh;
    ClearedExactly(s.f, rs, lo, hi);
    assert HugeCoherent(rs, s.host, b, s.f.huge[b]);
    var h := HostPage(rs, 512 * b).value;
    assert Covers(s.host[h], Pte(s.f.huge[b].pfn, false, Writable(s.f.huge[b])));
    var f := ClearRange(s.f, rs, 4096 * lo, 4096 * hi);
    assert f.huge[b] == s.f.huge[b];
    if HugeCoherent(rs, s.host[h := pte], b, f.huge[b]) {
      assert Covers(s.host[h := pte][h], Pte(f.huge[b].pfn, false, Writable(f.huge[b])));
    }
  }

  /** The table of ept.c takes the Install steps of this protocol: a fault on a table holding the leaves, sequence and
      count of a state leaves the leaves that Installs allows. */
  method FaultInstalls(t: Ept.Table, ghost s: State, ghost th: Thread, gpa: u64, write: bool, ad: bool, pin: Ept.Pin,
                       seen: nat)
      returns (o: Ept.Outcome)
    requires t.Valid() && gpa < 0x1_0000_0000_0000 && (pin.Page? || pin.Pfn?)
    requires t.F() == s.f && t.notifierCount == s.count && t.notifierSeq == s.sequence
    requires th.Pinned? && th == Pinned(gpa, seen, Pte(pin.pfn, pin.Pfn?, th.pte.w), write)
    modifies t
    ensures t.Valid() && o.Retry? == MustRetry(s, seen)
    ensures exists e, wide, drop ::
      && Installs(t.regions, s, th, e, wide, drop, t.F()) && (wide ==> pin.Page? && pin.thp)
      && drop == (o.Busy? || o.NoTable?)
  {
    hide Tree, Abs, Ent, Up, HugeConsistent, Ept.N4K, Ept.N2M;
    ghost var f := t.F();
    o := t.SetEpte(gpa, write, ad, pin, seen);
    LeavesExclusive(t.root, t.pages, t.node);
    var e := if o.Huge? then Ept.MakeHuge(pin, write, ad) else Ept.MakeEpte(pin, write, ad);
    assert Installs(t.regions, s, th, e, o.Huge?, o.Busy? || o.NoTable?, t.F());
  }
}
