// Two things the code does not promise, each with a run that shows it and the exact condition: that a range clear
// leaves nothing, and that a leaf the guest may write to covers a page the host may write to.

module NotifierRuns {
  import opened Regions
  import opened EptTree
  import opened EptFlat
  import opened EptRun
  import opened Notifier

  // ---- rights ----

  predicate MayWrite(host: map<nat, Pte>, h: nat) { h in host && host[h].w }

  /** Host page n is behind guest block b. */
  predicate InBlock(rs: seq<Region>, b: nat, n: nat) {
    HostPage(rs, 512 * b).Some? && HostPage(rs, 512 * b).value <= n < HostPage(rs, 512 * b).value + 512
  }

  /** Every leaf the guest may write to covers pages the host may write to. */
  ghost predicate RightsOk(rs: seq<Region>, s: State) {
    && (forall g :: g in s.f.small && Writable(s.f.small[g]) ==>
          HostPage(rs, g).Some? && MayWrite(s.host, HostPage(rs, g).value))
    && (forall b, n :: b in s.f.huge && Writable(s.f.huge[b]) && InBlock(rs, b, n) ==> MayWrite(s.host, n))
  }

  /** The step is not a write fault that maps a raw frame which the host may not write to. */
  ghost predicate NoRawWrite(rs: seq<Region>, s: State, step: Step) {
    step.Install? && !step.drop && !step.wide && step.t in s.threads && s.threads[step.t].Pinned?
      && !MustRetry(s, s.threads[step.t].seen) && s.threads[step.t].write && s.threads[step.t].pte.raw ==>
      HostPage(rs, s.threads[step.t].gpa / 4096).Some?
      && MayWrite(s.host, HostPage(rs, s.threads[step.t].gpa / 4096).value)
  }

  /** Only raw leaves are in question: the others are covered in every reachable state. */
  lemma RawOnly(rs: seq<Region>, s: State)
    requires Inv(rs, s)
    ensures RightsOk(rs, s) <==> forall g :: g in s.f.small && Writable(s.f.small[g]) && s.f.small[g].pfnmap ==>
      HostPage(rs, g).Some? && MayWrite(s.host, HostPage(rs, g).value)
  {
    hide HostPage, Writable, Mapped, RangesEmpty, Fresh;
    forall g | g in s.f.small && Writable(s.f.small[g]) && !s.f.small[g].pfnmap
      ensures HostPage(rs, g).Some? && MayWrite(s.host, HostPage(rs, g).value)
    {
      assert SmallCoherent(rs, s.host, g, s.f.small[g]);
    }
    forall b: nat, n: nat | b in s.f.huge && Writable(s.f.huge[b]) && InBlock(rs, b, n)
      ensures MayWrite(s.host, n)
    {
      assert HugeCoherent(rs, s.host, b, s.f.huge[b]);
      assert n in s.host && Covers(s.host[n], Pte(s.f.huge[b].pfn + (n - HostPage(rs, 512 * b).value), false, true));
    }
  }

  /** A page that a leaf covers keeps the host's right to write to it. */
  lemma RightKept(rs: seq<Region>, s: State, step: Step, s': State, g: nat)
    requires Inv(rs, s) && Next(rs, s, step, s') && g in s.f.small
    requires HostPage(rs, g).Some? && MayWrite(s.host, HostPage(rs, g).value)
    ensures MayWrite(s'.host, HostPage(rs, g).value)
  {
    hide HostPage, Writable, Mapped, Fresh, Installs, ThpHonest, Fewer, Coherent;
    if step.HostChange? {
      var id :| id in s.open && s.open[id].swept && InSpan(s.open[id], step.h);
      assert RangeEmpty(s.f, rs, s.open[id].lo, s.open[id].hi);
      assert !SmallIn(rs, g, s.open[id].lo, s.open[id].hi);
    }
  }

  /** A leaf that is there after a step was there before, or the step installed it. */
  lemma NewLeaf(rs: seq<Region>, s: State, step: Step, s': State, g: nat)
    requires Next(rs, s, step, s') && g in s'.f.small
    ensures (g in s.f.small && s'.f.small[g] == s.f.small[g]) ||
      (step.Install? && !step.drop && !step.wide && step.t in s.threads && s.threads[step.t].Pinned?
       && !MustRetry(s, s.threads[step.t].seen) && g == s.threads[step.t].gpa / 4096 && s'.f.small[g] == step.e
       && Writable(step.e) == s.threads[step.t].write && step.e.pfnmap == s.threads[step.t].pte.raw
       && s'.host == s.host)
  {
    hide HostPage, Writable, RangeEmpty, ThpHonest;
  }

  lemma RightsStep(rs: seq<Region>, s: State, step: Step, s': State)
    requires Inv(rs, s) && Inv(rs, s') && RightsOk(rs, s) && Next(rs, s, step, s') && NoRawWrite(rs, s, step)
    ensures RightsOk(rs, s')
  {
    hide HostPage, Writable, Inv, Next, MayWrite;
    RawOnly(rs, s');
    forall g | g in s'.f.small && Writable(s'.f.small[g]) && s'.f.small[g].pfnmap
      ensures HostPage(rs, g).Some? && MayWrite(s'.host, HostPage(rs, g).value)
    {
      NewLeaf(rs, s, step, s', g);
      if g in s.f.small && s'.f.small[g] == s.f.small[g] { RightKept(rs, s, step, s', g); }
    }
  }

  lemma RightsBroken(rs: seq<Region>, s: State, step: Step, s': State)
    requires Inv(rs, s) && Next(rs, s, step, s') && !NoRawWrite(rs, s, step)
    ensures !RightsOk(rs, s')
  {
    hide HostPage, Writable, Coherent, RangesEmpty, Mapped;
    var g := s.threads[step.t].gpa / 4096;
    assert Fresh(rs, s, s.threads[step.t]);
    assert g in s'.f.small && Writable(s'.f.small[g]);
  }

  /** Over every run: in all its states each writable leaf covers a page the host may write to, exactly when no write
      fault mapped a raw frame that the host could not write to. */
  lemma RightsIff(rs: seq<Region>, states: seq<State>, steps: seq<Step>)
    requires Regular(rs) && Solid(rs) && IsRun(rs, states, steps)
    ensures (forall n :: 0 <= n < |states| ==> RightsOk(rs, states[n])) <==>
            (forall i :: 0 <= i < |steps| ==> NoRawWrite(rs, states[i], steps[i]))
  {
    hide Regular, Solid, Next, RightsOk, NoRawWrite, Inv;
    if forall i :: 0 <= i < |steps| ==> NoRawWrite(rs, states[i], steps[i]) {
      forall n: nat | n < |states| ensures RightsOk(rs, states[n]) { RightsUpTo(rs, states, steps, n); }
    } else {
      var i: nat :| i < |steps| && !NoRawWrite(rs, states[i], steps[i]);
      RunInv(rs, states, steps, i);
      RightsBroken(rs, states[i], steps[i], states[i + 1]);
    }
  }

  lemma {:induction false} RightsUpTo(rs: seq<Region>, states: seq<State>, steps: seq<Step>, n: nat)
    requires Regular(rs) && Solid(rs) && IsRun(rs, states, steps) && n < |states|
    requires forall i :: 0 <= i < |steps| ==> NoRawWrite(rs, states[i], steps[i])
    ensures RightsOk(rs, states[n])
  {
    hide Regular, Solid, Next, NoRawWrite, Inv;
    if n > 0 {
      RightsUpTo(rs, states, steps, n - 1);
      RunInv(rs, states, steps, n - 1);
      RunInv(rs, states, steps, n);
      RightsStep(rs, states[n - 1], steps[n - 1], states[n]);
    }
  }

  // ---- runs that show it ----

  /** 4M of host memory at 1G, as guest memory from 0. */
  const REGIONS: seq<Region> := [Region(0x4000_0000, 0, 0x40_0000)]

  lemma OneRegion()
    ensures Regular(REGIONS) && OneRegionPerBlock(REGIONS)
  {
  }

  lemma AtPage(g: nat)
    requires g < 1024
    ensures HostPage(REGIONS, g) == Some(0x40000 + g)
    ensures ToHva(REGIONS, 4096 * g) == 0x4000_0000 + 4096 * g
  {
    OneRegion();
    GpaHit(REGIONS, 0, 4096 * g);
    WholePages(0x40000 + g);
  }

  /** A single region has no block with a gap. */
  lemma OneIsSolid()
    ensures Solid(REGIONS)
  {
    OneRegion();
    forall b: u64 | b % 0x20_0000 == 0 && b + 0x20_0000 < W && HugeConsistent(REGIONS, b) ensures Linear(REGIONS, b) {
      Aligned(b);
      var i := GpaOwner(REGIONS, b);
      var j := GpaOwner(REGIONS, b + 0x20_0000);
      forall g: u64 | b <= g < b + 0x20_0000
        ensures ToHva(REGIONS, g) != ADDR_INVAL && ToHva(REGIONS, g) == ToHva(REGIONS, b) + (g - b)
      {
        GpaHit(REGIONS, 0, b);
        GpaHit(REGIONS, 0, g);
      }
    }
  }

  /** A write fault on page 0 of the region, up to the pin. */
  function Faulting(host: map<nat, Pte>, step: nat): State
    requires 0x40000 in host
  {
    State(host, Flat(map[], map[]), 0, 0, map[],
          if step == 0 then map[] else map[0 := if step == 1 then Seen(0, 0) else Pinned(0, 0, host[0x40000], true)])
  }

  /** That fault, ending in the leaf e. */
  function FaultRun(host: map<nat, Pte>, f: Flat): seq<State>
    requires 0x40000 in host
  {
    [Faulting(host, 0), Faulting(host, 1), Faulting(host, 2), Faulting(host, 0).(f := f)]
  }

  lemma FaultIsRun(host: map<nat, Pte>, e: Epte, wide: bool, f: Flat)
    requires 0x40000 in host && (host[0x40000].raw || host[0x40000].w)
    requires Next(REGIONS, Faulting(host, 2), Install(0, e, wide, false), Faulting(host, 0).(f := f))
    ensures IsRun(REGIONS, FaultRun(host, f), [ReadSeq(0, 0), PinPage(0, true), Install(0, e, wide, false)])
  {
    hide HostPage, ThpHonest, Notifier.Installs;
    AtPage(0);
    var states, steps := FaultRun(host, f), [ReadSeq(0, 0), PinPage(0, true), Install(0, e, wide, false)];
    assert Next(REGIONS, states[0], steps[0], states[1]);
    assert Next(REGIONS, states[1], steps[1], states[2]);
    assert Next(REGIONS, states[2], steps[2], states[3]);
    forall i | 0 <= i < |steps| ensures Next(REGIONS, states[i], steps[i], states[i + 1]) {
      assert i == 0 || i == 1 || i == 2;
    }
  }

  /** A write fault on a raw frame that the host maps read-only gives the guest a writable leaf. */
  lemma RawWriteHappens() returns (states: seq<State>, steps: seq<Step>)
    ensures IsRun(REGIONS, states, steps) && !RightsOk(REGIONS, states[|steps|])
  {
    var host: map<nat, Pte> := map[0x40000 := Pte(5, true, false)];
    var e := Epte(5, true, true, true, false, true, true, 6, false, false);
    var f := Flat(map[0 := e], map[]);
    assert Notifier.Installs(REGIONS, Faulting(host, 2), Faulting(host, 2).threads[0], e, false, false, f);
    assert Faulting(host, 2).threads - {0} == map[];
    FaultIsRun(host, e, false, f);
    states, steps := FaultRun(host, f), [ReadSeq(0, 0), PinPage(0, true), Install(0, e, false, false)];
    AtPage(0);
    assert Writable(e);
  }

  /** A transparent huge page behind the first 2M of the region. */
  function HugeHost(): map<nat, Pte> {
    map h: nat | 0x40000 <= h < 0x40400 :: HugePte(h)
  }

  function HugePte(h: nat): Pte { Pte(0x40000 + h, false, true) }

  const HUGE_LEAF: Epte := Epte(0x80000, true, true, true, true, false, true, 6, false, false)

  lemma WideHappens()
    ensures 0x40000 in HugeHost() && HugeHost()[0x40000] == HugePte(0x40000)
    ensures Next(REGIONS, Faulting(HugeHost(), 2), Install(0, HUGE_LEAF, true, false),
                 Faulting(HugeHost(), 0).(f := Flat(map[], map[0 := HUGE_LEAF])))
  {
    hide HostPage, HugeConsistent;
    var host, f := HugeHost(), Flat(map[], map[0 := HUGE_LEAF]);
    AtPage(0);
    BlockPasses();
    assert HostHuge(host, 0x40000, 0x80000, true);
    var s := Faulting(host, 2);
    assert ThpHonest(REGIONS, s, s.threads[0]);
    assert Notifier.Installs(REGIONS, s, s.threads[0], HUGE_LEAF, true, false, f);
    assert s.threads - {0} == map[];
  }

  /** A fault on it, and then an invalidation of its first page only: the 2M leaf starts in the range, contains the
      range's end, outlives the code's clear, and is stale as soon as the host removes the page. */
  lemma StraddleHappens() returns (states: seq<State>, steps: seq<Step>)
    ensures IsRun(REGIONS, states, steps) && 0 in states[|steps|].f.huge && Straddles(REGIONS, 0, 0x40000, 0x40001)
    ensures var s := states[|steps|]; var f := ClearRange(s.f, REGIONS, 4096 * 0x40000, 4096 * 0x40001);
      0 in f.huge && !HugeCoherent(REGIONS, s.host - {0x40000}, 0, f.huge[0])
  {
    hide Next, HostPage, Regular, Solid, OneRegionPerBlock, Inv;
    var f := Flat(map[], map[0 := HUGE_LEAF]);
    WideHappens();
    FaultIsRun(HugeHost(), HUGE_LEAF, true, f);
    states, steps := FaultRun(HugeHost(), f), [ReadSeq(0, 0), PinPage(0, true), Install(0, HUGE_LEAF, true, false)];
    AtPage(0);
    OneRegion();
    OneIsSolid();
    RunInv(REGIONS, states, steps, 3);
    assert Mapped(f, REGIONS) by { InvMapped(REGIONS, states[3]); }
    ClearedExactly(f, REGIONS, 0x40000, 0x40001);
    var left := ClearRange(f, REGIONS, 4096 * 0x40000, 4096 * 0x40001);
    assert 0 in left.huge;
    NoPage(HugeHost(), 0x40000, left.huge[0].pfn, Writable(left.huge[0]));
  }

  lemma NoPage(host: map<nat, Pte>, h: nat, head: nat, w: bool)
    ensures !HostHuge(host - {h}, h, head, w)
  {
    var gone := host - {h};
    assert h !in gone;
  }

  lemma InvMapped(rs: seq<Region>, s: State)
    requires Inv(rs, s)
    ensures Mapped(s.f, rs)
  {
  }

  lemma BlockPasses()
    ensures HugeConsistent(REGIONS, 0)
  {
    AtPage(0);
    AtPage(512);
    Aligned(0);
  }
}
