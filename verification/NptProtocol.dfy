// A start callback of npt.c under the notifier protocol (npt.c:729-789, npt.c:843-865).  It is Begin, a Sweep for each
// turn of its first pass with anything other threads do in between, a Sweep for the second pass, and Swept exactly when
// no 2M leaf that starts in the range and contains the range's end was left by the others.

module NptProtocol {
  import opened Regions
  import opened EptFlat
  import opened EptRun
  import opened EptClear
  import opened NptClear
  import N = Notifier

  datatype Move = Own | Other(step: N.Step)

  predicate IsOwn(step: N.Step, id: nat) { (step.Sweep? || step.Swept? || step.End?) && step.id == id }

  /** A turn of the first pass of invalidation id at host page h, or a step of another thread while the lock is free. */
  ghost predicate Goes(rs: seq<Region>, id: nat, hi: nat, s: N.State, h: nat, m: Move, s': N.State, h': nat) {
    match m
    case Own => h < hi && N.Next(rs, s, N.Sweep(id, TurnOf(rs, s.f, h).0), s') && h' == TurnOf(rs, s.f, h).1
    case Other(step) => !IsOwn(step, id) && N.Next(rs, s, step, s') && h' == h
  }

  /** The states and the cursor of the first pass over [lo, hi). */
  ghost predicate IsPass(rs: seq<Region>, id: nat, lo: nat, hi: nat, ss: seq<N.State>, hs: seq<nat>, ms: seq<Move>) {
    && |ss| == |hs| == |ms| + 1 && hs[0] == lo
    && forall i :: 0 <= i < |ms| ==> Goes(rs, id, hi, ss[i], hs[i], ms[i], ss[i + 1], hs[i + 1])
  }

  // ---- others ----

  /** While the invalidation is open other threads only remove leaves, and it stays as it is. */
  lemma OthersRemove(rs: seq<Region>, s: N.State, id: nat, step: N.Step, s': N.State)
    requires N.Inv(rs, s) && id in s.open && !s.open[id].swept && !IsOwn(step, id) && N.Next(rs, s, step, s')
    ensures N.Fewer(s.f, s'.f) && id in s'.open && s'.open[id] == s.open[id]
  {
    hide Mapped, N.Coherent, N.RangesEmpty, N.Fresh, HostPage, RangeEmpty, N.ThpHonest, HugeConsistent;
    assert s.count > 0;
  }

  lemma FewerIsLess(f: Flat, f': Flat) returns (small: set<nat>, huge: set<nat>)
    requires N.Fewer(f, f')
    ensures f' == Less(f, small, huge)
  {
    small, huge := f.small.Keys - f'.small.Keys, f.huge.Keys - f'.huge.Keys;
    assert Less(f, small, huge).small == f'.small && Less(f, small, huge).huge == f'.huge;
  }

  // ---- the first pass ----

  /** The pass over the leaves f0, less those that others have removed: small and huge. */
  ghost predicate Passing(rs: seq<Region>, f0: Flat, id: nat, lo: nat, hi: nat, s: N.State, h: nat,
                          small: set<nat>, huge: set<nat>)
  {
    && N.Inv(rs, s) && id in s.open && s.open[id] == N.Span(lo, hi, false) && lo <= h
    && Mapped(Less(f0, small, huge), rs) && CursorAt(Less(f0, small, huge), s.f, rs, lo, hi, h)
  }

  lemma OwnMove(rs: seq<Region>, f0: Flat, id: nat, lo: nat, hi: nat, s: N.State, h: nat, s': N.State, h': nat,
                small: set<nat>, huge: set<nat>)
    requires Regular(rs) && Solid(rs) && Passing(rs, f0, id, lo, hi, s, h, small, huge)
    requires Goes(rs, id, hi, s, h, Own, s', h')
    ensures Passing(rs, f0, id, lo, hi, s', h', small, huge)
  {
    hide Regular, Solid, N.Inv, Mapped, CursorAt, TurnOf, N.Fewer, Less;
    TurnCursor(Less(f0, small, huge), s.f, rs, lo, hi, h);
    N.AnyStep(rs, s, N.Sweep(id, TurnOf(rs, s.f, h).0), s');
    SweepIs(rs, s, id, TurnOf(rs, s.f, h).0, s');
  }

  lemma SweepIs(rs: seq<Region>, s: N.State, id: nat, left: Flat, s': N.State)
    ensures N.Next(rs, s, N.Sweep(id, left), s') <==>
      id in s.open && !s.open[id].swept && N.Fewer(s.f, left) && s' == s.(f := left)
  {
    hide HostPage, RangeEmpty, N.ThpHonest, N.Installs, N.Fewer;
  }

  lemma OtherMove(rs: seq<Region>, f0: Flat, id: nat, lo: nat, hi: nat, s: N.State, h: nat, step: N.Step, s': N.State,
                  small: set<nat>, huge: set<nat>) returns (small': set<nat>, huge': set<nat>)
    requires Regular(rs) && Solid(rs) && Passing(rs, f0, id, lo, hi, s, h, small, huge)
    requires Goes(rs, id, hi, s, h, Other(step), s', h)
    ensures Passing(rs, f0, id, lo, hi, s', h, small', huge')
  {
    hide Regular, Solid, N.Inv, Mapped, CursorAt, N.Fewer, N.Next, Less;
    N.AnyStep(rs, s, step, s');
    OthersRemove(rs, s, id, step, s');
    var ds, dh := FewerIsLess(s.f, s'.f);
    small', huge' := small + ds, huge + dh;
    CursorLess(Less(f0, small, huge), s.f, rs, lo, hi, h, ds, dh);
    LessMapped(Less(f0, small, huge), rs, ds, dh);
    LessTwice(f0, small, huge, ds, dh);
  }

  lemma {:induction false} PassKept(rs: seq<Region>, s: N.State, id: nat, lo: nat, hi: nat, ss: seq<N.State>,
                                    hs: seq<nat>, ms: seq<Move>, n: nat) returns (small: set<nat>, huge: set<nat>)
    requires Regular(rs) && Solid(rs) && N.Inv(rs, s) && |ss| > 0 && N.Next(rs, s, N.Begin(id, lo, hi), ss[0])
    requires IsPass(rs, id, lo, hi, ss, hs, ms) && n < |ss|
    ensures Passing(rs, s.f, id, lo, hi, ss[n], hs[n], small, huge)
  {
    hide Regular, Solid, N.Inv, N.Next, Goes, Mapped, CursorAt;
    if n == 0 {
      small, huge := {}, {};
      N.AnyStep(rs, s, N.Begin(id, lo, hi), ss[0]);
      Begun(rs, s, id, lo, hi, ss[0]);
      LessNone(s.f);
      CursorStart(s.f, rs, lo, hi);
    } else {
      small, huge := PassKept(rs, s, id, lo, hi, ss, hs, ms, n - 1);
      assert Goes(rs, id, hi, ss[n - 1], hs[n - 1], ms[n - 1], ss[n], hs[n]);
      match ms[n - 1]
      case Own => OwnMove(rs, s.f, id, lo, hi, ss[n - 1], hs[n - 1], ss[n], hs[n], small, huge);
      case Other(step) =>
        CursorStays(rs, id, hi, ss[n - 1], hs[n - 1], step, ss[n], hs[n]);
        small, huge := OtherMove(rs, s.f, id, lo, hi, ss[n - 1], hs[n - 1], step, ss[n], small, huge);
    }
  }

  lemma CursorStays(rs: seq<Region>, id: nat, hi: nat, s: N.State, h: nat, step: N.Step, s': N.State, h': nat)
    requires Goes(rs, id, hi, s, h, Other(step), s', h')
    ensures h' == h
  {
  }

  lemma Begun(rs: seq<Region>, s: N.State, id: nat, lo: nat, hi: nat, s': N.State)
    requires N.Inv(rs, s) && N.Next(rs, s, N.Begin(id, lo, hi), s')
    ensures id in s'.open && s'.open[id] == N.Span(lo, hi, false) && s'.f == s.f && Mapped(s.f, rs)
  {
    hide HostPage, RangeEmpty, N.ThpHonest, N.Installs, N.Fewer, Mapped, N.Coherent, N.RangesEmpty, N.Fresh;
  }

  // ---- the whole callback ----

  /** What is left of the range after a clear of f, less what others removed. */
  lemma EmptyIff(f: Flat, rs: seq<Region>, lo: nat, hi: nat, small: set<nat>, huge: set<nat>)
    requires Regular(rs) && OneRegionPerBlock(rs) && Mapped(f, rs) && lo < hi
    ensures RangeEmpty(Less(ClearRange(f, rs, 4096 * lo, 4096 * hi), small, huge), rs, lo, hi) <==>
      forall b :: b in f.huge && Straddles(rs, b, lo, hi) ==> b in huge
  {
    hide Regular, OneRegionPerBlock, Mapped, SmallIn, ClearRange, HostPage;
    ClearedExactly(f, rs, lo, hi);
    var f' := ClearRange(f, rs, 4096 * lo, 4096 * hi);
    forall b | b in f.huge && Straddles(rs, b, lo, hi)
      ensures b in f'.huge && HugeMeets(rs, b, lo, hi) && (b in Less(f', small, huge).huge <==> b !in huge)
    {
    }
    assert forall b :: b in Less(f', small, huge).huge ==> b in f'.huge && b !in huge;
    assert forall g :: g in Less(f', small, huge).small ==> g in f'.small;
  }

  lemma SecondPass(f0: Flat, f: Flat, rs: seq<Region>, lo: nat, hi: nat, h: nat, small: set<nat>, huge: set<nat>)
    requires lo <= h && h >= hi && CursorAt(Less(f0, small, huge), f, rs, lo, hi, h)
    ensures Pass2(f, rs, (4096 * lo + 0x1F_FFFF) / 0x20_0000, 4096 * hi / 0x20_0000) ==
            Less(ClearRange(f0, rs, 4096 * lo, 4096 * hi), small, huge)
    ensures f == Less(Pass1(f0, rs, lo, hi), small, huge)
  {
    hide CursorAt, Pass1, Pass2, Less;
    CursorEnd(Less(f0, small, huge), f, rs, lo, hi, h);
    PassLess(f0, rs, lo, hi, small, huge);
    Pass2Less(Pass1(f0, rs, lo, hi), rs, (4096 * lo + 0x1F_FFFF) / 0x20_0000, 4096 * hi / 0x20_0000, small, huge);
    WholeRange(lo, hi);
  }

  lemma WholeRange(lo: nat, hi: nat)
    ensures 4096 * lo / 4096 == lo && (4096 * hi + 4095) / 4096 == hi
  {
  }

  lemma Pass2Fewer(f: Flat, rs: seq<Region>, lo: nat, hi: nat)
    ensures N.Fewer(f, Pass2(f, rs, lo, hi))
  {
    hide DirHit;
  }

  /** A 2M leaf that starts in the range and contains its end stands until another thread removes it. */
  lemma StraddlerStands(f: Flat, rs: seq<Region>, lo: nat, hi: nat, b: nat, small: set<nat>, huge: set<nat>)
    requires Regular(rs) && OneRegionPerBlock(rs) && Mapped(f, rs) && lo < hi && b in f.huge && Straddles(rs, b, lo, hi)
    ensures b in Less(Pass1(f, rs, lo, hi), small, huge).huge <==> b !in huge
  {
    hide Regular, OneRegionPerBlock, Mapped, HostPage, Straddles, Pass1, HugeMeets, SmallIn, DirHit;
    ClearedExactly(f, rs, lo, hi);
    WholeRange(lo, hi);
    assert b in ClearRange(f, rs, 4096 * lo, 4096 * hi).huge;
  }

  lemma SweptIs(rs: seq<Region>, s: N.State, id: nat)
    requires id in s.open && !s.open[id].swept
    ensures N.Next(rs, s, N.Swept(id), s.(open := s.open[id := s.open[id].(swept := true)])) <==>
      RangeEmpty(s.f, rs, s.open[id].lo, s.open[id].hi)
  {
    hide HostPage, RangeEmpty, N.ThpHonest, N.Installs, N.Fewer;
  }

  /** Whatever other threads do between its turns, a start callback of npt.c ends as a step of the protocol; its range
      is then empty, so that it may return, exactly when the others have removed every 2M leaf that starts in the
      range and contains the range's end. */
  lemma StartWithWindows(rs: seq<Region>, s: N.State, id: nat, lo: nat, hi: nat, ss: seq<N.State>, hs: seq<nat>,
                         ms: seq<Move>) returns (small: set<nat>, huge: set<nat>)
    requires Regular(rs) && Solid(rs) && OneRegionPerBlock(rs) && N.Inv(rs, s) && lo < hi
    requires |ss| > 0 && N.Next(rs, s, N.Begin(id, lo, hi), ss[0])
    requires IsPass(rs, id, lo, hi, ss, hs, ms) && hs[|ms|] >= hi
    ensures var last := ss[|ms|];
      var f := Pass2(last.f, rs, (4096 * lo + 0x1F_FFFF) / 0x20_0000, 4096 * hi / 0x20_0000);
      var done := last.(f := f);
      && f == Less(ClearRange(s.f, rs, 4096 * lo, 4096 * hi), small, huge)
      && N.Next(rs, last, N.Sweep(id, f), done) && id in done.open
      && (N.Next(rs, done, N.Swept(id), done.(open := done.open[id := N.Span(lo, hi, true)])) <==>
          forall b :: b in s.f.huge && Straddles(rs, b, lo, hi) ==> b !in last.f.huge)
  {
    hide Regular, Solid, OneRegionPerBlock, N.Inv, N.Next, Goes, Mapped, CursorAt, Straddles;
    hide ClearRange, Pass1, Pass2, Less;
    small, huge := PassKept(rs, s, id, lo, hi, ss, hs, ms, |ms|);
    var last := ss[|ms|];
    SecondPass(s.f, last.f, rs, lo, hi, hs[|ms|], small, huge);
    var f := Pass2(last.f, rs, (4096 * lo + 0x1F_FFFF) / 0x20_0000, 4096 * hi / 0x20_0000);
    var done := last.(f := f);
    Pass2Fewer(last.f, rs, (4096 * lo + 0x1F_FFFF) / 0x20_0000, 4096 * hi / 0x20_0000);
    SweepIs(rs, last, id, f, done);
    SweptIs(rs, done, id);
    Begun(rs, s, id, lo, hi, ss[0]);
    EmptyIff(s.f, rs, lo, hi, small, huge);
    forall b | b in s.f.huge && Straddles(rs, b, lo, hi)
      ensures b in last.f.huge <==> b !in huge
    {
      StraddlerStands(s.f, rs, lo, hi, b, small, huge);
    }
  }
}
