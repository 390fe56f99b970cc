// The table of ept.c itself under the notifier protocol: faults that read the sequence, pin a page of the host table
// and install it, starts, ends and page drops, while the host changes its page table.

module EptProtocol {
  import opened Regions
  import opened EptTree
  import opened EptFlat
  import opened EptRun
  import opened EptWalk
  import Ept
  import N = Notifier

  datatype Event =
    | Read(th: nat, gpa: u64)
    | Pin(th: nat, write: bool)
    | GiveUp(th: nat)
    | Install(th: nat, pin: Ept.Pin, write: bool, ad: bool)
    | Start(id: nat, lo: nat, hi: nat)
    | End(id: nat)
    | Invalidate(hva: u64)
    | Host(h: nat, change: Option<N.Pte>)
    | Populate(h: nat, page: N.Pte)
    | Upgrade(h: nat)

  /** The table holds the leaves, count and sequence of the state. */
  predicate Shown(s: N.State, w: View) { w.f == s.f && w.count == s.count && w.sequence == s.sequence }

  /** What the kernel keeps to.  A fault installs the page its thread has pinned; a start meets no 2M leaf that begins
      in its range and contains the range's end. */
  ghost predicate Allowed(rs: seq<Region>, s: N.State, e: Event) {
    match e
    case Read(th, gpa) => th !in s.threads && gpa < 0x1_0000_0000_0000 && HostPage(rs, gpa / 4096).Some?
    case Pin(th, write) => exists s' :: N.Next(rs, s, N.PinPage(th, write), s')
    case GiveUp(th) => th in s.threads
    case Install(th, pin, write, _) =>
      && th in s.threads && s.threads[th].Pinned? && (pin.Page? || pin.Pfn?)
      && s.threads[th].pte.frame == pin.pfn && s.threads[th].pte.raw == pin.Pfn? && s.threads[th].write == write
      && (pin.Page? && pin.thp ==> N.ThpHonest(rs, s, s.threads[th]))
    case Start(id, lo, hi) =>
      && id !in s.open && lo < hi && 4096 * hi + 0x20_2000 < W
      && forall b :: b in s.f.huge ==> !Straddles(rs, b, lo, hi)
    case End(id) => id in s.open && s.open[id].swept && s.count > 0
    case Invalidate(_) => true
    case Host(h, _) => exists id :: id in s.open && s.open[id].swept && N.InSpan(s.open[id], h)
    case Populate(h, _) => h !in s.host
    case Upgrade(h) => h in s.host
  }

  /** The steps of the protocol that an event is. */
  ghost predicate Moves(rs: seq<Region>, s: N.State, e: Event, s': N.State) {
    match e
    case Read(th, gpa) => N.Next(rs, s, N.ReadSeq(th, gpa), s')
    case Pin(th, write) => N.Next(rs, s, N.PinPage(th, write), s')
    case GiveUp(th) => N.Next(rs, s, N.GiveUp(th), s')
    case Install(th, _, _, _) => exists leaf, wide, drop :: N.Next(rs, s, N.Install(th, leaf, wide, drop), s')
    case Start(id, lo, hi) => s' == Started(rs, s, id, lo, hi)
    case End(id) => N.Next(rs, s, N.End(id), s')
    case Invalidate(_) => exists left, bump :: N.Next(rs, s, N.Invalidate(left, bump), s')
    case Host(h, change) => N.Next(rs, s, N.HostChange(h, change), s')
    case Populate(h, page) => N.Next(rs, s, N.Populate(h, page), s')
    case Upgrade(h) => N.Next(rs, s, N.Upgrade(h), s')
  }

  function Started(rs: seq<Region>, s: N.State, id: nat, lo: nat, hi: nat): N.State {
    s.(open := s.open[id := N.Span(lo, hi, true)], count := s.count + 1, f := ClearRange(s.f, rs, 4096 * lo, 4096 * hi))
  }

  lemma MovesKeep(rs: seq<Region>, s: N.State, e: Event, s': N.State)
    requires Regular(rs) && Solid(rs) && OneRegionPerBlock(rs)
    requires N.Inv(rs, s) && Allowed(rs, s, e) && Moves(rs, s, e, s')
    ensures N.Inv(rs, s')
  {
    hide N.Inv, N.Next, Regular, Solid, OneRegionPerBlock, Straddles;
    match e
    case Read(th, gpa) => N.AnyStep(rs, s, N.ReadSeq(th, gpa), s');
    case Pin(th, write) => N.AnyStep(rs, s, N.PinPage(th, write), s');
    case GiveUp(th) => N.AnyStep(rs, s, N.GiveUp(th), s');
    case Install(th, _, _, _) =>
      var leaf, wide, drop :| N.Next(rs, s, N.Install(th, leaf, wide, drop), s');
      N.AnyStep(rs, s, N.Install(th, leaf, wide, drop), s');
    case Start(id, lo, hi) => StartKeeps(rs, s, id, lo, hi);
    case End(id) => N.AnyStep(rs, s, N.End(id), s');
    case Invalidate(_) =>
      var left, bump :| N.Next(rs, s, N.Invalidate(left, bump), s');
      N.AnyStep(rs, s, N.Invalidate(left, bump), s');
    case Host(h, change) => N.AnyStep(rs, s, N.HostChange(h, change), s');
    case Populate(h, page) => N.AnyStep(rs, s, N.Populate(h, page), s');
    case Upgrade(h) => N.AnyStep(rs, s, N.Upgrade(h), s');
  }

  lemma StartKeeps(rs: seq<Region>, s: N.State, id: nat, lo: nat, hi: nat)
    requires Regular(rs) && Solid(rs) && OneRegionPerBlock(rs) && N.Inv(rs, s) && id !in s.open && lo < hi
    requires forall b :: b in s.f.huge ==> !Straddles(rs, b, lo, hi)
    ensures N.Inv(rs, Started(rs, s, id, lo, hi))
  {
    hide N.Inv, N.Next, Regular, Solid, OneRegionPerBlock, Straddles, ClearRange;
    N.StartIff(rs, s, id, lo, hi);
    var f := ClearRange(s.f, rs, 4096 * lo, 4096 * hi);
    var s1 := s.(open := s.open[id := N.Span(lo, hi, false)], count := s.count + 1);
    var s2 := s1.(f := f);
    var s3 := s2.(open := s.open[id := N.Span(lo, hi, true)]);
    N.AnyStep(rs, s, N.Begin(id, lo, hi), s1);
    N.AnyStep(rs, s1, N.Sweep(id, f), s2);
    N.AnyStep(rs, s2, N.Swept(id), s3);
  }

  // ---- the code ----

  /** The address a thread faulted on and the sequence it read. */
  type Threads = map<nat, (u64, nat)>

  ghost predicate Tied(ths: Threads, s: N.State) {
    ths.Keys == s.threads.Keys && forall th :: th in ths ==> ths[th] == (s.threads[th].gpa, s.threads[th].seen)
  }

  /** The state after an event, as far as the table does not decide it. */
  ghost function After(rs: seq<Region>, s: N.State, e: Event, w: View): N.State {
    var s' := s.(f := w.f, count := w.count, sequence := w.sequence);
    match e
    case Read(th, gpa) => s'.(threads := s.threads[th := N.Seen(gpa, s.sequence)])
    case Pin(th, write) =>
      if th in s.threads && HostPage(rs, s.threads[th].gpa / 4096).Some?
         && HostPage(rs, s.threads[th].gpa / 4096).value in s.host then
        var pte := s.host[HostPage(rs, s.threads[th].gpa / 4096).value];
        s'.(threads := s.threads[th := N.Pinned(s.threads[th].gpa, s.threads[th].seen, pte, write)])
      else s'
    case GiveUp(th) => s'.(threads := s.threads - {th})
    case Install(th, _, _, _) => s'.(threads := s.threads - {th})
    case Start(id, lo, hi) => s'.(open := s.open[id := N.Span(lo, hi, true)])
    case End(id) => s'.(open := s.open - {id})
    case Invalidate(_) => s'
    case Host(h, change) => s'.(host := if change.Some? then s.host[h := change.value] else s.host - {h})
    case Populate(h, page) => s'.(host := s.host[h := page])
    case Upgrade(h) => if h in s.host then s'.(host := s.host[h := s.host[h].(w := true)]) else s'
  }

  /** The operation on the table that an event is, if it is one. */
  function OpOf(e: Event, ths: Threads): Option<Op> {
    match e
    case Install(th, pin, write, ad) =>
      if th in ths then Some(Fault(ths[th].0, write, ad, pin, ths[th].1)) else None
    case Start(_, lo, hi) =>
      if lo < hi && 4096 * hi + 0x20_2000 < W then Some(EptRun.Start(4096 * lo, 4096 * hi)) else None
    case End(_) => Some(EptRun.End)
    case Invalidate(hva) => Some(EptRun.Invalidate(hva))
    case _ => None
  }

  function ThreadsAfter(e: Event, ths: Threads, sequence: nat): Threads {
    match e
    case Read(th, gpa) => ths[th := (gpa, sequence)]
    case GiveUp(th) => ths - {th}
    case Install(th, _, _, _) => ths - {th}
    case _ => ths
  }

  /** What an event does to the table. */
  ghost predicate Did(rs: seq<Region>, ths: Threads, w: View, e: Event, w': View) {
    if OpOf(e, ths).Some? then Effect(rs, w, OpOf(e, ths).value, w') else w' == w
  }

  /** A fault of the table is an install of the protocol. */
  lemma FaultLeaves(rs: seq<Region>, s: N.State, w: View, th: N.Thread, op: Op, w': View)
      returns (leaf: Epte, wide: bool, drop: bool)
    requires th.Pinned? && op.Fault? && Mapped(w'.f, rs) && (op.pin.Page? || op.pin.Pfn?) && Enabled(op, s.count)
    requires op.gpa == th.gpa && op.seen == th.seen && op.write == th.write
    requires th.pte.frame == op.pin.pfn && th.pte.raw == op.pin.Pfn?
    requires Shown(s, w) && Effect(rs, w, op, w')
    ensures N.Installs(rs, s, th, leaf, wide, drop, w'.f) && (wide ==> op.pin.Page? && op.pin.thp)
    ensures w'.count == s.count && w'.sequence == s.sequence
  {
    hide HostPage, HugeConsistent, ToHva;
    if w'.f == s.f {
      leaf, wide, drop := NONE, false, true;
    } else if w'.f.small == s.f.small {
      leaf, wide, drop := Ept.MakeHuge(op.pin, op.write, op.ad), true, false;
      var b := op.gpa / 4096 / 512;
      assert b in w'.f.huge;
    } else {
      leaf, wide, drop := Ept.MakeEpte(op.pin, op.write, op.ad), false, false;
    }
  }

  /** It meets only a leaf of the kind it writes. */
  lemma FaultCounts(rs: seq<Region>, s: N.State, w: View, t: nat, op: Op)
    requires Shown(s, w) && N.Inv(rs, s) && t in s.threads && s.threads[t].Pinned? && op.Fault?
    requires op.gpa == s.threads[t].gpa && op.seen == s.threads[t].seen && s.threads[t].pte.raw == op.pin.Pfn?
    ensures Counts(rs, w, op)
  {
    hide HostPage, ToHva, Mapped, N.RangesEmpty, N.Writable;
    var g := op.gpa / 4096;
    if Reaches(rs, w, op) && g in s.f.small {
      N.StillCurrent(rs, s, t);
      assert N.SmallCoherent(rs, s.host, g, s.f.small[g]);
    }
  }

  lemma FaultMoves(rs: seq<Region>, s: N.State, w: View, e: Event, op: Op, w': View)
    requires Shown(s, w) && N.Inv(rs, s) && Allowed(rs, s, e) && e.Install? && Mapped(w'.f, rs)
    requires op == Fault(s.threads[e.th].gpa, e.write, e.ad, e.pin, s.threads[e.th].seen)
    requires Effect(rs, w, op, w')
    ensures Moves(rs, s, e, After(rs, s, e, w'))
  {
    hide N.Installs, Effect, HostPage, Mapped, N.Coherent, N.RangesEmpty, N.ThpHonest;
    var th := s.threads[e.th];
    assert N.Fresh(rs, s, th);
    var leaf, wide, drop := FaultLeaves(rs, s, w, th, op, w');
    assert N.Next(rs, s, N.Install(e.th, leaf, wide, drop), After(rs, s, e, w'));
  }

  lemma DropMoves(rs: seq<Region>, s: N.State, w: View, e: Event, w': View)
    requires Shown(s, w) && e.Invalidate? && Effect(rs, w, EptRun.Invalidate(e.hva), w')
    ensures Moves(rs, s, e, After(rs, s, e, w'))
  {
    hide HostPage, ToGpa;
    assert N.Fewer(s.f, w'.f);
    assert N.Next(rs, s, N.Invalidate(w'.f, w'.sequence == s.sequence + 1), After(rs, s, e, w'));
  }

  lemma AfterShown(rs: seq<Region>, s: N.State, e: Event, w: View)
    ensures Shown(After(rs, s, e, w), w)
  {
    hide HostPage;
  }

  lemma AfterTied(rs: seq<Region>, s: N.State, ths: Threads, e: Event, w: View)
    requires Tied(ths, s) && Allowed(rs, s, e)
    ensures Tied(ThreadsAfter(e, ths, s.sequence), After(rs, s, e, w))
  {
    hide HostPage, N.Next, N.ThpHonest, Straddles;
  }

  /** What the table did is what the protocol does next. */
  lemma TableMoves(rs: seq<Region>, s: N.State, w: View, ths: Threads, e: Event, w': View)
    requires Shown(s, w) && N.Inv(rs, s) && Allowed(rs, s, e) && Tied(ths, s) && Mapped(w'.f, rs)
    requires Did(rs, ths, w, e, w')
    ensures Moves(rs, s, e, After(rs, s, e, w'))
  {
    hide N.Inv, HostPage, Mapped, ClearRange, Straddles, N.Installs, RangeEmpty, N.ThpHonest, TablesLeft;
    match e
    case Install(_, _, _, _) => FaultMoves(rs, s, w, e, OpOf(e, ths).value, w');
    case Invalidate(_) => DropMoves(rs, s, w, e, w');
    case _ =>
  }

  /** Every operation of the protocol keeps the counters right. */
  lemma TableCounts(rs: seq<Region>, s: N.State, w: View, ths: Threads, e: Event)
    requires Regular(rs) && OneRegionPerBlock(rs) && Shown(s, w) && N.Inv(rs, s) && Allowed(rs, s, e) && Tied(ths, s)
    requires OpOf(e, ths).Some?
    ensures Counts(rs, w, OpOf(e, ths).value)
  {
    hide Regular, OneRegionPerBlock, HostPage, N.Coherent, N.RangesEmpty, N.Fresh, Straddles, N.ThpHonest, Ept.NoneLost;
    match e
    case Install(th, _, _, _) => FaultCounts(rs, s, w, th, OpOf(e, ths).value);
    case Start(_, lo, hi) => Ept.NoneLostThen(s.f, rs, 4096 * lo, 4096 * hi);
    case _ =>
  }

  // ---- whole runs ----

  /** The threads after the first i events, as the table's sequence was at each of them. */
  function ThreadsAt(events: seq<Event>, ws: seq<View>, i: nat): Threads
    requires i <= |events| && i <= |ws|
  {
    if i == 0 then map[] else ThreadsAfter(events[i - 1], ThreadsAt(events, ws, i - 1), ws[i - 1].sequence)
  }

  /** The views of the table over the first n events from w0, and with them the states of the protocol from s0: both are
      determined by the events, but for want of memory. */
  ghost predicate Driven(rs: seq<Region>, s0: N.State, w0: View, events: seq<Event>, trace: seq<N.State>, ws: seq<View>,
                         n: nat)
  {
    && n <= |events| && |trace| == |ws| == n + 1 && trace[0] == s0 && ws[0] == w0
    && (forall i :: 0 <= i <= n ==> Mapped(ws[i].f, rs))
    && (forall i :: 0 <= i < n ==> Did(rs, ThreadsAt(events, ws, i), ws[i], events[i], ws[i + 1]))
    && (forall i :: 0 <= i < n ==> trace[i + 1] == After(rs, trace[i], events[i], ws[i + 1]))
  }

  /** The kernel kept to its side in the first n events. */
  ghost predicate AllowedTo(rs: seq<Region>, trace: seq<N.State>, events: seq<Event>, n: nat)
    requires n <= |events| && n <= |trace|
  {
    forall i :: 0 <= i < n ==> Allowed(rs, trace[i], events[i])
  }

  /** For as long as it does, the table goes through states of the protocol, step by step. */
  lemma {:induction false} DrivenMoves(rs: seq<Region>, s0: N.State, w0: View, events: seq<Event>, trace: seq<N.State>,
                                       ws: seq<View>, m: nat, n: nat)
    requires Regular(rs) && Solid(rs) && OneRegionPerBlock(rs)
    requires Driven(rs, s0, w0, events, trace, ws, m) && n <= m && AllowedTo(rs, trace, events, n)
    requires N.Inv(rs, s0) && Shown(s0, w0) && s0.threads == map[]
    ensures N.Inv(rs, trace[n]) && Shown(trace[n], ws[n]) && Tied(ThreadsAt(events, ws, n), trace[n])
    ensures n > 0 ==> Moves(rs, trace[n - 1], events[n - 1], trace[n])
  {
    hide Regular, Solid, OneRegionPerBlock, N.Inv, Allowed, Moves, Did, After, Mapped, ThreadsAfter;
    if n > 0 {
      DrivenMoves(rs, s0, w0, events, trace, ws, m, n - 1);
      var ths := ThreadsAt(events, ws, n - 1);
      assert Allowed(rs, trace[n - 1], events[n - 1]);
      TableMoves(rs, trace[n - 1], ws[n - 1], ths, events[n - 1], ws[n]);
      AfterShown(rs, trace[n - 1], events[n - 1], ws[n]);
      AfterTied(rs, trace[n - 1], ths, events[n - 1], ws[n]);
      MovesKeep(rs, trace[n - 1], events[n - 1], trace[n]);
    }
  }

  method Take(t: Ept.Table, ths: Threads, e: Event) returns (ths': Threads)
    requires Good(t)
    modifies t
    ensures Good(t) && ths' == ThreadsAfter(e, ths, old(t.notifierSeq))
    ensures Did(t.regions, ths, old(ViewOf(t)), e, ViewOf(t))
    ensures old(t.Counted()) && (OpOf(e, ths).Some? ==> Counts(t.regions, old(ViewOf(t)), OpOf(e, ths).value)) ==>
              t.Counted()
  {
    hide Tree, Abs, Regular, Solid, Mapped, Effect, Counts, TablesOf, Ept.N4K, Ept.N2M;
    ths' := ThreadsAfter(e, ths, t.notifierSeq);
    var op := OpOf(e, ths);
    if op.Some? { OneOp(t, op.value); }
  }

  /** The table of ept.c driven through any events.  For as long as the kernel keeps to its side it goes through
      states of the protocol, and in each of them every leaf agrees with the host page table and none is in a range
      under invalidation; at the end both counters are right too. */
  method Drive(t: Ept.Table, events: seq<Event>, ghost s0: N.State)
      returns (ghost trace: seq<N.State>, ghost ws: seq<View>)
    requires Good(t) && OneRegionPerBlock(t.regions) && t.Counted()
    requires N.Inv(t.regions, s0) && Shown(s0, ViewOf(t)) && s0.threads == map[]
    modifies t
    ensures Driven(t.regions, s0, old(ViewOf(t)), events, trace, ws, |events|) && ws[|events|] == ViewOf(t)
    ensures forall n :: 0 <= n <= |events| && AllowedTo(t.regions, trace, events, n) ==>
      && (n > 0 ==> Moves(t.regions, trace[n - 1], events[n - 1], trace[n])) && Shown(trace[n], ws[n])
      && N.Coherent(t.regions, trace[n].host, ws[n].f) && N.RangesEmpty(t.regions, trace[n].open, ws[n].f)
    ensures AllowedTo(t.regions, trace, events, |events|) ==> t.Counted()
  {
    hide Good, OneRegionPerBlock, Moves, Allowed, Did, Mapped, ViewOf, N.Inv, Counts, After, ThreadsAfter;
    hide Ept.Table.Counted;
    var ths: Threads := map[];
    ghost var rs, w0 := t.regions, ViewOf(t);
    trace, ws := [s0], [w0];
    assert Mapped(w0.f, rs) by { GoodFacts(t); }
    for i := 0 to |events|
      invariant Good(t) && Driven(rs, s0, w0, events, trace, ws, i) && ws[i] == ViewOf(t)
      invariant ths == ThreadsAt(events, ws, i)
      invariant AllowedTo(rs, trace, events, i) ==> t.Counted()
    {
      ghost var s, w := trace[i], ws[i];
      assert w.sequence == t.notifierSeq by { GoodFacts(t); }
      assert Regular(rs) && Solid(rs) by { GoodFacts(t); }
      if AllowedTo(rs, trace, events, i) && Allowed(rs, s, events[i]) {
        DrivenMoves(rs, s0, w0, events, trace, ws, i, i);
        if OpOf(events[i], ths).Some? { TableCounts(rs, s, w, ths, events[i]); }
      }
      ths := Take(t, ths, events[i]);
      assert Mapped(ViewOf(t).f, rs) by { GoodFacts(t); }
      Longer(rs, s0, w0, events, trace, ws, i, ViewOf(t));
      LongerAllowed(rs, trace, events, i, After(rs, s, events[i], ViewOf(t)));
      trace, ws := trace + [After(rs, s, events[i], ViewOf(t))], ws + [ViewOf(t)];
    }
    assert Regular(rs) && Solid(rs) by { GoodFacts(t); }
    forall n | 0 <= n <= |events| && AllowedTo(rs, trace, events, n)
      ensures n > 0 ==> Moves(rs, trace[n - 1], events[n - 1], trace[n])
      ensures Shown(trace[n], ws[n]) && N.Coherent(rs, trace[n].host, ws[n].f)
      ensures N.RangesEmpty(rs, trace[n].open, ws[n].f)
    {
      DrivenMoves(rs, s0, w0, events, trace, ws, |events|, n);
      InvFacts(rs, trace[n]);
    }
  }

  lemma GoodFacts(t: Ept.Table)
    requires Good(t)
    ensures Mapped(ViewOf(t).f, t.regions) && Regular(t.regions) && Solid(t.regions)
    ensures ViewOf(t).sequence == t.notifierSeq
  {
  }

  lemma InvFacts(rs: seq<Region>, s: N.State)
    requires N.Inv(rs, s)
    ensures N.Coherent(rs, s.host, s.f) && N.RangesEmpty(rs, s.open, s.f)
  {
  }

  lemma {:induction false} SameThreads(events: seq<Event>, ws: seq<View>, w: View, i: nat)
    requires i <= |events| && i <= |ws|
    ensures ThreadsAt(events, ws + [w], i) == ThreadsAt(events, ws, i)
  {
    if i > 0 { SameThreads(events, ws, w, i - 1); }
  }

  lemma LongerAllowed(rs: seq<Region>, trace: seq<N.State>, events: seq<Event>, n: nat, s: N.State)
    requires n < |events| && |trace| == n + 1
    ensures AllowedTo(rs, trace + [s], events, n + 1) <==>
      AllowedTo(rs, trace, events, n) && Allowed(rs, trace[n], events[n])
  {
    hide Allowed;
    var longer := trace + [s];
    assert forall i :: 0 <= i <= n ==> longer[i] == trace[i];
    if AllowedTo(rs, longer, events, n + 1) {
      forall i | 0 <= i <= n ensures Allowed(rs, trace[i], events[i]) { assert Allowed(rs, longer[i], events[i]); }
    }
  }

  lemma Longer(rs: seq<Region>, s0: N.State, w0: View, events: seq<Event>, trace: seq<N.State>, ws: seq<View>, n: nat,
               w: View)
    requires n < |events| && Driven(rs, s0, w0, events, trace, ws, n) && Mapped(w.f, rs)
    requires Did(rs, ThreadsAt(events, ws, n), ws[n], events[n], w)
    ensures Driven(rs, s0, w0, events, trace + [After(rs, trace[n], events[n], w)], ws + [w], n + 1)
    ensures ThreadsAt(events, ws + [w], n + 1) == ThreadsAfter(events[n], ThreadsAt(events, ws, n), ws[n].sequence)
  {
    hide Did, After, Mapped, Allowed, ThreadsAfter, ThreadsAt;
    var trace', ws' := trace + [After(rs, trace[n], events[n], w)], ws + [w];
    assert forall i :: 0 <= i <= n ==> ws'[i] == ws[i] && trace'[i] == trace[i];
    forall i | 0 <= i <= n
      ensures Did(rs, ThreadsAt(events, ws', i), ws'[i], events[i], ws'[i + 1])
    {
      SameThreads(events, ws, w, i);
      assert i < n ==> Did(rs, ThreadsAt(events, ws, i), ws[i], events[i], ws[i + 1]);
    }
    LastThreads(events, ws', n);
    SameThreads(events, ws, w, n);
  }

  lemma LastThreads(events: seq<Event>, ws: seq<View>, n: nat)
    requires n < |events| && n < |ws|
    ensures ThreadsAt(events, ws, n + 1) == ThreadsAfter(events[n], ThreadsAt(events, ws, n), ws[n].sequence)
  {
  }
}
