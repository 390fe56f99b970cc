// The same on SVM, where a CPU keeps the translations of several vcpus apart by ASID and a flush is of one ASID:
// whatever a running guest can hit agrees with the host page table.

module SvmEndToEnd {
  import opened Regions
  import opened EptFlat
  import opened EptWalk
  import opened EptRun
  import opened CacheLink
  import N = Notifier
  import X = SvmEntry
  import F = SvmFlush
  import V = VmxEntry

  /** A translation in the TLB of a CPU, with the ASID that tags it and the vcpu that filled it. */
  datatype Line = Line(asid: nat, owner: nat, e: Entry)

  function TagOf(l: Line): X.Entry { X.Entry(l.asid, l.owner, l.e.stamp) }

  /** lines holds the translations each CPU has cached. */
  datatype State = State(n: N.State, x: X.State, lines: map<int, set<Line>>, flushOf: map<nat, nat>)

  function LinkOf(s: State): Link { Link(s.n, s.x.fs, s.x.now, s.flushOf) }

  function Lines(s: State, c: int): set<Line> { if c in s.lines then s.lines[c] else {} }

  /** The translations of lines that the TLBs of x still hold. */
  function Kept(lines: map<int, set<Line>>, x: X.State): map<int, set<Line>> {
    map c | c in lines :: set l | l in lines[c] && TagOf(l) in X.Tlb(x, c)
  }

  datatype Step =
    | Mmu(m: N.Step)                                          // the notifier protocol
    | Cpu(c: X.Step)                                          // vcpus and flushes
    | Fill(v: nat, g: nat)                                    // a guest's walk ends in a leaf
    | Flush(id: nat, f: nat, me: int, nomask: bool)           // the flush of a start callback begins

  ghost predicate Next(rs: seq<Region>, s: State, step: Step, s': State) {
    match step
    case Mmu(m) => Moves(rs, LinkOf(s), m, LinkOf(s')) && s' == s.(n := s'.n, flushOf := s'.flushOf)
    case Cpu(c) =>
      && !(c.Thread? && c.a.Fill?) && X.Enabled(s.x, c)
      && s' == s.(x := X.Apply(s.x, c), lines := Kept(s.lines, X.Apply(s.x, c)))
    case Fill(v, g) =>
      && X.Enabled(s.x, X.Thread(v, X.Fill)) && FlatWalk(s.n.f, g).Hit?
      && var t := s.x.vs[v];
         var l := Line(t.seen.asid, v, Cached(s.x.now, g, FlatWalk(s.n.f, g)));
         s' == s.(x := X.Apply(s.x, X.Thread(v, X.Fill)), lines := s.lines[t.x.cpu := Lines(s, t.x.cpu) + {l}])
    case Flush(id, f, me, nomask) =>
      && id in s.n.open && s.n.open[id].swept && id !in s.flushOf && X.Enabled(s.x, X.FlushStart(f, me, nomask))
      && s' == s.(x := X.Apply(s.x, X.FlushStart(f, me, nomask)), flushOf := s.flushOf[id := f])
  }

  ghost predicate Init(s: State) { N.Init(s.n) && X.Init(s.x) && s.lines == map[] && s.flushOf == map[] }

  /** Every cached translation is one the CPU holds, and is tied to the host. */
  ghost predicate Entries(rs: seq<Region>, s: State) {
    forall c, l :: l in Lines(s, c) ==> TagOf(l) in X.Tlb(s.x, c) && EntryOk(rs, LinkOf(s), l.e)
  }

  ghost predicate Inv(rs: seq<Region>, s: State) { LinkOk(rs, LinkOf(s)) && F.FlushInv(s.x) && Entries(rs, s) }

  // ---- every step ----

  lemma MmuStep(rs: seq<Region>, s: State, m: N.Step, s': State)
    requires Regular(rs) && Solid(rs) && Inv(rs, s) && Next(rs, s, Mmu(m), s')
    ensures Inv(rs, s')
  {
    hide Regular, Solid, Moves, LinkOk, F.FlushInv, X.Tlb, EntryOk;
    MoveLink(rs, LinkOf(s), m, LinkOf(s'));
    forall c, l | l in Lines(s', c) ensures TagOf(l) in X.Tlb(s'.x, c) && EntryOk(rs, LinkOf(s'), l.e) {
      assert l in Lines(s, c) && s'.x == s.x;
      MoveEntry(rs, LinkOf(s), m, LinkOf(s'), l.e);
    }
  }

  lemma FlushersKept(x: X.State, c: X.Step, f: nat)
    requires X.Enabled(x, c) && f in x.fs
    ensures var x' := X.Apply(x, c);
      && f in x'.fs && x'.fs[f].epoch == x.fs[f].epoch && (x.fs[f].phase.Done? ==> x'.fs[f].phase.Done?)
  {
    hide X.Can, X.After, X.CpusAfter, X.CacheAfter, X.TlbAfter, X.IrqsOn, X.Unlocked, X.Free, V.Kicks;
  }

  lemma ClockKept(x: X.State, c: X.Step)
    requires X.Enabled(x, c)
    ensures X.Apply(x, c).now >= x.now
  {
    hide X.Can, X.After, X.CpusAfter, X.CacheAfter, X.TlbAfter, X.IrqsOn, X.Unlocked, X.Free, V.Kicks;
  }

  lemma CpuLater(s: State, c: X.Step, s': State)
    requires X.Enabled(s.x, c) && s'.x == X.Apply(s.x, c) && s'.n == s.n
    ensures Later(LinkOf(s), LinkOf(s').(flushOf := s.flushOf))
  {
    hide X.Enabled, X.Apply;
    ClockKept(s.x, c);
    forall f | f in s.x.fs
      ensures f in s'.x.fs && s'.x.fs[f].epoch == s.x.fs[f].epoch && (s.x.fs[f].phase.Done? ==> s'.x.fs[f].phase.Done?)
    {
      FlushersKept(s.x, c, f);
    }
  }

  lemma CpuStep(rs: seq<Region>, s: State, c: X.Step, s': State)
    requires Inv(rs, s) && Next(rs, s, Cpu(c), s')
    ensures Inv(rs, s')
  {
    hide LinkOk, F.FlushInv, X.Tlb, X.Apply, X.Enabled, EntryOk, Later;
    F.AnyFlushStep(s.x, c);
    CpuLater(s, c, s');
    LaterLink(rs, LinkOf(s), LinkOf(s'));
    forall cpu, l | l in Lines(s', cpu) ensures TagOf(l) in X.Tlb(s'.x, cpu) && EntryOk(rs, LinkOf(s'), l.e) {
      assert l in Lines(s, cpu);
      LaterEntry(rs, LinkOf(s), LinkOf(s'), l.e);
    }
  }

  lemma FillTags(x: X.State, v: nat, cpu: int)
    requires X.Enabled(x, X.Thread(v, X.Fill))
    ensures v in x.vs
    ensures var x', t := X.Apply(x, X.Thread(v, X.Fill)), x.vs[v];
      && x'.now == x.now && x'.fs == x.fs && X.Tlb(x, cpu) <= X.Tlb(x', cpu)
      && X.Entry(t.seen.asid, v, x.now) in X.Tlb(x', t.x.cpu)
  {
  }

  lemma FillStep(rs: seq<Region>, s: State, v: nat, g: nat, s': State)
    requires Inv(rs, s) && Next(rs, s, Fill(v, g), s')
    ensures Inv(rs, s')
  {
    hide LinkOk, F.FlushInv, X.Tlb, X.Apply, X.Enabled, EntryOk, FlatWalk;
    FillTags(s.x, v, 0);
    F.AnyFlushStep(s.x, X.Thread(v, X.Fill));
    assert LinkOf(s') == LinkOf(s);
    NewEntry(rs, LinkOf(s), g);
    forall cpu, l | l in Lines(s', cpu) ensures TagOf(l) in X.Tlb(s'.x, cpu) && EntryOk(rs, LinkOf(s'), l.e) {
      FillTags(s.x, v, cpu);
      var t := s.x.vs[v];
      assert l in Lines(s, cpu)
             || (cpu == t.x.cpu && l == Line(t.seen.asid, v, Cached(s.x.now, g, FlatWalk(s.n.f, g))));
    }
  }

  lemma Started(x: X.State, f: nat, me: int, nomask: bool)
    requires X.Enabled(x, X.FlushStart(f, me, nomask))
    ensures var x' := X.Apply(x, X.FlushStart(f, me, nomask));
      f in x'.fs && x'.fs[f].epoch == x.now + 1 && x'.tlb == x.tlb
  {
    hide X.Free;
  }

  lemma FlushStep(rs: seq<Region>, s: State, id: nat, f: nat, me: int, nomask: bool, s': State)
    requires Inv(rs, s) && Next(rs, s, Flush(id, f, me, nomask), s')
    ensures Inv(rs, s')
  {
    hide LinkOk, F.FlushInv, X.Apply, X.Enabled, EntryOk, Later;
    var c := X.FlushStart(f, me, nomask);
    F.AnyFlushStep(s.x, c);
    Started(s.x, f, me, nomask);
    CpuLater(s, c, s');
    BeginLink(rs, LinkOf(s), id, f, LinkOf(s'));
    forall cpu, l | l in Lines(s', cpu) ensures TagOf(l) in X.Tlb(s'.x, cpu) && EntryOk(rs, LinkOf(s'), l.e) {
      assert l in Lines(s, cpu);
      BeginEntry(rs, LinkOf(s), id, f, LinkOf(s'), l.e);
    }
  }

  // ---- whole runs ----

  ghost predicate IsRun(rs: seq<Region>, states: seq<State>, steps: seq<Step>) {
    && |states| == |steps| + 1 && Init(states[0])
    && forall i :: 0 <= i < |steps| ==> Next(rs, states[i], steps[i], states[i + 1])
  }

  lemma {:induction false} RunInv(rs: seq<Region>, states: seq<State>, steps: seq<Step>, n: nat)
    requires Regular(rs) && Solid(rs) && IsRun(rs, states, steps) && n < |states|
    ensures Inv(rs, states[n])
  {
    hide Regular, Solid, Next, N.Inv, F.FlushInv;
    if n == 0 {
      N.InitInv(rs, states[0].n);
      F.FlushRunInv([states[0].x], [], 0);
    } else {
      RunInv(rs, states, steps, n - 1);
      match steps[n - 1]
      case Mmu(m) => MmuStep(rs, states[n - 1], m, states[n]);
      case Cpu(c) => CpuStep(rs, states[n - 1], c, states[n]);
      case Fill(v, g) => FillStep(rs, states[n - 1], v, g, states[n]);
      case Flush(id, f, me, nomask) => FlushStep(rs, states[n - 1], id, f, me, nomask, states[n]);
    }
  }

  /** Whenever a vcpu executes guest code, every translation it can hit is its own and gives the frame that the host
      page table holds at that moment, for writing only where the host may write, and none is for a page of an
      invalidation whose start callback has returned. */
  lemma GuestsSeeTheHost(rs: seq<Region>, states: seq<State>, steps: seq<Step>, n: nat, v: nat, l: Line)
    requires Regular(rs) && Solid(rs) && IsRun(rs, states, steps) && n < |states|
    requires v in states[n].x.vs && states[n].x.vs[v].pc.Guest?
    requires l in Lines(states[n], states[n].x.vs[v].x.cpu) && l.asid == states[n].x.vs[v].seen.asid
    ensures l.owner == v && Agrees(rs, states[n].n.host, l.e)
    ensures forall id :: Returned(LinkOf(states[n]), id) && id in states[n].n.open ==>
      !SmallIn(rs, l.e.g, states[n].n.open[id].lo, states[n].n.open[id].hi)
  {
    hide Regular, Solid, Next, LinkOk, HostPage, Agrees, SmallIn, F.FlushInv;
    RunInv(rs, states, steps, n);
    var s := states[n];
    F.OwnHit(s.x, v, TagOf(l));
    forall f | f in s.x.fs && s.x.fs[f].phase.Done? ensures l.e.stamp >= s.x.fs[f].epoch {
      F.FreshHit(s.x, v, f, TagOf(l));
    }
    Seen(rs, LinkOf(s), l.e);
  }
}
