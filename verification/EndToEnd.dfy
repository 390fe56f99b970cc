// The notifier protocol and the remote flush together on VMX: translations cached by running guests always agree with
// the host page table, although the host takes pages back while guests run.

module EndToEnd {
  import opened Regions
  import opened EptFlat
  import opened EptWalk
  import opened EptRun
  import opened CacheLink
  import N = Notifier
  import X = VmxEntry
  import S = Shootdown

  /** filled holds the translations each CPU has cached. */
  datatype State = State(n: N.State, x: X.State, filled: map<int, set<Entry>>, flushOf: map<nat, nat>)

  function LinkOf(s: State): Link { Link(s.n, s.x.fs, s.x.now, s.flushOf) }

  function Filled(s: State, c: int): set<Entry> { if c in s.filled then s.filled[c] else {} }

  datatype Step =
    | Mmu(m: N.Step)                                          // the notifier protocol
    | Cpu(c: X.Step)                                          // vcpus and flushes
    | Fill(v: nat, g: nat)                                    // a guest's walk ends in a leaf
    | Flush(id: nat, f: nat, me: int, nomask: bool)           // the flush of a start callback begins

  /** The CPU whose cached translations the step throws away, -1 if none. */
  function Drops(x: X.State, c: X.Step): int {
    if c.Thread? && c.v in x.vs && (c.a.Flush? || c.a.Destroy?) then x.vs[c.v].on else -1
  }

  ghost predicate Next(rs: seq<Region>, s: State, step: Step, s': State) {
    match step
    case Mmu(m) => Moves(rs, LinkOf(s), m, LinkOf(s')) && s' == s.(n := s'.n, flushOf := s'.flushOf)
    case Cpu(c) =>
      && !(c.Thread? && c.a.Fill?) && X.Enabled(s.x, c)
      && s' == s.(x := X.Apply(s.x, c), filled := s.filled - {Drops(s.x, c)})
    case Fill(v, g) =>
      && X.Enabled(s.x, X.Thread(v, X.Fill)) && FlatWalk(s.n.f, g).Hit?
      && var c := s.x.vs[v].on;
         s' == s.(x := X.Apply(s.x, X.Thread(v, X.Fill)),
                  filled := s.filled[c := Filled(s, c) + {Cached(s.x.now, g, FlatWalk(s.n.f, g))}])
    case Flush(id, f, me, nomask) =>
      && id in s.n.open && s.n.open[id].swept && id !in s.flushOf && X.Enabled(s.x, X.FlushStart(f, me, nomask))
      && s' == s.(x := X.Apply(s.x, X.FlushStart(f, me, nomask)), flushOf := s.flushOf[id := f])
  }

  ghost predicate Init(s: State) { N.Init(s.n) && X.Init(s.x) && s.filled == map[] && s.flushOf == map[] }

  /** Every cached translation is one the CPU holds, and is tied to the host. */
  ghost predicate Entries(rs: seq<Region>, s: State) {
    forall c, e :: e in Filled(s, c) ==> e.stamp in X.Stamps(s.x, c) && EntryOk(rs, LinkOf(s), e)
  }

  ghost predicate Inv(rs: seq<Region>, s: State) { LinkOk(rs, LinkOf(s)) && S.Inv(s.x) && Entries(rs, s) }

  // ---- every step ----

  lemma MmuStep(rs: seq<Region>, s: State, m: N.Step, s': State)
    requires Regular(rs) && Solid(rs) && Inv(rs, s) && Next(rs, s, Mmu(m), s')
    ensures Inv(rs, s')
  {
    hide Regular, Solid, Moves, LinkOk, S.Inv, X.Stamps, EntryOk;
    MoveLink(rs, LinkOf(s), m, LinkOf(s'));
    forall c, e | e in Filled(s', c) ensures e.stamp in X.Stamps(s'.x, c) && EntryOk(rs, LinkOf(s'), e) {
      assert e in Filled(s, c) && s'.x == s.x;
      MoveEntry(rs, LinkOf(s), m, LinkOf(s'), e);
    }
  }

  lemma StampsKept(x: X.State, c: X.Step, cpu: int)
    requires X.Enabled(x, c) && !(c.Thread? && c.a.Fill?) && (c.Thread? ==> cpu != Drops(x, c))
    ensures X.Stamps(X.Apply(x, c), cpu) == X.Stamps(x, cpu)
  {
    hide X.Can, X.After, X.LocalAfter, X.CurrentAfter;
  }

  lemma FlushersKept(x: X.State, c: X.Step, f: nat)
    requires X.Enabled(x, c) && f in x.fs
    ensures var x' := X.Apply(x, c);
      f in x'.fs && x'.fs[f].epoch == x.fs[f].epoch && (x.fs[f].phase.Done? ==> x'.fs[f].phase.Done?)
  {
    hide X.Can, X.After, X.LocalAfter, X.CurrentAfter, X.TlbAfter;
  }

  lemma ClockKept(x: X.State, c: X.Step)
    requires X.Enabled(x, c)
    ensures X.Apply(x, c).now >= x.now
  {
    hide X.Can, X.After, X.LocalAfter, X.CurrentAfter, X.TlbAfter;
  }

  lemma CpuLater(s: State, c: X.Step, s': State)
    requires X.Enabled(s.x, c) && s'.x == X.Apply(s.x, c) && s'.n == s.n
    ensures Later(LinkOf(s), LinkOf(s').(flushOf := s.flushOf))
  {
    hide X.Enabled, X.Apply;
    ClockKept(s.x, c);
    forall f | f in s.x.fs
      ensures f in s'.x.fs && s'.x.fs[f].epoch == s.x.fs[f].epoch && (s.x.fs[f].phase.Done? ==> s'.x.fs[f].phase.Done?)
    {
      FlushersKept(s.x, c, f);
    }
  }

  lemma CpuStep(rs: seq<Region>, s: State, c: X.Step, s': State)
    requires Inv(rs, s) && Next(rs, s, Cpu(c), s')
    ensures Inv(rs, s')
  {
    hide LinkOk, S.Inv, X.Stamps, X.Apply, X.Enabled, Drops, EntryOk, Later;
    S.AnyStep(s.x, c);
    CpuLater(s, c, s');
    LaterLink(rs, LinkOf(s), LinkOf(s'));
    forall cpu, e | e in Filled(s', cpu) ensures e.stamp in X.Stamps(s'.x, cpu) && EntryOk(rs, LinkOf(s'), e) {
      assert e in Filled(s, cpu);
      StampsKept(s.x, c, cpu);
      LaterEntry(rs, LinkOf(s), LinkOf(s'), e);
    }
  }

  /** A CPU loses its translations only by a flush or a destroy on it. */
  lemma LostOnlyByFlush(rs: seq<Region>, s: State, step: Step, s': State, cpu: int, e: Entry)
    requires cpu >= 0 && Next(rs, s, step, s') && e in Filled(s, cpu) && e !in Filled(s', cpu)
    ensures step.Cpu? && step.c.Thread? && step.c.v in s.x.vs && s.x.vs[step.c.v].on == cpu
    ensures step.c.a.Flush? || step.c.a.Destroy?
  {
    hide Moves, X.Apply, X.Enabled, FlatWalk, N.FrameOf, N.Writable;
  }

  lemma Known(x: X.State, v: nat)
    requires X.Enabled(x, X.Thread(v, X.Fill))
    ensures v in x.vs
  {
  }

  lemma FillStamps(x: X.State, v: nat, cpu: int)
    requires X.Enabled(x, X.Thread(v, X.Fill))
    ensures var x' := X.Apply(x, X.Thread(v, X.Fill));
      && x'.now == x.now && X.Stamps(x, cpu) <= X.Stamps(x', cpu) && x.now in X.Stamps(x', x.vs[v].on)
      && x'.fs == x.fs
  {
  }

  lemma FillStep(rs: seq<Region>, s: State, v: nat, g: nat, s': State)
    requires Inv(rs, s) && Next(rs, s, Fill(v, g), s')
    ensures Inv(rs, s')
  {
    hide LinkOk, S.Inv, X.Stamps, X.Apply, X.Enabled, EntryOk, FlatWalk;
    Known(s.x, v);
    S.AnyStep(s.x, X.Thread(v, X.Fill));
    FillStamps(s.x, v, s.x.vs[v].on);
    assert LinkOf(s') == LinkOf(s);
    NewEntry(rs, LinkOf(s), g);
    forall cpu, e | e in Filled(s', cpu) ensures e.stamp in X.Stamps(s'.x, cpu) && EntryOk(rs, LinkOf(s'), e) {
      FillStamps(s.x, v, cpu);
      assert e in Filled(s, cpu) || (cpu == s.x.vs[v].on && e == Cached(s.x.now, g, FlatWalk(s.n.f, g)));
    }
  }

  lemma Started(x: X.State, f: nat, me: int, nomask: bool)
    requires X.Enabled(x, X.FlushStart(f, me, nomask))
    ensures var x' := X.Apply(x, X.FlushStart(f, me, nomask)); f in x'.fs && x'.fs[f].epoch == x.now + 1
  {
  }

  /** The flush of a start callback is later than every translation cached when it begins. */
  lemma FlushStep(rs: seq<Region>, s: State, id: nat, f: nat, me: int, nomask: bool, s': State)
    requires Inv(rs, s) && Next(rs, s, Flush(id, f, me, nomask), s')
    ensures Inv(rs, s')
  {
    hide LinkOk, S.Inv, X.Stamps, X.Apply, X.Enabled, EntryOk, Later;
    var c := X.FlushStart(f, me, nomask);
    S.AnyStep(s.x, c);
    Started(s.x, f, me, nomask);
    CpuLater(s, c, s');
    BeginLink(rs, LinkOf(s), id, f, LinkOf(s'));
    forall cpu, e | e in Filled(s', cpu) ensures e.stamp in X.Stamps(s'.x, cpu) && EntryOk(rs, LinkOf(s'), e) {
      assert e in Filled(s, cpu);
      StampsKept(s.x, c, cpu);
      BeginEntry(rs, LinkOf(s), id, f, LinkOf(s'), e);
    }
  }

  // ---- whole runs ----

  ghost predicate IsRun(rs: seq<Region>, states: seq<State>, steps: seq<Step>) {
    && |states| == |steps| + 1 && Init(states[0])
    && forall i :: 0 <= i < |steps| ==> Next(rs, states[i], steps[i], states[i + 1])
  }

  lemma {:induction false} RunInv(rs: seq<Region>, states: seq<State>, steps: seq<Step>, n: nat)
    requires Regular(rs) && Solid(rs) && IsRun(rs, states, steps) && n < |states|
    ensures Inv(rs, states[n])
  {
    hide Regular, Solid, Next, N.Inv, S.Inv;
    if n == 0 {
      N.InitInv(rs, states[0].n);
      S.RunInv([states[0].x], [], 0);
    } else {
      RunInv(rs, states, steps, n - 1);
      match steps[n - 1]
      case Mmu(m) => MmuStep(rs, states[n - 1], m, states[n]);
      case Cpu(c) => CpuStep(rs, states[n - 1], c, states[n]);
      case Fill(v, g) => FillStep(rs, states[n - 1], v, g, states[n]);
      case Flush(id, f, me, nomask) => FlushStep(rs, states[n - 1], id, f, me, nomask, states[n]);
    }
  }

  /** Whenever a vcpu executes guest code, every translation cached on its CPU gives the frame that the host page
      table holds at that moment, for writing only where the host may write, and none is for a page of an invalidation
      whose start callback has returned. */
  lemma GuestsSeeTheHost(rs: seq<Region>, states: seq<State>, steps: seq<Step>, n: nat, v: nat, e: Entry)
    requires Regular(rs) && Solid(rs) && IsRun(rs, states, steps) && n < |states|
    requires v in states[n].x.vs && states[n].x.vs[v].pc.Guest? && e in Filled(states[n], states[n].x.vs[v].on)
    ensures Agrees(rs, states[n].n.host, e)
    ensures forall id :: Returned(LinkOf(states[n]), id) && id in states[n].n.open ==>
      !SmallIn(rs, e.g, states[n].n.open[id].lo, states[n].n.open[id].hi)
  {
    hide Regular, Solid, Next, LinkOk, HostPage, Agrees, SmallIn;
    RunInv(rs, states, steps, n);
    var s := states[n];
    forall f | f in s.x.fs && s.x.fs[f].phase.Done? ensures e.stamp >= s.x.fs[f].epoch {
      CleanInGuest(s.x, v, f);
    }
    Seen(rs, LinkOf(s), e);
  }

  lemma CleanInGuest(x: X.State, v: nat, f: nat)
    requires S.Inv(x) && v in x.vs && x.vs[v].pc.Guest? && f in x.fs && x.fs[f].phase.Done?
    ensures S.Clean(x, x.vs[v].on, x.fs[f].epoch)
  {
    assert S.PairOk(x, x.fs[f], v) && S.FlusherOk(x, x.fs[f]);
    S.AreOk(x, v);
  }
}
