// Table pages that ept_clear_dir gives back while CPUs may still hold the directory entry that pointed at them
// (ept.c:318-338, ept.c:811-857).  The page leaves the tree before the flush of the same start callback.  Until that
// flush has returned the notifier count keeps every fault from making a table (ept.c:570, ept.c:583), so that the page
// cannot come back into the tree while a running guest could still walk it through the old entry.

module UpperCache {
  import opened EptTree
  import X = VmxEntry
  import S = Shootdown
  import E = EndToEnd

  /** A cached directory entry: when it was filled, for which table of the tree, and the page it points at. */
  datatype Upper = Upper(stamp: nat, key: Key, page: nat)

  /** A table that invalidation id gave back, and when. */
  datatype Given = Given(id: nat, key: Key, page: nat, at: nat)

  /** A start callback that clears under the lock, or has reached its flush f. */
  datatype Phase = Clearing | Flushing(f: nat)

  /** open holds the invalidations that mmu_notifier_count counts, tables the pages of the tree below the root. */
  datatype State = State(
    x: X.State, open: map<nat, Phase>, tables: map<Key, nat>, cached: map<int, set<Upper>>, given: set<Given>)

  function Cached(s: State, c: int): set<Upper> { if c in s.cached then s.cached[c] else {} }

  datatype Step =
    | Cpu(c: X.Step)                                          // vcpus, and flushes of other callbacks
    | Walk(v: nat, key: Key)                                  // a guest's walk goes through the entry of a table
    | Make(key: Key, page: nat)                               // ept_lookup_gpa adds a table, after the retry test
    | Begin(id: nat)                                          // invalidate_range_start raises the count
    | GiveBack(id: nat, b: nat)                               // its ept_clear_dir puts the 4K table of block b
    | Flush(id: nat, f: nat, me: int, nomask: bool)           // its ept_flush_remote_tlbs begins
    | End(id: nat)                                            // invalidate_range_end, after the start has returned

  /** The start callback of invalidation id has returned. */
  predicate Returned(s: State, id: nat) {
    id in s.open && s.open[id].Flushing? && s.open[id].f in s.x.fs && s.x.fs[s.open[id].f].phase.Done?
  }

  /** An allocator may hand out any page that is not in the tree, one just given back included. */
  predicate Enabled(s: State, step: Step) {
    match step
    case Cpu(c) => !(c.Thread? && c.a.Fill?) && X.Enabled(s.x, c)
    case Walk(v, key) => X.Enabled(s.x, X.Thread(v, X.Fill)) && key in s.tables
    case Make(key, page) => s.open == map[] && key !in s.tables && page !in s.tables.Values
    case Begin(id) => id !in s.open
    case GiveBack(id, b) => id in s.open && s.open[id].Clearing? && Key(0, b) in s.tables
    case Flush(id, f, me, nomask) => id in s.open && s.open[id].Clearing? && X.Enabled(s.x, X.FlushStart(f, me, nomask))
    case End(id) => Returned(s, id)
  }

  function Apply(s: State, step: Step): State
    requires Enabled(s, step)
  {
    match step
    case Cpu(c) => s.(x := X.Apply(s.x, c), cached := s.cached - {E.Drops(s.x, c)})
    case Walk(v, key) =>
      var c := s.x.vs[v].on;
      s.(x := X.Apply(s.x, X.Thread(v, X.Fill)),
         cached := s.cached[c := Cached(s, c) + {Upper(s.x.now, key, s.tables[key])}])
    case Make(key, page) => s.(tables := s.tables[key := page])
    case Begin(id) => s.(open := s.open[id := Clearing])
    case GiveBack(id, b) =>
      s.(tables := s.tables - {Key(0, b)}, given := s.given + {Given(id, Key(0, b), s.tables[Key(0, b)], s.x.now)})
    case Flush(id, f, me, nomask) =>
      s.(x := X.Apply(s.x, X.FlushStart(f, me, nomask)), open := s.open[id := Flushing(f)])
    case End(id) => s.(open := s.open - {id})
  }

  predicate Init(s: State) {
    X.Init(s.x) && s.open == map[] && s.tables == map[] && s.cached == map[] && s.given == {}
  }

  // ---- what holds between steps ----

  /** The entry is the table's own now. */
  predicate IsCurrent(s: State, u: Upper) { u.key in s.tables && s.tables[u.key] == u.page }

  /** The table it points at was given back since it was filled. */
  predicate WasGiven(s: State, u: Upper) {
    exists d :: d in s.given && d.key == u.key && d.page == u.page && d.at >= u.stamp
  }

  predicate UpperOk(s: State, c: int, u: Upper) {
    u.stamp in X.Stamps(s.x, c) && u.stamp <= s.x.now && (IsCurrent(s, u) || WasGiven(s, u))
  }

  /** A flush that began after the time t has returned. */
  predicate FlushedSince(x: X.State, t: nat) { exists f :: f in x.fs && x.fs[f].phase.Done? && x.fs[f].epoch > t }

  /** The flush that covers what was given back has still to begin, or has begun since. */
  predicate FlushAhead(s: State, d: Given) {
    && d.id in s.open
    && (s.open[d.id].Flushing? ==> s.open[d.id].f in s.x.fs && s.x.fs[s.open[d.id].f].epoch > d.at)
  }

  /** A page given back is covered by a flush, and is back in the tree only once that has returned. */
  predicate GivenOk(s: State, d: Given) {
    && d.at <= s.x.now
    && (FlushedSince(s.x, d.at) || (FlushAhead(s, d) && d.page !in s.tables.Values))
  }

  predicate Injective(tables: map<Key, nat>) {
    forall k, l :: k in tables && l in tables && tables[k] == tables[l] ==> k == l
  }

  ghost predicate Uppers(s: State) { forall c, u :: u in Cached(s, c) ==> UpperOk(s, c, u) }

  predicate Givens(s: State) { forall d :: d in s.given ==> GivenOk(s, d) }

  ghost predicate Inv(s: State) { S.Inv(s.x) && Injective(s.tables) && Uppers(s) && Givens(s) }

  // ---- steps of vcpus and flushes ----

  lemma StillFlushed(x: X.State, c: X.Step, t: nat)
    requires X.Enabled(x, c) && FlushedSince(x, t)
    ensures FlushedSince(X.Apply(x, c), t)
  {
    hide X.Enabled, X.Apply;
    var f :| f in x.fs && x.fs[f].phase.Done? && x.fs[f].epoch > t;
    E.FlushersKept(x, c, f);
  }

  /** What is known of a page given back outlasts a step of the CPUs. */
  lemma GivenKept(s: State, c: X.Step, s': State, d: Given)
    requires X.Enabled(s.x, c) && s'.x == X.Apply(s.x, c) && s'.open == s.open && s'.tables == s.tables && GivenOk(s, d)
    ensures GivenOk(s', d)
  {
    hide X.Enabled, X.Apply, FlushedSince;
    E.ClockKept(s.x, c);
    if FlushedSince(s.x, d.at) {
      StillFlushed(s.x, c, d.at);
    } else if s.open[d.id].Flushing? {
      E.FlushersKept(s.x, c, s.open[d.id].f);
    }
  }

  lemma UpperKept(s: State, s': State, c: int, u: Upper)
    requires UpperOk(s, c, u) && u.stamp in X.Stamps(s'.x, c) && s.x.now <= s'.x.now
    requires IsCurrent(s, u) ==> IsCurrent(s', u) || WasGiven(s', u)
    requires s.given <= s'.given
    ensures UpperOk(s', c, u)
  {
    hide X.Stamps;
    if WasGiven(s, u) {
      var d :| d in s.given && d.key == u.key && d.page == u.page && d.at >= u.stamp;
      assert d in s'.given;
    }
  }

  lemma CpuStep(s: State, c: X.Step)
    requires Inv(s) && Enabled(s, Cpu(c))
    ensures Inv(Apply(s, Cpu(c)))
  {
    hide S.Inv, X.Stamps, X.Apply, X.Enabled, E.Drops, GivenOk, UpperOk, WasGiven, Injective;
    var s' := Apply(s, Cpu(c));
    S.AnyStep(s.x, c);
    E.ClockKept(s.x, c);
    forall cpu, u | u in Cached(s', cpu) ensures UpperOk(s', cpu, u) {
      assert u in Cached(s, cpu);
      E.StampsKept(s.x, c, cpu);
      UpperStamp(s, cpu, u);
      UpperKept(s, s', cpu, u);
    }
    forall d | d in s'.given ensures GivenOk(s', d) { GivenKept(s, c, s', d); }
  }

  lemma UpperStamp(s: State, c: int, u: Upper)
    requires UpperOk(s, c, u)
    ensures u.stamp in X.Stamps(s.x, c)
  {
  }

  lemma WalkStep(s: State, v: nat, key: Key)
    requires Inv(s) && Enabled(s, Walk(v, key))
    ensures Inv(Apply(s, Walk(v, key)))
  {
    hide S.Inv, X.Stamps, X.Apply, X.Enabled, GivenOk, WasGiven, Injective;
    E.Known(s.x, v);
    var s' := Apply(s, Walk(v, key));
    S.AnyStep(s.x, X.Thread(v, X.Fill));
    forall cpu, u | u in Cached(s', cpu) ensures UpperOk(s', cpu, u) {
      E.FillStamps(s.x, v, cpu);
      if u in Cached(s, cpu) { UpperKept(s, s', cpu, u); }
    }
    forall d | d in s'.given ensures GivenOk(s', d) { GivenKept(s, X.Thread(v, X.Fill), s', d); }
  }

  lemma FlushStep(s: State, id: nat, f: nat, me: int, nomask: bool)
    requires Inv(s) && Enabled(s, Flush(id, f, me, nomask))
    ensures Inv(Apply(s, Flush(id, f, me, nomask)))
  {
    hide S.Inv, X.Stamps, X.Apply, X.Enabled, UpperOk, WasGiven, Injective, FlushedSince;
    var s', c := Apply(s, Flush(id, f, me, nomask)), X.FlushStart(f, me, nomask);
    S.AnyStep(s.x, c);
    E.ClockKept(s.x, c);
    E.Started(s.x, f, me, nomask);
    forall cpu, u | u in Cached(s', cpu) ensures UpperOk(s', cpu, u) {
      assert u in Cached(s, cpu);
      E.StampsKept(s.x, c, cpu);
      UpperStamp(s, cpu, u);
      UpperKept(s, s', cpu, u);
    }
    forall d | d in s'.given ensures GivenOk(s', d) {
      assert GivenOk(s, d);
      if FlushedSince(s.x, d.at) {
        StillFlushed(s.x, c, d.at);
      } else if d.id != id && s.open[d.id].Flushing? {
        E.FlushersKept(s.x, c, s.open[d.id].f);
      }
    }
  }

  // ---- steps of the table ----

  /** With no invalidation open every page given back is covered by a flush that has returned. */
  lemma MakeStep(s: State, key: Key, page: nat)
    requires Inv(s) && Enabled(s, Make(key, page))
    ensures Inv(Apply(s, Make(key, page)))
  {
    hide S.Inv, X.Stamps, WasGiven, FlushedSince;
    var s' := Apply(s, Make(key, page));
    forall cpu, u | u in Cached(s', cpu) ensures UpperOk(s', cpu, u) {
      assert u in Cached(s, cpu) && UpperOk(s, cpu, u);
      UpperKept(s, s', cpu, u);
    }
    forall d | d in s'.given ensures GivenOk(s', d) { assert GivenOk(s, d); }
  }

  lemma GiveBackStep(s: State, id: nat, b: nat)
    requires Inv(s) && Enabled(s, GiveBack(id, b))
    ensures Inv(Apply(s, GiveBack(id, b)))
  {
    hide S.Inv, X.Stamps, FlushedSince;
    var s', page := Apply(s, GiveBack(id, b)), s.tables[Key(0, b)];
    assert page !in s'.tables.Values;
    forall cpu, u | u in Cached(s', cpu) ensures UpperOk(s', cpu, u) {
      assert u in Cached(s, cpu) && UpperOk(s, cpu, u);
      if IsCurrent(s, u) && u.key == Key(0, b) { assert Given(id, u.key, u.page, s.x.now) in s'.given; }
      UpperKept(s, s', cpu, u);
    }
    forall d | d in s'.given ensures GivenOk(s', d) { if d in s.given { assert GivenOk(s, d); } }
  }

  lemma OpenStep(s: State, step: Step)
    requires Inv(s) && Enabled(s, step) && (step.Begin? || step.End?)
    ensures Inv(Apply(s, step))
  {
    hide S.Inv, X.Stamps, WasGiven;
    var s' := Apply(s, step);
    forall cpu, u | u in Cached(s', cpu) ensures UpperOk(s', cpu, u) {
      assert u in Cached(s, cpu) && UpperOk(s, cpu, u);
      UpperKept(s, s', cpu, u);
    }
    forall d | d in s'.given ensures GivenOk(s', d) { assert GivenOk(s, d); }
  }

  // ---- whole runs ----

  ghost predicate IsRun(states: seq<State>, steps: seq<Step>) {
    && |states| == |steps| + 1 && Init(states[0])
    && forall i :: 0 <= i < |steps| ==> Enabled(states[i], steps[i]) && states[i + 1] == Apply(states[i], steps[i])
  }

  lemma {:induction false} RunInv(states: seq<State>, steps: seq<Step>, n: nat)
    requires IsRun(states, steps) && n < |states|
    ensures Inv(states[n])
  {
    hide S.Inv, UpperOk, Enabled, Apply;
    if n == 0 {
      S.RunInv([states[0].x], [], 0);
    } else {
      RunInv(states, steps, n - 1);
      match steps[n - 1]
      case Cpu(c) => CpuStep(states[n - 1], c);
      case Walk(v, key) => WalkStep(states[n - 1], v, key);
      case Make(key, page) => MakeStep(states[n - 1], key, page);
      case GiveBack(id, b) => GiveBackStep(states[n - 1], id, b);
      case Flush(id, f, me, nomask) => FlushStep(states[n - 1], id, f, me, nomask);
      case _ => OpenStep(states[n - 1], steps[n - 1]);
    }
  }

  /** Whenever a vcpu executes guest code, a directory entry cached on its CPU is the tree's own, or the page it points
      at is in no table of the tree, and the start callback that gave it back has not returned. */
  lemma WalksOwnTables(states: seq<State>, steps: seq<Step>, n: nat, v: nat, u: Upper)
    requires IsRun(states, steps) && n < |states|
    requires v in states[n].x.vs && states[n].x.vs[v].pc.Guest? && u in Cached(states[n], states[n].x.vs[v].on)
    ensures var s := states[n];
      IsCurrent(s, u) ||
      (u.page !in s.tables.Values
       && exists d :: d in s.given && d.key == u.key && d.page == u.page && d.at >= u.stamp
                      && d.id in s.open && !Returned(s, d.id))
  {
    hide S.Inv, Enabled, Apply;
    RunInv(states, steps, n);
    var s := states[n];
    assert UpperOk(s, s.x.vs[v].on, u);
    if !IsCurrent(s, u) {
      var d :| d in s.given && d.key == u.key && d.page == u.page && d.at >= u.stamp;
      assert !FlushedSince(s.x, d.at) by {
        forall f | f in s.x.fs && s.x.fs[f].phase.Done? ensures s.x.fs[f].epoch <= d.at { E.CleanInGuest(s.x, v, f); }
      }
      assert GivenOk(s, d);
      assert !Returned(s, d.id);
    }
  }

  /** So when a page comes into the tree, whatever it was before, no running guest has an entry that points at it. */
  lemma NewTableIsUnknown(states: seq<State>, steps: seq<Step>, n: nat, v: nat, u: Upper)
    requires IsRun(states, steps) && n < |steps| && steps[n].Make?
    requires v in states[n].x.vs && states[n].x.vs[v].pc.Guest? && u in Cached(states[n], states[n].x.vs[v].on)
    ensures IsCurrent(states[n], u) && u.page != steps[n].page
  {
    hide Apply, Init;
    assert Enabled(states[n], steps[n]);
    WalksOwnTables(states, steps, n, v, u);
  }
}
