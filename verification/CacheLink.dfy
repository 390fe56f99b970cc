// What ties a cached translation to the host page table while invalidations run: the part of the argument that the two
// engines share (ept.c:811-857, npt.c:843-904).  A translation agrees with the host or is older than a flush that has
// returned, and none is filled in for a page under invalidation once its flush has begun.

module CacheLink {
  import opened Regions
  import opened EptFlat
  import opened EptWalk
  import opened EptRun
  import N = Notifier
  import V = VmxEntry

  /** A cached translation: when it was filled, for which guest page, to which frame, and whether for writing. */
  datatype Entry = Entry(stamp: nat, g: nat, frame: nat, w: bool)

  /** The translation that a walk of page g caches when it ends in this leaf. */
  function Cached(now: nat, g: nat, hit: Hit): Entry
    requires hit.Hit?
  {
    Entry(now, g, N.FrameOf(hit, g), N.Writable(hit.entry))
  }

  /** The notifier protocol, the flushes and the clock.  flushOf names, for an invalidation whose start callback has
      reached the flush, that flush. */
  datatype Link = Link(n: N.State, fs: map<nat, V.Flusher>, now: nat, flushOf: map<nat, nat>)

  /** The start callback of invalidation id has returned. */
  predicate Returned(k: Link, id: nat) { id in k.flushOf && k.flushOf[id] in k.fs && k.fs[k.flushOf[id]].phase.Done? }

  /** A step of the protocol.  The host replaces or removes a page, and ends the invalidation, only after the start
      callback has returned. */
  ghost predicate Moves(rs: seq<Region>, k: Link, m: N.Step, k': Link) {
    && N.Next(rs, k.n, m, k'.n)
    && k' == k.(n := k'.n, flushOf := if m.End? then k.flushOf - {m.id} else k.flushOf)
    && (m.HostChange? ==> exists id :: Returned(k, id) && id in k.n.open && N.InSpan(k.n.open[id], m.h))
    && (m.End? ==> Returned(k, m.id))
  }

  /** Time goes on and flushes with it. */
  predicate Later(k: Link, k': Link) {
    && k'.n == k.n && k.now <= k'.now && k'.flushOf == k.flushOf
    && forall f :: f in k.fs ==>
         f in k'.fs && k'.fs[f].epoch == k.fs[f].epoch && (k.fs[f].phase.Done? ==> k'.fs[f].phase.Done?)
  }

  // ---- what holds of each translation ----

  /** The translation gives the frame the host page table holds now, and the right to write only where the host has it,
      raw frames aside. */
  predicate Agrees(rs: seq<Region>, host: map<nat, N.Pte>, e: Entry) {
    HostPage(rs, e.g).Some? && HostPage(rs, e.g).value in host && Gives(host[HostPage(rs, e.g).value], e)
  }

  predicate Gives(pte: N.Pte, e: Entry) { pte.frame == e.frame && (e.w ==> pte.w || pte.raw) }

  /** A finished flush came after the translation was filled. */
  ghost predicate Outdated(fs: map<nat, V.Flusher>, e: Entry) {
    exists f :: f in fs && fs[f].phase.Done? && fs[f].epoch > e.stamp
  }

  /** Since the flush of an invalidation began, no page of its range was filled in. */
  predicate RangeOk(rs: seq<Region>, k: Link, id: nat, e: Entry)
    requires id in k.flushOf
  {
    && id in k.n.open && k.flushOf[id] in k.fs
    && (e.stamp >= k.fs[k.flushOf[id]].epoch ==> !SmallIn(rs, e.g, k.n.open[id].lo, k.n.open[id].hi))
  }

  ghost predicate EntryOk(rs: seq<Region>, k: Link, e: Entry) {
    && e.stamp <= k.now && (Agrees(rs, k.n.host, e) || Outdated(k.fs, e))
    && forall id :: id in k.flushOf ==> RangeOk(rs, k, id, e)
  }

  predicate FlushesOk(k: Link) {
    forall id :: id in k.flushOf ==> id in k.n.open && k.n.open[id].swept && k.flushOf[id] in k.fs
  }

  ghost predicate LinkOk(rs: seq<Region>, k: Link) { N.Inv(rs, k.n) && FlushesOk(k) }

  // ---- steps of the notifier protocol ----

  /** Ranges under a flush stay open and as they are, until they end. */
  lemma OpenKept(rs: seq<Region>, n: N.State, m: N.Step, n': N.State, id: nat)
    requires N.Next(rs, n, m, n') && id in n.open && n.open[id].swept && !(m.End? && m.id == id)
    ensures id in n'.open && n'.open[id] == n.open[id]
  {
    hide N.Installs, N.ThpHonest, N.Fewer, RangeEmpty, HostPage;
  }

  lemma HostKept(rs: seq<Region>, n: N.State, m: N.Step, n': N.State)
    requires N.Next(rs, n, m, n') && !m.HostChange?
    ensures N.Grown(n.host, n'.host)
  {
    hide N.Installs, N.ThpHonest, N.Fewer, RangeEmpty, HostPage;
  }

  lemma GrownAgrees(rs: seq<Region>, host: map<nat, N.Pte>, host': map<nat, N.Pte>, e: Entry)
    requires N.Grown(host, host') && Agrees(rs, host, e)
    ensures Agrees(rs, host', e)
  {
    hide HostPage;
    assert N.Covers(host'[HostPage(rs, e.g).value], host[HostPage(rs, e.g).value]);
  }

  /** When a host page changes, a translation to the old frame is older than a flush that has returned. */
  lemma ChangeOutdates(rs: seq<Region>, k: Link, m: N.Step, k': Link, e: Entry)
    requires EntryOk(rs, k, e) && Moves(rs, k, m, k') && m.HostChange?
    ensures Agrees(rs, k'.n.host, e) || Outdated(k.fs, e)
  {
    hide HostPage;
    var id :| Returned(k, id) && id in k.n.open && N.InSpan(k.n.open[id], m.h);
    assert RangeOk(rs, k, id, e);
    if e.stamp >= k.fs[k.flushOf[id]].epoch {
      assert HostPage(rs, e.g).Some? ==> HostPage(rs, e.g).value != m.h;
    }
  }

  lemma MoveLink(rs: seq<Region>, k: Link, m: N.Step, k': Link)
    requires Regular(rs) && Solid(rs) && LinkOk(rs, k) && Moves(rs, k, m, k')
    ensures LinkOk(rs, k') && forall id :: id in k'.flushOf ==> k'.n.open[id] == k.n.open[id]
  {
    hide Regular, Solid, N.Inv, N.Next;
    N.AnyStep(rs, k.n, m, k'.n);
    forall id | id in k'.flushOf ensures id in k'.n.open && k'.n.open[id] == k.n.open[id] {
      OpenKept(rs, k.n, m, k'.n, id);
    }
  }

  lemma MoveEntry(rs: seq<Region>, k: Link, m: N.Step, k': Link, e: Entry)
    requires Regular(rs) && Solid(rs) && LinkOk(rs, k) && Moves(rs, k, m, k') && EntryOk(rs, k, e)
    ensures EntryOk(rs, k', e)
  {
    hide HostPage, Regular, Solid, N.Inv, N.Next, Agrees, SmallIn;
    MoveLink(rs, k, m, k');
    if m.HostChange? {
      ChangeOutdates(rs, k, m, k', e);
    } else if Agrees(rs, k.n.host, e) {
      HostKept(rs, k.n, m, k'.n);
      GrownAgrees(rs, k.n.host, k'.n.host, e);
    }
    forall id | id in k'.flushOf ensures RangeOk(rs, k', id, e) { assert RangeOk(rs, k, id, e); }
  }

  // ---- steps of vcpus and flushes ----

  lemma LaterEntry(rs: seq<Region>, k: Link, k': Link, e: Entry)
    requires Later(k, k') && EntryOk(rs, k, e)
    ensures EntryOk(rs, k', e)
  {
    hide Agrees, SmallIn;
    if !Agrees(rs, k.n.host, e) {
      var f :| f in k.fs && k.fs[f].phase.Done? && k.fs[f].epoch > e.stamp;
      assert f in k'.fs && k'.fs[f].phase.Done? && k'.fs[f].epoch > e.stamp;
    }
    forall id | id in k'.flushOf ensures RangeOk(rs, k', id, e) { assert RangeOk(rs, k, id, e); }
  }

  lemma LaterLink(rs: seq<Region>, k: Link, k': Link)
    requires Later(k, k') && LinkOk(rs, k)
    ensures LinkOk(rs, k')
  {
    hide N.Inv;
  }

  /** The flush f of a start callback that has cleared its range begins. */
  predicate Begins(k: Link, id: nat, f: nat, k': Link) {
    && id in k.n.open && k.n.open[id].swept && id !in k.flushOf
    && f in k'.fs && k'.fs[f].epoch > k.now && Later(k, k'.(flushOf := k.flushOf)) && k'.flushOf == k.flushOf[id := f]
  }

  lemma BeginEntry(rs: seq<Region>, k: Link, id: nat, f: nat, k': Link, e: Entry)
    requires Begins(k, id, f, k') && EntryOk(rs, k, e)
    ensures EntryOk(rs, k', e)
  {
    hide Agrees, SmallIn, Outdated;
    var l := k'.(flushOf := k.flushOf);
    LaterEntry(rs, k, l, e);
    forall j | j in k'.flushOf ensures RangeOk(rs, k', j, e) { if j != id { assert RangeOk(rs, l, j, e); } }
  }

  lemma BeginLink(rs: seq<Region>, k: Link, id: nat, f: nat, k': Link)
    requires Begins(k, id, f, k') && LinkOk(rs, k)
    ensures LinkOk(rs, k')
  {
    hide N.Inv;
  }

  // ---- a walk ----

  /** What a walk finds is the host's frame, and lies in no range whose leaves have been cleared. */
  lemma WalkOk(rs: seq<Region>, n: N.State, g: nat, now: nat)
    requires N.Inv(rs, n) && FlatWalk(n.f, g).Hit?
    ensures Agrees(rs, n.host, Cached(now, g, FlatWalk(n.f, g)))
    ensures var e := Cached(now, g, FlatWalk(n.f, g));
      e.stamp == now && e.g == g && (e.w <==> FlatWalk(n.f, g).entry.w)
    ensures forall id :: id in n.open && n.open[id].swept ==> !SmallIn(rs, g, n.open[id].lo, n.open[id].hi)
  {
    hide HostPage, N.Inv, SmallIn, FlatWalk;
    N.FlatHit(rs, n, g);
  }

  lemma NewEntry(rs: seq<Region>, k: Link, g: nat)
    requires LinkOk(rs, k) && FlatWalk(k.n.f, g).Hit?
    ensures EntryOk(rs, k, Cached(k.now, g, FlatWalk(k.n.f, g)))
  {
    hide N.Inv, Agrees, SmallIn, FlatWalk, Outdated;
    WalkOk(rs, k.n, g, k.now);
  }

  // ---- what a guest sees ----

  /** A translation that no finished flush is later than gives the host's present frame, and is for no page of an
      invalidation whose start callback has returned. */
  lemma Seen(rs: seq<Region>, k: Link, e: Entry)
    requires EntryOk(rs, k, e) && forall f :: f in k.fs && k.fs[f].phase.Done? ==> e.stamp >= k.fs[f].epoch
    ensures Agrees(rs, k.n.host, e)
    ensures forall id :: Returned(k, id) && id in k.n.open ==> !SmallIn(rs, e.g, k.n.open[id].lo, k.n.open[id].hi)
  {
    hide Agrees, SmallIn;
    forall id | Returned(k, id) && id in k.n.open ensures !SmallIn(rs, e.g, k.n.open[id].lo, k.n.open[id].hi) {
      assert RangeOk(rs, k, id, e);
    }
  }
}
