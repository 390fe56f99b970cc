// The range clear of npt.c (lines 722-789), which gives up the lock at every 1G boundary, on the flat map of leaves.
// While its callback is open the notifier count is positive, so what runs in those windows can only remove leaves.

module NptClear {
  import opened Regions
  import opened EptTree
  import opened EptFlat
  import opened EptClear

  /** pdpe_addr_end; both comparisons are made one below, so that a boundary that wraps to 0 counts as the largest. */
  function PdpeAddrEnd(start: u64, end: u64): u64 {
    var boundary: u64 := Add(start, 0x4000_0000) - Add(start, 0x4000_0000) % 0x4000_0000;
    if Sub(boundary, 1) < Sub(end, 1) then boundary else end
  }

  /** The next 1G boundary, or the end if that comes first. */
  lemma PdpeEnd(start: u64, end: u64)
    requires start < end
    ensures var next := (start / 0x4000_0000 + 1) * 0x4000_0000;
      PdpeAddrEnd(start, end) == if next < end then next else end
  {
    var k := start / 0x4000_0000;
    assert start + 0x4000_0000 < (k + 2) * 0x4000_0000;
    if start + 0x4000_0000 < W {
      assert (start + 0x4000_0000) / 0x4000_0000 == k + 1;
    }
  }

  // ---- what happens while the lock is free ----

  datatype Event =
    | Clear(small: set<nat>, huge: set<nat>)       // another callback, or the drop of one page
    | Fault(gpa: u64, e: Epte, thp: bool, table: bool, nomem: bool, seen: nat)   // npt_set_npte
    | Begin | End                                  // another invalidation starts or ends
    | ZeroRoot                                     // instance_destroy_npt

  /** The leaves that a stretch of events clears. */
  function SmallOf(events: seq<Event>): set<nat> {
    if events == [] then {}
    else SmallOf(events[..|events| - 1]) + if events[|events| - 1].Clear? then events[|events| - 1].small else {}
  }

  function HugeOf(events: seq<Event>): set<nat> {
    if events == [] then {}
    else HugeOf(events[..|events| - 1]) + if events[|events| - 1].Clear? then events[|events| - 1].huge else {}
  }

  /** The invalidations that start among them. */
  function Begins(events: seq<Event>): nat {
    if events == [] then 0 else Begins(events[..|events| - 1]) + if events[|events| - 1].Begin? then 1 else 0
  }

  predicate KeepsRoot(events: seq<Event>) { forall e :: e in events ==> !e.ZeroRoot? }

  /** What happens the ith time the lock is free; after the listed windows nothing more does. */
  function WindowAt(windows: seq<seq<Event>>, i: nat): seq<Event> { if i < |windows| then windows[i] else [] }

  /** The leaves cleared in the first k windows. */
  function AllSmall(windows: seq<seq<Event>>, k: nat): set<nat> {
    if k == 0 then {} else AllSmall(windows, k - 1) + SmallOf(WindowAt(windows, k - 1))
  }

  function AllHuge(windows: seq<seq<Event>>, k: nat): set<nat> {
    if k == 0 then {} else AllHuge(windows, k - 1) + HugeOf(WindowAt(windows, k - 1))
  }

  lemma OneEvent(events: seq<Event>, i: nat)
    requires i < |events|
    ensures SmallOf(events[..i + 1]) == SmallOf(events[..i]) + if events[i].Clear? then events[i].small else {}
    ensures HugeOf(events[..i + 1]) == HugeOf(events[..i]) + if events[i].Clear? then events[i].huge else {}
    ensures KeepsRoot(events[..i + 1]) <==> KeepsRoot(events[..i]) && !events[i].ZeroRoot?
    ensures Begins(events[..i + 1]) == Begins(events[..i]) + if events[i].Begin? then 1 else 0
  {
    var longer := events[..i + 1];
    assert longer[..|longer| - 1] == events[..i] && longer[|longer| - 1] == events[i];
    assert longer == events[..i] + [events[i]];
  }

  function Less(f: Flat, small: set<nat>, huge: set<nat>): Flat { Flat(f.small - small, f.huge - huge) }

  lemma LessMapped(f: Flat, rs: seq<Region>, small: set<nat>, huge: set<nat>)
    requires Mapped(f, rs)
    ensures Mapped(Less(f, small, huge), rs)
  {
    hide HostPage;
  }

  lemma LessTwice(f: Flat, s1: set<nat>, h1: set<nat>, s2: set<nat>, h2: set<nat>)
    ensures Less(Less(f, s1, h1), s2, h2) == Less(f, s1 + s2, h1 + h2)
  {
  }

  /** Removing leaves and going on with the pass gives what the pass would give without them. */
  lemma CursorLess(f0: Flat, f: Flat, rs: seq<Region>, lo: nat, hi: nat, h: nat, small: set<nat>, huge: set<nat>)
    requires CursorAt(f0, f, rs, lo, hi, h)
    ensures CursorAt(Less(f0, small, huge), Less(f, small, huge), rs, lo, hi, h)
  {
    hide HostPage;
  }

  lemma PassLess(f: Flat, rs: seq<Region>, lo: nat, hi: nat, small: set<nat>, huge: set<nat>)
    ensures Pass1(Less(f, small, huge), rs, lo, hi) == Less(Pass1(f, rs, lo, hi), small, huge)
  {
    hide HostPage;
  }

  // ---- the 1G boundaries, in pages ----

  /** One turn moves the cursor up to the next boundary at most, or past the end within the same 1G. */
  lemma StaysInGig(h: nat, h': nat, hi: nat)
    requires h < hi && (h' == h + 1 || h' == h - h % 512 + 512)
    ensures h < h' <= (h / 0x40000 + 1) * 0x40000
    ensures h' >= hi ==> (hi - 1) / 0x40000 == h / 0x40000
    ensures h' < (h / 0x40000 + 1) * 0x40000 ==> h' / 0x40000 == h / 0x40000
    ensures h' == (h / 0x40000 + 1) * 0x40000 ==> h' / 0x40000 == h / 0x40000 + 1
  {
    Gig(h);
    var k, j := h / 0x40000, h % 0x40000 / 512;
    assert h' <= 0x40000 * k + 512 * (j + 1);
    SameGig(h', k);
    SameGig(hi - 1, k);
  }

  /** One turn of the loop of npt_clear_page_table at host page h: the leaves it leaves, and where the cursor goes. */
  function TurnOf(rs: seq<Region>, f: Flat, h: nat): (Flat, nat) {
    match GuestPage(rs, h)
    case None => (f, h + 1)
    case Some(g) =>
      if g / 512 in f.huge then
        (if h % 512 > 0 then f.(huge := f.huge - {g / 512}) else f, h - h % 512 + 512)
      else (f.(small := f.small - {g}), h + 1)
  }

  lemma TurnCursor(f0: Flat, f: Flat, rs: seq<Region>, lo: nat, hi: nat, h: nat)
    requires Regular(rs) && Mapped(f0, rs) && lo <= h < hi && CursorAt(f0, f, rs, lo, hi, h)
    ensures CursorAt(f0, TurnOf(rs, f, h).0, rs, lo, hi, TurnOf(rs, f, h).1) && h < TurnOf(rs, f, h).1
  {
    hide Regular, Mapped, CursorAt, GuestPage;
    StepAny(f0, f, rs, lo, hi, h);
  }

  /** Page h is page h % 512 of a 2M block of its 1G. */
  lemma Gig(h: nat)
    ensures h == 0x40000 * (h / 0x40000) + 512 * (h % 0x40000 / 512) + h % 512 && h % 0x40000 / 512 < 512
  {
    var q := h / 512;
    assert q / 512 == h / 0x40000;
  }

  lemma SameGig(x: nat, k: nat)
    ensures 0x40000 * k <= x < 0x40000 * (k + 1) ==> x / 0x40000 == k
    ensures x == 0x40000 * (k + 1) ==> x / 0x40000 == k + 1
  {
  }

  /** The end of the present stretch, for a cursor at page h. */
  function Stop(h: nat, hi: nat): nat { Min((h / 0x40000 + 1) * 0x40000, hi) }

  lemma StopIs(s: u64, e: u64, h: nat, hi: nat)
    requires s == 4096 * h && e == 4096 * hi && h < hi
    ensures PdpeAddrEnd(s, e) == 4096 * Stop(h, hi)
  {
    PdpeEnd(s, e);
    assert s / 0x4000_0000 == h / 0x40000;
  }

  // ---- the log of turns and pauses ----

  datatype Mark = Turned(h: nat) | Paused(h: nat)

  /** Where the lock was given up. */
  function Pauses(log: seq<Mark>): seq<nat> {
    if log == [] then []
    else Pauses(log[..|log| - 1]) + if log[|log| - 1].Paused? then [log[|log| - 1].h] else []
  }

  /** The number of turns since the last pause, and the most between any two. */
  function Tail(log: seq<Mark>): nat {
    if log == [] || log[|log| - 1].Paused? then 0 else 1 + Tail(log[..|log| - 1])
  }

  function Longest(log: seq<Mark>): nat {
    if log == [] then 0
    else var l, t := Longest(log[..|log| - 1]), Tail(log); if t > l then t else l
  }

  /** Longest is a bound on every stretch of turns with no pause in it. */
  lemma {:induction false} StretchBound(log: seq<Mark>, i: nat, j: nat)
    requires i <= j <= |log| && forall k :: i <= k < j ==> log[k].Turned?
    ensures j - i <= Longest(log) && (j == |log| ==> j - i <= Tail(log))
  {
    if i < j {
      var shorter := log[..|log| - 1];
      if j == |log| { StretchBound(shorter, i, j - 1); } else { StretchBound(shorter, i, j); }
    }
  }

  lemma LogTurn(log: seq<Mark>, h: nat)
    ensures var l := log + [Turned(h)];
      && Pauses(l) == Pauses(log) && Tail(l) == Tail(log) + 1
      && Longest(l) == if Tail(l) > Longest(log) then Tail(l) else Longest(log)
  {
    assert (log + [Turned(h)])[..|log|] == log;
  }

  lemma LogPause(log: seq<Mark>, h: nat)
    ensures var l := log + [Paused(h)]; Pauses(l) == Pauses(log) + [h] && Tail(l) == 0 && Longest(l) == Longest(log)
  {
    assert (log + [Paused(h)])[..|log|] == log;
  }

  /** The 1G boundaries after the ath, up to the bth, as pages. */
  function Gigs(a: nat, b: nat): seq<nat> { if b <= a then [] else Gigs(a, b - 1) + [b * 0x40000] }

  /** The log of a pass whose cursor is at page h, after the given number of pauses. */
  predicate Paced(log: seq<Mark>, lo: nat, hi: nat, h: nat, pauses: nat) {
    && Pauses(log) == Gigs(lo / 0x40000, lo / 0x40000 + pauses) && Longest(log) <= 0x40000
    && (h < hi ==> pauses == h / 0x40000 - lo / 0x40000 && Tail(log) <= h % 0x40000)
    && (h >= hi && lo < hi ==> pauses == (hi - 1) / 0x40000 - lo / 0x40000)
    && (lo >= hi ==> pauses == 0)
  }

  lemma PacedStart(lo: nat, hi: nat)
    ensures Paced([], lo, hi, lo, 0)
  {
  }

  /** A turn keeps the pace, if the cursor has not come to a boundary inside the range. */
  lemma NextTurn(log: seq<Mark>, lo: nat, hi: nat, h: nat, h': nat, pauses: nat)
    requires lo <= h < hi && (h' == h + 1 || h' == h - h % 512 + 512) && Paced(log, lo, hi, h, pauses)
    ensures h < h' && !(h' == Stop(h, hi) && h' != hi) ==> Paced(log + [Turned(h)], lo, hi, h', pauses)
    ensures h < h' && !(h' == Stop(h, hi) && h' != hi) && h' < hi ==> Stop(h', hi) == Stop(h, hi)
    ensures h < h' <= (h / 0x40000 + 1) * 0x40000
  {
    hide Pauses, Tail, Longest, Gigs;
    StaysInGig(h, h', hi);
    LogTurn(log, h);
  }

  /** There, a pause does. */
  lemma NextPause(log: seq<Mark>, lo: nat, hi: nat, h: nat, h': nat, pauses: nat)
    requires lo <= h < hi && (h' == h + 1 || h' == h - h % 512 + 512) && Paced(log, lo, hi, h, pauses)
    requires h' == Stop(h, hi) && h' != hi
    ensures Paced(log + [Turned(h)] + [Paused(h')], lo, hi, h', pauses + 1)
  {
    hide Pauses, Tail, Longest;
    StaysInGig(h, h', hi);
    LogTurn(log, h);
    LogPause(log + [Turned(h)], h');
  }

  lemma TurnPages(h: nat)
    ensures (4096 * h) % 4096 == 0 && (4096 * h) / 4096 == h && (4096 * h) % 0x20_0000 == 4096 * (h % 512)
  {
  }

  // ---- the leaves during the pass ----

  /** The leaves of a pass from f0 with the cursor at page h, after k windows. */
  ghost predicate Progress(rs: seq<Region>, f0: Flat, f: Flat, windows: seq<seq<Event>>, lo: nat, hi: nat, h: nat,
                           k: nat)
  {
    var f1 := Less(f0, AllSmall(windows, k), AllHuge(windows, k));
    Mapped(f1, rs) && CursorAt(f1, f, rs, lo, hi, h)
  }

  lemma ProgressStart(rs: seq<Region>, f0: Flat, windows: seq<seq<Event>>, lo: nat, hi: nat)
    requires Mapped(f0, rs)
    ensures Progress(rs, f0, f0, windows, lo, hi, lo, 0)
  {
    hide Mapped, CursorAt;
    LessNone(f0);
    CursorStart(f0, rs, lo, hi);
  }

  lemma ProgressTurn(rs: seq<Region>, f0: Flat, f: Flat, windows: seq<seq<Event>>, lo: nat, hi: nat, h: nat, k: nat)
    requires Regular(rs) && lo <= h < hi && Progress(rs, f0, f, windows, lo, hi, h, k)
    ensures Progress(rs, f0, TurnOf(rs, f, h).0, windows, lo, hi, TurnOf(rs, f, h).1, k)
  {
    hide Regular, Mapped, CursorAt, TurnOf, Less;
    TurnCursor(Less(f0, AllSmall(windows, k), AllHuge(windows, k)), f, rs, lo, hi, h);
  }

  lemma ProgressPause(rs: seq<Region>, f0: Flat, f: Flat, windows: seq<seq<Event>>, lo: nat, hi: nat, h: nat, k: nat)
    requires Progress(rs, f0, f, windows, lo, hi, h, k)
    ensures var f' := Less(f, SmallOf(WindowAt(windows, k)), HugeOf(WindowAt(windows, k)));
      Progress(rs, f0, f', windows, lo, hi, h, k + 1)
  {
    hide Mapped, CursorAt, Less, SmallOf, HugeOf;
    var f1 := Less(f0, AllSmall(windows, k), AllHuge(windows, k));
    var sm, hg := SmallOf(WindowAt(windows, k)), HugeOf(WindowAt(windows, k));
    CursorLess(f1, f, rs, lo, hi, h, sm, hg);
    LessMapped(f1, rs, sm, hg);
    LessTwice(f0, AllSmall(windows, k), AllHuge(windows, k), sm, hg);
  }

  lemma ProgressEnd(rs: seq<Region>, f0: Flat, f: Flat, windows: seq<seq<Event>>, lo: nat, hi: nat, h: nat, k: nat)
    requires Progress(rs, f0, f, windows, lo, hi, h, k) && lo <= h
    ensures Mapped(f, rs)
    ensures h >= hi ==> f == Less(Pass1(f0, rs, lo, hi), AllSmall(windows, k), AllHuge(windows, k))
  {
    hide Mapped, CursorAt, Less, AllSmall, AllHuge, Pass1;
    var f1 := Less(f0, AllSmall(windows, k), AllHuge(windows, k));
    CursorMapped(f1, f, rs, lo, hi, h);
    if h >= hi {
      CursorEnd(f1, f, rs, lo, hi, h);
      PassLess(f0, rs, lo, hi, AllSmall(windows, k), AllHuge(windows, k));
    }
  }

  lemma CursorMapped(f0: Flat, f: Flat, rs: seq<Region>, lo: nat, hi: nat, h: nat)
    requires CursorAt(f0, f, rs, lo, hi, h) && Mapped(f0, rs)
    ensures Mapped(f, rs)
  {
    hide HostPage;
  }

  /** Some host page of [lo, hi) belongs to a region. */
  ghost predicate AnyMapped(rs: seq<Region>, lo: nat, hi: nat) {
    exists h :: lo <= h < hi && GuestPage(rs, h).Some?
  }

  /** The number of 1G boundaries strictly inside the pages [lo, hi). */
  function Inside(lo: nat, hi: nat): nat {
    if lo < hi then (hi - 1) / 0x40000 - lo / 0x40000 else 0
  }

  /** What the page-table pass over the pages [lo, hi) makes of the leaves f0, its log and the windows. */
  ghost predicate Outcome(rs: seq<Region>, f0: Flat, root0: bool, f: Flat, root: bool, log: seq<Mark>,
                          windows: seq<seq<Event>>, lo: nat, hi: nat, wild: bool, broke: bool)
  {
    var k := |Pauses(log)|;
    && (wild <==> !root0 && lo < hi && AnyMapped(rs, lo, Stop(lo, hi)))
    && k <= Inside(lo, hi) && Pauses(log) == Gigs(lo / 0x40000, lo / 0x40000 + k) && Longest(log) <= 0x40000
    && (wild ==> k == 0 && f == f0)
    && (!wild ==> Mapped(f, rs) && (broke ==> !root && k > 0))
    && (!wild && !broke ==>
          k == Inside(lo, hi) && f == Less(Pass1(f0, rs, lo, hi), AllSmall(windows, k), AllHuge(windows, k)))
    && (!wild ==> (root <==> root0 && forall i :: 0 <= i < k ==> KeepsRoot(WindowAt(windows, i))))
  }

  /** A pass over [lo, hi) with its cursor at page h, after k windows. */
  ghost predicate Going(rs: seq<Region>, f0: Flat, root0: bool, f: Flat, root: bool, log: seq<Mark>,
                        windows: seq<seq<Event>>, lo: nat, hi: nat, h: nat, k: nat)
  {
    && Progress(rs, f0, f, windows, lo, hi, h, k) && Paced(log, lo, hi, h, k)
    && (root <==> root0 && forall i :: 0 <= i < k ==> KeepsRoot(WindowAt(windows, i)))
    && (!root0 ==> Bare(rs, lo, h) && (k == 0 ==> f == f0))
  }

  lemma GoingStart(rs: seq<Region>, f: Flat, root: bool, windows: seq<seq<Event>>, lo: nat, hi: nat)
    requires Mapped(f, rs)
    ensures Going(rs, f, root, f, root, [], windows, lo, hi, lo, 0)
  {
    hide Mapped, Progress, Paced;
    ProgressStart(rs, f, windows, lo, hi);
    PacedStart(lo, hi);
  }

  lemma GoingWild(rs: seq<Region>, f0: Flat, root0: bool, f: Flat, root: bool, log: seq<Mark>, windows: seq<seq<Event>>,
                  lo: nat, hi: nat, h: nat, k: nat)
    requires Going(rs, f0, root0, f, root, log, windows, lo, hi, h, k) && lo <= h < hi && !root && k == 0
    requires GuestPage(rs, h).Some?
    ensures Outcome(rs, f0, root0, f, root, log, windows, lo, hi, true, false)
  {
    hide Progress, Paced, Mapped, GuestPage, Pauses, Longest, Gigs, Less, Pass1, Stop;
    PacedFacts(log, lo, hi, h, k);
    assert AnyMapped(rs, lo, Stop(lo, hi));
  }

  lemma GoingEnd(rs: seq<Region>, f0: Flat, root0: bool, f: Flat, root: bool, log: seq<Mark>, windows: seq<seq<Event>>,
                 lo: nat, hi: nat, h: nat, k: nat, broke: bool)
    requires Going(rs, f0, root0, f, root, log, windows, lo, hi, h, k) && lo <= h
    requires if broke then !root && k > 0 else h >= hi
    ensures Outcome(rs, f0, root0, f, root, log, windows, lo, hi, false, broke)
  {
    hide Progress, Paced, Mapped, GuestPage, Pauses, Longest, Gigs, Less, Pass1, KeepsRoot, Bare, AnyMapped, Stop;
    PacedFacts(log, lo, hi, h, k);
    ProgressEnd(rs, f0, f, windows, lo, hi, h, k);
    if !root0 && lo < hi { BareNone(rs, lo, h, Stop(lo, hi)); }
  }

  lemma PageBounds(start: nat, end: nat)
    ensures start - start % 4096 == 4096 * (start / 4096)
    ensures (end + 4095) - (end + 4095) % 4096 == 4096 * ((end + 4095) / 4096) <= end + 4095
  {
  }

  lemma BlockBounds(start: nat, end: nat)
    ensures (start + 0x1F_FFFF) - (start + 0x1F_FFFF) % 0x20_0000 == 0x20_0000 * ((start + 0x1F_FFFF) / 0x20_0000)
    ensures end - end % 0x20_0000 == 0x20_0000 * (end / 0x20_0000) <= end
  {
  }

  class Npt {
    var f: Flat
    var count: nat               // mmu_notifier_count
    var sequence: nat            // mmu_notifier_seq
    var root: bool               // ept_root is not 0
    const regions: seq<Region>
    ghost var log: seq<Mark>     // turns and pauses of the page-table pass

    /** The part of npt_set_npte under the lock, for a block that has a 4K table or not: mmu_notifier_retry, the 2M
        test, a 2M leaf in the way of a 4K one, no memory for a directory, or the new leaf. */
    method SetNpte(gpa: u64, e: Epte, thp: bool, table: bool, nomem: bool, seen: nat)
      modifies this`f
      ensures var g, wide := gpa / 4096, thp && HugeConsistent(regions, gpa) && !table;
        f == if count > 0 || sequence != seen || nomem || (!wide && g / 512 in old(f).huge) then old(f)
             else if wide then old(f).(huge := old(f).huge[g / 512 := e])
             else old(f).(small := old(f).small[g := e])
    {
      if count > 0 { return; }
      if sequence != seen { return; }
      var wide := false;
      if thp {
        var s := GpaToHva(regions, AlignDown(gpa));
        var t := GpaToHva(regions, AlignDown(Add(gpa, 0x20_0000)));
        wide := s != ADDR_INVAL && t != ADDR_INVAL && Sub(t, s) == 0x20_0000 && !table;
      }
      if nomem { return; }
      var g := gpa / 4096;
      if wide {
        f := f.(huge := f.huge[g / 512 := e]);
      } else if g / 512 !in f.huge {
        f := f.(small := f.small[g := e]);
      }
    }

    /** The lock is free for a while: what is cleared goes, nothing is added, and this callback's count stays; each
        invalidation that starts raises the count, and each that ends lowers it and raises the sequence. */
    method Window(events: seq<Event>)
      requires count >= 1
      modifies this`f, this`count, this`sequence, this`root
      ensures f == Less(old(f), SmallOf(events), HugeOf(events)) && count >= 1
      ensures sequence >= old(sequence) && sequence + count == old(sequence) + old(count) + Begins(events)
      ensures root <==> old(root) && KeepsRoot(events)
    {
      assert events[..0] == [];
      LessNone(f);
      for i := 0 to |events|
        invariant f == Less(old(f), SmallOf(events[..i]), HugeOf(events[..i])) && count >= 1
        invariant sequence >= old(sequence) && sequence + count == old(sequence) + old(count) + Begins(events[..i])
        invariant root <==> old(root) && KeepsRoot(events[..i])
      {
        OneEvent(events, i);
        match events[i]
        case Clear(s, h) =>
          LessTwice(old(f), SmallOf(events[..i]), HugeOf(events[..i]), s, h);
          f := Less(f, s, h);
        case Fault(gpa, e, thp, table, nomem, seen) => SetNpte(gpa, e, thp, table, nomem, seen);
        case Begin => count := count + 1;
        case End => if count >= 2 { sequence, count := sequence + 1, count - 1; }
        case ZeroRoot => root := false;
      }
      assert events[..|events|] == events;
    }

    /** One turn of the loop at host address s, as far as it concerns the leaves. */
    method Turn(s: u64, e: u64) returns (s': nat)
      requires s % 4096 == 0 && s < e && e + 0x20_0000 < W && (root || GuestPage(regions, s / 4096).None?)
      modifies this`f, this`log
      ensures log == old(log) + [Turned(s / 4096)]
      ensures s' == 4096 * TurnOf(regions, old(f), s / 4096).1 && f == TurnOf(regions, old(f), s / 4096).0
    {
      log := log + [Turned(s / 4096)];
      TurnPages(s / 4096);
      var gpa := HvaToGpa(regions, s);
      if gpa == ADDR_INVAL { return s + 4096; }
      var g := gpa / 4096;
      if g / 512 in f.huge {
        var down := s - s % 0x20_0000;
        var up := (s + 0x1F_FFFF) - (s + 0x1F_FFFF) % 0x20_0000;
        Rounding(s, e);
        if s > down || e < up { f := f.(huge := f.huge - {g / 512}); }
        return down + 0x20_0000;
      } else {
        f := f.(small := f.small - {g});
        return s + 4096;
      }
    }

    /** cond_resched_lock, for the ith time, with the cursor at page h. */
    method Pause(windows: seq<seq<Event>>, i: nat, ghost h: nat)
      requires count >= 1
      modifies this
      ensures f == Less(old(f), SmallOf(WindowAt(windows, i)), HugeOf(WindowAt(windows, i))) && count >= 1
      ensures root <==> old(root) && KeepsRoot(WindowAt(windows, i))
      ensures log == old(log) + [Paused(h)]
    {
      log := log + [Paused(h)];
      Window(WindowAt(windows, i));
    }

    /** The turn at page h and, at a 1G boundary inside the range, the pause after it. */
    method TurnAndPause(windows: seq<seq<Event>>, s: u64, e: u64, n: u64, pauses: nat,
                        ghost f0: Flat, ghost root0: bool, ghost lo: nat, ghost hi: nat, ghost h: nat, ghost base: nat)
        returns (s': nat, n': u64, paused: bool)
      requires Regular(regions) && s == 4096 * h && e == 4096 * hi && lo <= h < hi && e + 0x20_0000 < W && count >= 1
      requires root || GuestPage(regions, h).None?
      requires n == 4096 * Stop(h, hi) && base <= |log|
      requires Going(regions, f0, root0, f, root, log[base..], windows, lo, hi, h, pauses)
      modifies this
      ensures s' % 4096 == 0 && h < s' / 4096 && s' <= s + 0x20_0000 && count >= 1 && base <= |log|
      ensures var h', k := s' / 4096, if paused then pauses + 1 else pauses;
        && Going(regions, f0, root0, f, root, log[base..], windows, lo, hi, h', k)
        && (h' < hi ==> n' == 4096 * Stop(h', hi))
      ensures !paused ==> root == old(root)
    {
      hide Regular, Progress, Paced, GuestPage, Less, SmallOf, HugeOf, PdpeAddrEnd, KeepsRoot, Bare;
      ghost var es := log[base..];
      ProgressTurn(regions, f0, f, windows, lo, hi, h, pauses);
      TurnPages(h);
      if !root0 { BareNext(regions, lo, h); }
      s' := Turn(s, e);
      n', paused := n, false;
      ghost var h' := s' / 4096;
      assert s' == 4096 * h';
      NextTurn(es, lo, hi, h, h', pauses);
      assert log[base..] == es + [Turned(h)];
      if s' == n && s' != e {
        NextPause(es, lo, hi, h, h', pauses);
        n' := PdpeAddrEnd(s', e);
        StopIs(s', e, h', hi);
        ProgressPause(regions, f0, f, windows, lo, hi, h', pauses);
        Pause(windows, pauses, h');
        paused := true;
        assert log[base..] == es + [Turned(h)] + [Paused(h')];
      }
    }

    /** npt_clear_page_table, with window i happening the ith time the lock is free.  It gives the lock up at each 1G
        boundary inside the range in turn, with at most 2^18 turns between, until a window takes the root away; if
        none does, it ends as an uninterrupted pass would, less what the windows removed.  The code does not look at
        the root before the first boundary: entered without one it walks from page 0 as soon as it meets a page of a
        region, and wild says so. */
    method ClearPageTable(start: u64, end: u64, windows: seq<seq<Event>>) returns (wild: bool, broke: bool)
      requires Regular(regions) && Mapped(f, regions) && end + 0x20_2000 < W && count >= 1
      modifies this
      ensures count >= 1 && |log| >= |old(log)|
      ensures Outcome(regions, old(f), old(root), f, root, log[|old(log)|..], windows,
                      start / 4096, (end + 4095) / 4096, wild, broke)
    {
      hide Regular, Mapped, Outcome;
      PageBounds(start, end);
      wild, broke := ClearPages(start - start % 4096, (end + 4095) - (end + 4095) % 4096, windows,
                                start / 4096, (end + 4095) / 4096);
    }

    /** Its loop, from page lo to page hi. */
    method ClearPages(start: u64, end: u64, windows: seq<seq<Event>>, ghost lo: nat, ghost hi: nat)
        returns (wild: bool, broke: bool)
      requires Regular(regions) && Mapped(f, regions) && end + 0x20_0000 < W && count >= 1
      requires start == 4096 * lo && end == 4096 * hi
      modifies this
      ensures count >= 1 && |log| >= |old(log)|
      ensures Outcome(regions, old(f), old(root), f, root, log[|old(log)|..], windows, lo, hi, wild, broke)
    {
      hide Regular, Mapped, Going, Outcome, GuestPage, PdpeAddrEnd, KeepsRoot, Stop;
      ghost var f0: Flat, root0, base: nat := f, root, |log|;
      var s, e := start, end;
      var n := PdpeAddrEnd(s, e);
      var pauses: nat := 0;
      wild, broke := false, false;
      ghost var h: nat := lo;
      GoingStart(regions, f, root, windows, lo, hi);
      assert log[base..] == [];
      if lo < hi { StopIs(s, e, lo, hi); }
      while s < e
        invariant s == 4096 * h && e == 4096 * hi && lo <= h && count >= 1 && base <= |log|
        invariant Going(regions, f0, root0, f, root, log[base..], windows, lo, hi, h, pauses) && (root || pauses == 0)
        invariant s < e ==> n == 4096 * Stop(h, hi)
        decreases e - s
      {
        if !root {
          var gpa := HvaToGpa(regions, s);
          PageOf(regions, h);
          if gpa != ADDR_INVAL {
            GoingWild(regions, f0, root0, f, root, log[base..], windows, lo, hi, h, pauses);
            wild := true;
            return;
          }
        }
        var paused;
        s, n, paused := TurnAndPause(windows, s, e, n, pauses, f0, root0, lo, hi, h, base);
        h := s / 4096;
        if paused {
          pauses := pauses + 1;
          if !root {
            broke := true;
            break;
          }
        }
      }
      GoingEnd(regions, f0, root0, f, root, log[base..], windows, lo, hi, h, pauses, broke);
    }

    /** npt_clear_page_directory, which does not give the lock up. */
    method ClearPageDirectory(start: u64, end: u64)
      requires Regular(regions) && start + 0x20_0000 < W && end + 0x20_0000 < W
      modifies this`f
      ensures f == if root then Pass2(old(f), regions, (start + 0x1F_FFFF) / 0x20_0000, end / 0x20_0000) else old(f)
    {
      if !root { return; }
      hide Regular;
      BlockBounds(start, end);
      ClearBlocks((start + 0x1F_FFFF) - (start + 0x1F_FFFF) % 0x20_0000, end - end % 0x20_0000,
                  (start + 0x1F_FFFF) / 0x20_0000, end / 0x20_0000);
    }

    /** Its loop, from host block lo to host block hi. */
    method ClearBlocks(start: nat, end: u64, ghost lo: nat, ghost hi: nat)
      requires Regular(regions) && start == 0x20_0000 * lo && end == 0x20_0000 * hi
      modifies this`f
      ensures f == Pass2(old(f), regions, lo, hi)
    {
      hide Regular, DirHit, Pass2, GuestPage;
      ghost var f0 := f;
      var s, e := start, end;
      ghost var k := lo;
      DirStart(f0, regions, lo, lo);
      while s < e
        invariant s == 0x20_0000 * k && e == 0x20_0000 * hi && lo <= k && (k <= hi || k == lo)
        invariant f == Pass2(f0, regions, lo, k)
        decreases e - s
      {
        DirStep(f0, regions, lo, k);
        TurnDir(s, k);
        s := s + 0x20_0000;
        k := k + 1;
      }
      if hi < lo { DirStart(f0, regions, lo, hi); }
    }

    /** One turn of that loop, as far as it concerns the leaves. */
    method TurnDir(s: u64, ghost k: nat)
      requires s == 0x20_0000 * k
      modifies this`f
      ensures match GuestPage(regions, 512 * k)
        case None => f == old(f)
        case Some(g) => f == RemoveBlock(old(f), g / 512)
    {
      var gpa := HvaToGpa(regions, s);
      assert s == 4096 * (512 * k);
      if gpa != ADDR_INVAL { f := RemoveBlock(f, gpa / 4096 / 512); }
    }

    /** __npt_mmu_notifier_invalidate_range_start under ept_lock.  If the root is there and stays, it ends as the
        clear that never gives the lock up, less what was cleared in the windows; entered without the root, it walks
        from page 0 exactly when the range meets a region before its first 1G boundary. */
    method RangeStart(start: u64, end: u64, windows: seq<seq<Event>>) returns (wild: bool)
      requires Regular(regions) && Mapped(f, regions) && start + 0x20_2000 < W && end + 0x20_2000 < W
      modifies this
      ensures count >= 1
      ensures var lo, hi := start / 4096, (end + 4095) / 4096;
        var k := Inside(lo, hi);
        && (wild <==> !old(root) && lo < hi && AnyMapped(regions, lo, Stop(lo, hi)))
        && (!wild && root ==>
              f == Less(ClearRange(old(f), regions, start, end), AllSmall(windows, k), AllHuge(windows, k)))
        && (!wild ==> (root <==> old(root) && forall i :: 0 <= i < k ==> KeepsRoot(WindowAt(windows, i))))
    {
      hide Regular, Mapped, Pass1, Pass2, Less, KeepsRoot, GuestPage, Pauses, Longest, Gigs;
      count := count + 1;
      ghost var f0 := f;
      var broke;
      wild, broke := ClearPageTable(start, end, windows);
      if wild { return; }
      ClearPageDirectory(start, end);
      ghost var lo, hi := start / 4096, (end + 4095) / 4096;
      Pass2Less(Pass1(f0, regions, lo, hi), regions, (start + 0x1F_FFFF) / 0x20_0000, end / 0x20_0000,
                AllSmall(windows, Inside(lo, hi)), AllHuge(windows, Inside(lo, hi)));
    }
  }

  lemma {:induction false} GigsLength(a: nat, k: nat)
    ensures |Gigs(a, a + k)| == k
  {
    if k > 0 { GigsLength(a, k - 1); }
  }

  lemma PacedFacts(log: seq<Mark>, lo: nat, hi: nat, h: nat, pauses: nat)
    requires lo <= h && Paced(log, lo, hi, h, pauses)
    ensures |Pauses(log)| == pauses <= Inside(lo, hi) && Pauses(log) == Gigs(lo / 0x40000, lo / 0x40000 + pauses)
    ensures Longest(log) <= 0x40000 && (h >= hi ==> pauses == Inside(lo, hi))
    ensures h < hi && pauses == 0 ==> h < Stop(h, hi) == Stop(lo, hi)
    ensures lo < hi && (h >= hi || pauses > 0) ==> Stop(lo, hi) <= h
  {
    hide Pauses, Longest, Tail;
    GigsLength(lo / 0x40000, pauses);
    if h < hi { Monotone(h, hi - 1); Monotone(lo, h); }
  }

  lemma Monotone(a: nat, b: nat)
    requires a <= b
    ensures a / 0x40000 <= b / 0x40000 && a < (a / 0x40000 + 1) * 0x40000
  {
  }

  /** No page of [lo, h) belongs to a region. */
  ghost predicate Bare(rs: seq<Region>, lo: nat, h: nat) { forall p :: lo <= p < h ==> GuestPage(rs, p).None? }

  lemma BareNext(rs: seq<Region>, lo: nat, h: nat)
    requires Bare(rs, lo, h) && GuestPage(rs, h).None?
    ensures Bare(rs, lo, h + 1)
  {
    hide GuestPage;
  }

  lemma BareNone(rs: seq<Region>, lo: nat, h: nat, stop: nat)
    requires Bare(rs, lo, h) && stop <= h
    ensures !AnyMapped(rs, lo, stop)
  {
    hide GuestPage;
  }

  lemma PageOf(rs: seq<Region>, h: nat)
    requires 4096 * h < W
    ensures GuestPage(rs, h).Some? <==> ToGpa(rs, 4096 * h) != ADDR_INVAL
  {
  }

  lemma Pass2Less(f: Flat, rs: seq<Region>, lo: nat, hi: nat, small: set<nat>, huge: set<nat>)
    ensures Pass2(Less(f, small, huge), rs, lo, hi) == Less(Pass2(f, rs, lo, hi), small, huge)
  {
    hide DirHit;
  }

  lemma LessNone(f: Flat)
    ensures Less(f, {}, {}) == f
  {
  }

  /** Over the range itself the windows make no difference: where the uninterrupted clear leaves nothing, neither does
      this one, which is what the notifier protocol needs before host pages may change. */
  lemma WindowsLeaveNothing(f: Flat, rs: seq<Region>, lo: nat, hi: nat, small: set<nat>, huge: set<nat>)
    requires Regular(rs) && OneRegionPerBlock(rs) && Mapped(f, rs) && lo < hi
    requires forall b :: b in f.huge ==> !Straddles(rs, b, lo, hi)
    ensures RangeEmpty(Less(ClearRange(f, rs, 4096 * lo, 4096 * hi), small, huge), rs, lo, hi)
  {
    hide Regular, OneRegionPerBlock, Mapped, Straddles, SmallIn, HugeMeets, ClearRange;
    ClearTotalIff(f, rs, lo, hi);
  }
}
