// Whole runs of the nested table: any sequence of faults, invalidations and single-page drops, then teardown.

module EptRun {
  import opened Regions
  import opened EptTree
  import opened EptFlat
  import opened EptWalk
  import Ept

  /** Where the 2M test passes the block is one straight line (HugeConsistentLinear says when that is so). */
  ghost predicate Solid(rs: seq<Region>) {
    forall b: u64 :: b % 0x20_0000 == 0 && b + 0x20_0000 < W && HugeConsistent(rs, b) ==> Linear(rs, b)
  }

  /** Regions of at least 2M are solid exactly when no block that passes the test has a gap. */
  lemma SolidIff(rs: seq<Region>)
    requires Checked(rs) && HvaPlaced(rs) && DisjointGpa(rs) && forall i :: 0 <= i < |rs| ==> rs[i].size >= 0x20_0000
    ensures Solid(rs) <==>
      forall b: u64 :: b % 0x20_0000 == 0 && b + 0x20_0000 < W && HugeConsistent(rs, b) ==> NoGap(rs, b)
  {
    hide Checked, HvaPlaced, DisjointGpa, HugeConsistent, Linear, NoGap;
    forall b: u64 | b % 0x20_0000 == 0 && b + 0x20_0000 < W && HugeConsistent(rs, b)
      ensures Linear(rs, b) <==> NoGap(rs, b)
    {
      HugeConsistentLinear(rs, b);
    }
  }

  lemma ConsistentAtBase(rs: seq<Region>, gpa: u64)
    requires gpa < 0x1_0000_0000_0000 && HugeConsistent(rs, gpa)
    ensures HugeConsistent(rs, AlignDown(gpa)) && AlignDown(gpa) % 0x20_0000 == 0
  {
    AlignTwice(gpa);
  }

  lemma AlignTwice(gpa: u64)
    requires gpa < 0x1_0000_0000_0000
    ensures var b := AlignDown(gpa);
      b % 0x20_0000 == 0 && AlignDown(b) == b && AlignDown(Add(b, 0x20_0000)) == AlignDown(Add(gpa, 0x20_0000))
  {
    var k := gpa / 0x20_0000;
    assert AlignDown(gpa) == 0x20_0000 * k;
    assert (gpa + 0x20_0000) / 0x20_0000 == k + 1;
  }

  /** A block that passes the 2M test is mapped in a straight line, page by page. */
  lemma ConsistentIsLine(rs: seq<Region>, gpa: u64, g: nat)
    requires Regular(rs) && Solid(rs) && gpa < 0x1_0000_0000_0000 && HugeConsistent(rs, gpa)
    requires g / 512 == gpa / 4096 / 512
    ensures HostPage(rs, 512 * (g / 512)).Some?
    ensures HostPage(rs, g) == Some(HostPage(rs, 512 * (g / 512)).value + g % 512)
  {
    hide Regular, HugeConsistent, Linear, ToHva, AlignDown;
    var b := AlignDown(gpa);
    BaseOf(gpa, g);
    ConsistentAtBase(rs, gpa);
    LinePage(rs, b, g % 512);
  }

  lemma BaseOf(gpa: u64, g: nat)
    requires gpa < 0x1_0000_0000_0000 && g / 512 == gpa / 4096 / 512
    ensures AlignDown(gpa) == 4096 * (512 * (g / 512)) && 4096 * g == AlignDown(gpa) + 4096 * (g % 512)
    ensures 4096 * g < 0x1_0000_0000_0000 && AlignDown(gpa) + 0x20_0000 < W
  {
    var k := gpa / 0x20_0000;
    assert gpa / 4096 / 512 == k;
  }

  lemma LinePage(rs: seq<Region>, b: u64, k: nat)
    requires Linear(rs, b) && b + 0x20_0000 < W && k < 512
    ensures ToHva(rs, b) != ADDR_INVAL && ToHva(rs, b + 4096 * k) != ADDR_INVAL
    ensures ToHva(rs, b + 4096 * k) / 4096 == ToHva(rs, b) / 4096 + k
  {
    var g: u64 := b + 4096 * k;
    assert ToHva(rs, g) == ToHva(rs, b) + 4096 * k;
  }

  lemma SmallKeepsMapped(f: Flat, rs: seq<Region>, gpa: u64, e: Epte)
    requires Regular(rs) && Mapped(f, rs) && ToHva(rs, gpa) != ADDR_INVAL && gpa / 4096 / 512 !in f.huge
    ensures Mapped(f.(small := f.small[gpa / 4096 := e]), rs)
  {
    hide HostPage, Regular;
    PageMapped(rs, gpa);
  }

  lemma HugeKeepsMapped(f: Flat, rs: seq<Region>, gpa: u64, e: Epte)
    requires Regular(rs) && Solid(rs) && Mapped(f, rs) && gpa < 0x1_0000_0000_0000 && HugeConsistent(rs, gpa)
    requires forall g :: g in f.small ==> g / 512 != gpa / 4096 / 512
    ensures Mapped(f.(huge := f.huge[gpa / 4096 / 512 := e]), rs)
  {
    hide HostPage, Regular, Solid, HugeConsistent;
    var b := gpa / 4096 / 512;
    forall g: nat | g / 512 == b
      ensures HostPage(rs, 512 * b).Some? && HostPage(rs, g) == Some(HostPage(rs, 512 * b).value + g % 512)
    {
      ConsistentIsLine(rs, gpa, g);
    }
    assert (512 * b) / 512 == b;
  }

  lemma RemoveKeepsMapped(f: Flat, rs: seq<Region>, g: nat)
    requires Mapped(f, rs)
    ensures Mapped(f.(small := f.small - {g}), rs) && Mapped(f.(huge := f.huge - {g}), rs)
  {
    hide HostPage;
  }

  lemma PageMapped(rs: seq<Region>, gpa: u64)
    requires Regular(rs) && ToHva(rs, gpa) != ADDR_INVAL
    ensures HostPage(rs, gpa / 4096).Some?
  {
    var i := GpaOwner(rs, gpa);
    PageBase(gpa, rs[i].gpa);
    GpaHit(rs, i, 4096 * (gpa / 4096));
  }

  lemma PageBase(a: nat, base: nat)
    requires base <= a && base % 4096 == 0
    ensures base <= 4096 * (a / 4096) <= a
  {
  }

  // ---- runs ----

  datatype Op =
    | Fault(gpa: u64, write: bool, ad: bool, pin: Ept.Pin, seen: nat)
    | Start(start: u64, end: u64)
    | End
    | Invalidate(hva: u64)

  /** What the environment keeps to: guest addresses below 2^48, host ranges of user space, one end for each start. */
  predicate Enabled(op: Op, count: nat) {
    match op
    case Fault(gpa, _, _, _, _) => gpa < 0x1_0000_0000_0000
    case Start(start, end) => start + 0x20_2000 < W && end + 0x20_2000 < W
    case End => count > 0
    case Invalidate(_) => true
  }

  /** What decides how the table goes on: the leaves, the two notifier fields, the blocks that have a 4K table, and
      whether the allocator is out of pages. */
  datatype View = View(f: Flat, count: nat, sequence: nat, tables: set<nat>, full: bool)

  ghost function TablesOf(node: Nodes): set<nat> { set k | k in node && k.level == 0 :: k.prefix }

  lemma InTables(node: Nodes)
    ensures forall b :: b in TablesOf(node) <==> Key(0, b) in node
  {
    forall b ensures b in TablesOf(node) <==> Key(0, b) in node {
      if Key(0, b) in node { assert Key(0, b).prefix in TablesOf(node); }
    }
  }

  ghost function ViewOf(t: Ept.Table): View
    reads t
  {
    View(t.F(), t.notifierCount, t.notifierSeq, TablesOf(t.node), t.free == {})
  }

  /** The fault gets as far as the entry: the address is mapped, the page pinned, and no invalidation in the way. */
  predicate Reaches(rs: seq<Region>, w: View, op: Op)
    requires op.Fault?
  {
    ToHva(rs, op.gpa) != ADDR_INVAL && (op.pin.Page? || op.pin.Pfn?) && w.count == 0 && w.sequence == op.seen
  }

  /** It installs a 2M leaf. */
  predicate Wide(rs: seq<Region>, w: View, op: Op)
    requires op.Fault?
  {
    op.pin.Page? && op.pin.thp && HugeConsistent(rs, op.gpa) && op.gpa / 4096 / 512 !in w.tables
  }

  /** The ways a fault ends without a new leaf once it has got there: no memory for a directory that is missing, or a
      2M leaf in the way of a 4K one. */
  predicate Skips(rs: seq<Region>, w: View, op: Op, w': View)
    requires op.Fault?
  {
    && w' == w.(full := w'.full)
    && ((w'.full && FlatWalk(w.f, op.gpa / 4096) == Miss) || (!Wide(rs, w, op) && op.gpa / 4096 / 512 in w.f.huge))
  }

  /** The leaf it installs otherwise, and with a 4K leaf its table. */
  function Installed(rs: seq<Region>, w: View, op: Op): View
    requires op.Fault? && (op.pin.Page? || op.pin.Pfn?)
  {
    var g, b := op.gpa / 4096, op.gpa / 4096 / 512;
    if Wide(rs, w, op) then w.(f := w.f.(huge := w.f.huge[b := Ept.MakeHuge(op.pin, op.write, op.ad)]))
    else w.(f := w.f.(small := w.f.small[g := Ept.MakeEpte(op.pin, op.write, op.ad)]), tables := w.tables + {b})
  }

  /** The blocks that keep their 4K table in a start. */
  function TablesLeft(rs: seq<Region>, tables: set<nat>, start: nat, end: nat): set<nat> {
    set b | b in tables && !DirHit(rs, b, (start + 0x1F_FFFF) / 0x20_0000, end / 0x20_0000)
  }

  /** What one operation does: a fault that gets there sets the one leaf, unless it has a reason to skip; a start clears
      its range; the drop of a page removes the leaf over it and makes running faults retry if there is a leaf or a
      table.  Nothing else changes, and only want of memory is left open. */
  ghost predicate Effect(rs: seq<Region>, w: View, op: Op, w': View) {
    if !Enabled(op, w.count) then w' == w
    else match op
      case Fault(gpa, _, _, _, _) =>
        if !Reaches(rs, w, op) then w' == w
        else
          || Skips(rs, w, op, w')
          || (w' == Installed(rs, w, op).(full := w'.full) && (Wide(rs, w, op) || gpa / 4096 / 512 !in w.f.huge))
      case Start(start, end) =>
        w' == w.(f := ClearRange(w.f, rs, start, end), count := w.count + 1,
                 tables := TablesLeft(rs, w.tables, start, end), full := w'.full)
      case End => w' == w.(count := w.count - 1, sequence := w.sequence + 1)
      case Invalidate(hva) =>
        var g := ToGpa(rs, hva) / 4096;
        if ToGpa(rs, hva) == ADDR_INVAL || (g / 512 !in w.f.huge && g / 512 !in w.tables) then w' == w
        else w' == w.(sequence := w.sequence + 1,
                      f := if g / 512 in w.f.huge then w.f.(huge := w.f.huge - {g / 512})
                           else w.f.(small := w.f.small - {g}))
  }

  /** The operation leaves no counter behind: a 4K leaf is overwritten by one of its kind, and a start gives back no
      table that still holds a counted leaf. */
  ghost predicate Counts(rs: seq<Region>, w: View, op: Op) {
    match op
    case Fault(gpa, _, _, pin, _) =>
      Enabled(op, w.count) && Reaches(rs, w, op) && gpa / 4096 in w.f.small ==> w.f.small[gpa / 4096].pfnmap == pin.Pfn?
    case Start(start, end) => Enabled(op, w.count) ==> Ept.NoneLost(w.f, rs, start, end)
    case _ => true
  }

  ghost predicate Good(t: Ept.Table)
    reads t
  {
    t.Valid() && Regular(t.regions) && Solid(t.regions) && Mapped(t.F(), t.regions)
  }

  /** vmx_do_ept_violation. */
  method Violation(t: Ept.Table, op: Op)
    requires Good(t) && op.Fault? && Enabled(op, t.notifierCount)
    modifies t`pages, t`free, t`node, t`pages4k, t`pages2m
    ensures Good(t) && t.Pool() == old(t.Pool())
    ensures Effect(t.regions, old(ViewOf(t)), op, ViewOf(t))
    ensures old(t.Counted()) ==> (t.Counted() <==> Counts(t.regions, old(ViewOf(t)), op))
  {
    hide Tree, Abs, Ent, Up, Regular, Solid, Mapped, HugeConsistent, Ept.N4K, Ept.N2M, TablesOf;
    var hva := GpaToHva(t.regions, op.gpa);
    if hva == ADDR_INVAL { return; }
    ghost var f, w := t.F(), ViewOf(t);
    InTables(t.node);
    LeavesExclusive(t.root, t.pages, t.node);
    assert op.gpa / 4096 in f.small ==> t.HasTable(op.gpa / 4096 / 512) by { InTable(t, op.gpa / 4096); }
    var o := t.SetEpte(op.gpa, op.write, op.ad, op.pin, op.seen);
    InTables(t.node);
    forall b
      ensures b in TablesOf(t.node) <==> b in w.tables || (o.Small? && b == op.gpa / 4096 / 512)
    {
      assert t.HasTable(b) <==> old(t.HasTable(b)) || (o.Small? && b == op.gpa / 4096 / 512);
    }
    assert TablesOf(t.node) == if o.Small? then w.tables + {op.gpa / 4096 / 512} else w.tables;
    match o
    case Small => SmallKeepsMapped(f, t.regions, op.gpa, Ept.MakeEpte(op.pin, op.write, op.ad));
    case Huge =>
      LeavesExclusive(t.root, t.pages, t.node);
      HugeKeepsMapped(f, t.regions, op.gpa, Ept.MakeHuge(op.pin, op.write, op.ad));
    case _ =>
  }

  /** A page with a 4K leaf has a 4K table. */
  lemma InTable(t: Ept.Table, g: nat)
    requires t.Valid()
    ensures g in t.F().small ==> t.HasTable(g / 512)
  {
  }

  /** One operation.  It keeps the counters right exactly when Counts holds. */
  method OneOp(t: Ept.Table, op: Op)
    requires Good(t)
    modifies t
    ensures Good(t) && t.Pool() == old(t.Pool())
    ensures Effect(t.regions, old(ViewOf(t)), op, ViewOf(t))
    ensures old(t.Counted()) ==> (t.Counted() <==> Counts(t.regions, old(ViewOf(t)), op))
  {
    hide Tree, Abs, Ent, Up, Regular, Solid, Mapped, ClearRange, Ept.NoneLost, HugeConsistent, Ept.N4K, Ept.N2M;
    hide TablesOf, DirHit;
    if !Enabled(op, t.notifierCount) { return; }
    ghost var f := t.F();
    InTables(t.node);
    match op
    case Fault(_, _, _, _, _) => Violation(t, op);
    case Start(start, end) =>
      ghost var tables := TablesOf(t.node);
      t.RangeStart(start, end);
      InTables(t.node);
      forall b
        ensures b in TablesOf(t.node) <==> b in TablesLeft(t.regions, tables, start, end)
      {
        assert t.HasTable(b) <==>
          old(t.HasTable(b)) && !DirHit(t.regions, b, (start + 0x1F_FFFF) / 0x20_0000, end / 0x20_0000);
      }
    case End => t.RangeEnd();
    case Invalidate(hva) =>
      ghost var g := ToGpa(t.regions, hva) / 4096;
      assert g in f.small ==> t.HasTable(g / 512) by { InTable(t, g); }
      var _ := t.InvalidatePage(hva);
      assert g !in f.small ==> f.(small := f.small - {g}) == f;
      RemoveKeepsMapped(f, t.regions, ToGpa(t.regions, hva) / 4096);
      RemoveKeepsMapped(f, t.regions, ToGpa(t.regions, hva) / 4096 / 512);
  }

  /** The views of the table before, between and after the operations. */
  ghost predicate IsTrace(rs: seq<Region>, ws: seq<View>, ops: seq<Op>) {
    |ws| == |ops| + 1 && forall i :: 0 <= i < |ops| ==> Effect(rs, ws[i], ops[i], ws[i + 1])
  }

  lemma LongerTrace(rs: seq<Region>, ws: seq<View>, ops: seq<Op>, w: View, op: Op)
    requires IsTrace(rs, ws, ops) && Effect(rs, ws[|ops|], op, w)
    ensures IsTrace(rs, ws + [w], ops + [op])
  {
    hide Effect;
  }

  /** Over any run the tree keeps its shape, every page the table was given is in the tree once or free once, the leaves
      change as Effect says, and the counters count them as long as each operation does its part. */
  method Run(t: Ept.Table, ops: seq<Op>) returns (ghost ws: seq<View>)
    requires Good(t)
    modifies t
    ensures Good(t) && t.Pool() == old(t.Pool())
    ensures IsTrace(t.regions, ws, ops) && ws[0] == old(ViewOf(t)) && ws[|ops|] == ViewOf(t)
    ensures old(t.Counted()) && (forall i :: 0 <= i < |ops| ==> Counts(t.regions, ws[i], ops[i])) ==> t.Counted()
  {
    hide Effect, Counts, Good, ViewOf, Abs, Tree;
    ws := [ViewOf(t)];
    for i := 0 to |ops|
      invariant Good(t) && t.Pool() == old(t.Pool())
      invariant IsTrace(t.regions, ws, ops[..i]) && ws[0] == old(ViewOf(t)) && ws[i] == ViewOf(t)
      invariant old(t.Counted()) && (forall k :: 0 <= k < i ==> Counts(t.regions, ws[k], ops[k])) ==> t.Counted()
    {
      OneOp(t, ops[i]);
      LongerTrace(t.regions, ws, ops[..i], ViewOf(t), ops[i]);
      ws := ws + [ViewOf(t)];
      assert ops[..i + 1] == ops[..i] + [ops[i]];
    }
    assert ops[..|ops|] == ops;
  }

  /** After any run teardown gives back every page, each of them once. */
  method RunAndFree(t: Ept.Table, ops: seq<Op>)
    requires Good(t)
    modifies t
    ensures t.pages == map[] && t.free == old(t.Pool())
  {
    ghost var _ := Run(t, ops);
    t.FreeEpt();
  }

  // ---- what one region per block is for ----

  /** Two regions that share the first 2M of guest memory. */
  const SHARED: seq<Region> := [Region(0x4000_0000, 0, 0x10_0000), Region(0x8010_0000, 0x10_0000, 0x10_0000)]

  lemma SharedRegular()
    ensures Regular(SHARED)
  {
  }

  lemma SharedPages()
    ensures HostPage(SHARED, 0) == Some(0x40000) && HostPage(SHARED, 256) == Some(0x80100)
  {
    SharedRegular();
    GpaHit(SHARED, 0, 0);
    GpaHit(SHARED, 1, 0x10_0000);
  }

  /** Clearing the host block of the first region gives back the 4K table of the shared guest block, and with it a
      leaf of the other region, outside the range, that stays counted. */
  lemma SharedBlockLosesLeaf(e: Epte) returns (f: Flat, start: u64, end: u64)
    requires Leaf4K(e) && !e.pfnmap
    ensures Regular(SHARED) && Mapped(f, SHARED) && 256 in f.small && !SmallIn(SHARED, 256, start / 4096, end / 4096)
    ensures 256 !in ClearRange(f, SHARED, start, end).small && !Ept.NoneLost(f, SHARED, start, end)
  {
    SharedRegular();
    SharedPages();
    f, start, end := Flat(map[256 := e], map[]), 0x4000_0000, 0x4020_0000;
    hide HostPage;
    assert DirHit(SHARED, 0, 0x200, 0x201);
    var f1 := Pass1(f, SHARED, 0x40000, 0x40200);
    assert 256 in f1.small && 256 in Ept.Acc4K(f1);
  }
}
