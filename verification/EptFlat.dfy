// The flat meaning of the nested table: which guest pages and 2M blocks have a leaf, and what the range clear
// of ept.c (lines 737-809) does to them.  Pages are numbered: g guest pages, h host pages, b guest blocks.

module EptFlat {
  import opened Regions
  import opened EptTree

  datatype Option<T> = None | Some(value: T)

  datatype Flat = Flat(small: map<nat, Epte>, huge: map<nat, Epte>)

  // ---- addresses as page numbers ----

  function HostPage(rs: seq<Region>, g: nat): Option<nat> {
    if 4096 * g >= W || ToHva(rs, 4096 * g) == ADDR_INVAL then None else Some(ToHva(rs, 4096 * g) / 4096)
  }

  function GuestPage(rs: seq<Region>, h: nat): Option<nat> {
    if 4096 * h >= W || ToGpa(rs, 4096 * h) == ADDR_INVAL then None else Some(ToGpa(rs, 4096 * h) / 4096)
  }

  /** What the code relies on but does not test: disjoint, non-wrapping regions below 2^48, with host and guest
      addresses equal modulo 2M. */
  ghost predicate Regular(rs: seq<Region>) {
    && Checked(rs) && HvaPlaced(rs) && DisjointGpa(rs) && DisjointHva(rs)
    && forall i :: 0 <= i < |rs| ==>
         rs[i].gpa + rs[i].size <= 0x1_0000_0000_0000 && rs[i].hva % 0x20_0000 == rs[i].gpa % 0x20_0000
  }

  /** No 2M guest block is shared by two regions. */
  ghost predicate OneRegionPerBlock(rs: seq<Region>) {
    forall i, j, a: u64, c: u64 :: 0 <= i < |rs| && 0 <= j < |rs| && rs[i].HasGpa(a) && rs[j].HasGpa(c)
                                   && a / 0x20_0000 == c / 0x20_0000
      ==> i == j
  }

  lemma HostPageFacts(rs: seq<Region>, g: nat) returns (i: nat)
    requires Regular(rs) && HostPage(rs, g).Some?
    ensures i < |rs| && rs[i].HasGpa(4096 * g)
    ensures 4096 * HostPage(rs, g).value == rs[i].hva + (4096 * g - rs[i].gpa)
    ensures GuestPage(rs, HostPage(rs, g).value) == Some(g)
    ensures HostPage(rs, g).value % 512 == g % 512 && g < GPNS
  {
    i := GpaOwner(rs, 4096 * g);
    GpaHit(rs, i, 4096 * g);
    GpaRoundTrip(rs, 4096 * g);
    BelowTop(rs, i, g);
    hide ToGpa, ToHva, Checked, HvaPlaced, DisjointGpa, DisjointHva;
    SameOffset(rs[i].hva, rs[i].gpa, 4096 * g);
    WholePage(ToHva(rs, 4096 * g));
    assert HostPage(rs, g).value * 4096 == ToHva(rs, 4096 * g);
  }

  lemma BelowTop(rs: seq<Region>, i: nat, g: nat)
    requires Regular(rs) && i < |rs| && 4096 * g < W && rs[i].HasGpa(4096 * g)
    ensures g < GPNS
  {
    hide ToGpa, ToHva, HvaPlaced, DisjointGpa, DisjointHva;
  }

  lemma GuestPageFacts(rs: seq<Region>, h: nat)
    requires Regular(rs) && GuestPage(rs, h).Some?
    ensures HostPage(rs, GuestPage(rs, h).value) == Some(h)
  {
    var i := HvaOwner(rs, 4096 * h);
    HvaHit(rs, i, 4096 * h);
    HvaRoundTrip(rs, 4096 * h);
    hide ToGpa, ToHva, Checked, HvaPlaced, DisjointGpa, DisjointHva;
    SameOffset(rs[i].gpa, rs[i].hva, 4096 * h);
    assert GuestPage(rs, h).value * 4096 == ToGpa(rs, 4096 * h) by { WholePage(ToGpa(rs, 4096 * h)); }
  }

  lemma WholePage(a: nat)
    requires a % 4096 == 0
    ensures a / 4096 * 4096 == a && 4096 * (a / 4096) == a
  {
  }

  lemma SameOffset(a: nat, c: nat, x: nat)
    requires a % 0x20_0000 == c % 0x20_0000 && x % 4096 == 0 && x >= c
    ensures (a + (x - c)) % 4096 == 0
    ensures ((a + (x - c)) / 4096) % 512 == (x / 4096) % 512
  {
    var d, k := a / 0x20_0000 - c / 0x20_0000, x / 4096;
    assert a + (x - c) == 4096 * (k + 512 * d);
    Mod512(k, d);
  }

  lemma Mod512(k: nat, d: int)
    requires k + 512 * d >= 0
    ensures (k + 512 * d) % 512 == k % 512
  {
  }

  // ---- leaves and where they are in host memory ----

  /** Every 4K leaf is at a mapped page; every 2M leaf covers a block that one region maps in a straight line. */
  ghost predicate Mapped(f: Flat, rs: seq<Region>) {
    && (forall g :: g in f.small ==> HostPage(rs, g).Some? && g / 512 !in f.huge)
    && (forall b :: b in f.huge ==> HostPage(rs, 512 * b).Some?)
    && (forall b, g :: b in f.huge && g / 512 == b ==>
          HostPage(rs, g) == Some(HostPage(rs, 512 * b).value + g % 512))
  }

  predicate SmallIn(rs: seq<Region>, g: nat, lo: nat, hi: nat) {
    HostPage(rs, g).Some? && lo <= HostPage(rs, g).value < hi
  }

  /** The 2M leaf b and the host pages [lo, hi) have a page in common. */
  predicate HugeMeets(rs: seq<Region>, b: nat, lo: nat, hi: nat) {
    HostPage(rs, 512 * b).Some? && HostPage(rs, 512 * b).value < hi && lo < HostPage(rs, 512 * b).value + 512 && lo < hi
  }

  /** The 2M leaf b starts inside [lo, hi) and the range ends strictly inside it. */
  predicate Straddles(rs: seq<Region>, b: nat, lo: nat, hi: nat) {
    HostPage(rs, 512 * b).Some? && lo <= HostPage(rs, 512 * b).value < hi < HostPage(rs, 512 * b).value + 512
  }

  // ---- the two passes ----

  /** ept_clear_page_table over host pages [lo, hi): 4K leaves in the range, and the 2M leaf whose block
      the range starts strictly inside. */
  predicate HugeCut(rs: seq<Region>, b: nat, lo: nat, hi: nat) {
    lo < hi && HostPage(rs, 512 * b).Some? && HostPage(rs, 512 * b).value < lo < HostPage(rs, 512 * b).value + 512
  }

  function Pass1(f: Flat, rs: seq<Region>, lo: nat, hi: nat): Flat {
    Flat(map g | g in f.small && !SmallIn(rs, g, lo, hi) :: f.small[g],
         map b | b in f.huge && !HugeCut(rs, b, lo, hi) :: f.huge[b])
  }

  /** ept_clear_page_directory over host blocks [lo, hi): the 2M leaf or the whole 4K table of the block. */
  predicate DirHit(rs: seq<Region>, b: nat, lo: nat, hi: nat) {
    HostPage(rs, 512 * b).Some? && lo <= HostPage(rs, 512 * b).value / 512 < hi
  }

  function Pass2(f: Flat, rs: seq<Region>, lo: nat, hi: nat): Flat {
    Flat(map g | g in f.small && !DirHit(rs, g / 512, lo, hi) :: f.small[g],
         map b | b in f.huge && !DirHit(rs, b, lo, hi) :: f.huge[b])
  }

  /** Both passes over the byte range [start, end), with the alignments of ept.c:746-747 and ept.c:794-795. */
  function ClearRange(f: Flat, rs: seq<Region>, start: nat, end: nat): Flat {
    Pass2(Pass1(f, rs, start / 4096, (end + 4095) / 4096), rs, (start + 0x1F_FFFF) / 0x20_0000, end / 0x20_0000)
  }

  /** A table the second pass gives back holds only pages of the range. */
  lemma DroppedTableInRange(rs: seq<Region>, g: nat, lo: nat, hi: nat)
    requires Regular(rs) && OneRegionPerBlock(rs)
    requires HostPage(rs, g).Some? && DirHit(rs, g / 512, lo, hi)
    ensures SmallIn(rs, g, 512 * lo, 512 * hi)
  {
    hide HostPage, GuestPage, Regular;
    var i := HostPageFacts(rs, g);
    var b := 512 * (g / 512);
    var j := HostPageFacts(rs, b);
    BlockOf(g);
    BlockOf(b);
    assert i == j by { assert rs[i].HasGpa(4096 * g) && rs[j].HasGpa(4096 * b); }
    SameBlock(HostPage(rs, g).value, HostPage(rs, b).value, g, lo, hi);
  }

  lemma BlockOf(g: nat)
    ensures (4096 * g) / 0x20_0000 == g / 512 && 512 * (g / 512) / 512 == g / 512 && (512 * (g / 512)) % 512 == 0
  {
  }

  lemma SameBlock(h: nat, k: nat, g: nat, lo: nat, hi: nat)
    requires 4096 * h - 4096 * k == 4096 * g - 4096 * (512 * (g / 512)) && k % 512 == 0 && lo <= k / 512 < hi
    ensures 512 * lo <= h < 512 * hi
  {
    assert h == k + g % 512;
  }

  /** The exact set the two passes remove, for a page-aligned range. */
  lemma ClearedExactly(f: Flat, rs: seq<Region>, lo: nat, hi: nat)
    requires Regular(rs) && OneRegionPerBlock(rs) && Mapped(f, rs) && lo < hi
    ensures forall g :: g in ClearRange(f, rs, 4096 * lo, 4096 * hi).small
                   <==> g in f.small && !SmallIn(rs, g, lo, hi)
    ensures forall b :: b in ClearRange(f, rs, 4096 * lo, 4096 * hi).huge
                   <==> b in f.huge && (!HugeMeets(rs, b, lo, hi) || Straddles(rs, b, lo, hi))
  {
    var f' := ClearRange(f, rs, 4096 * lo, 4096 * hi);
    var sb, eb := (4096 * lo + 0x1F_FFFF) / 0x20_0000, (4096 * hi) / 0x20_0000;
    assert (4096 * hi + 4095) / 4096 == hi && (4096 * lo) / 4096 == lo;
    assert sb == (lo + 511) / 512 && eb == hi / 512;
    forall g | g in f.small && !SmallIn(rs, g, lo, hi)
      ensures g in f'.small
    {
      if DirHit(rs, g / 512, sb, eb) {
        DroppedTableInRange(rs, g, sb, eb);
      }
    }
    forall b | b in f.huge
      ensures b in f'.huge <==> !HugeMeets(rs, b, lo, hi) || Straddles(rs, b, lo, hi)
    {
      var i := HostPageFacts(rs, 512 * b);
    }
  }

  /** Nothing of the range is left mapped. */
  ghost predicate RangeEmpty(f: Flat, rs: seq<Region>, lo: nat, hi: nat) {
    && (forall g :: g in f.small ==> !SmallIn(rs, g, lo, hi))
    && (forall b :: b in f.huge ==> !HugeMeets(rs, b, lo, hi))
  }

  /** The clear is total exactly when no 2M leaf that starts in the range contains the range's end. */
  lemma ClearTotalIff(f: Flat, rs: seq<Region>, lo: nat, hi: nat)
    requires Regular(rs) && OneRegionPerBlock(rs) && Mapped(f, rs) && lo < hi
    ensures RangeEmpty(ClearRange(f, rs, 4096 * lo, 4096 * hi), rs, lo, hi)
       <==> forall b :: b in f.huge ==> !Straddles(rs, b, lo, hi)
  {
    var f' := ClearRange(f, rs, 4096 * lo, 4096 * hi);
    ClearedExactly(f, rs, lo, hi);
    if b :| b in f.huge && Straddles(rs, b, lo, hi) {
      assert b in f'.huge && HugeMeets(rs, b, lo, hi);
    }
  }

  lemma ClearKeepsMapped(f: Flat, rs: seq<Region>, start: nat, end: nat)
    requires Mapped(f, rs)
    ensures Mapped(ClearRange(f, rs, start, end), rs)
  {
  }
}
