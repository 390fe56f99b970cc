// Memory regions of an instance (mm.c) and the 2M consistency test (ept.c).
// Addresses are 64-bit words: every addition and subtraction of the code wraps, and the
// wrap is written out here.  4096 is the page size and 0x20_0000 the 2M huge page size.

module Regions {

  const W: nat := 0x1_0000_0000_0000_0000

  type u64 = x: int | 0 <= x < 0x1_0000_0000_0000_0000

  /** The "no such address" sentinel, (unsigned long)-1. */
  const ADDR_INVAL: u64 := 0xFFFF_FFFF_FFFF_FFFF

  function Add(a: u64, b: u64): u64 {
    if a + b < W then a + b else a + b - W
  }

  function Sub(a: u64, b: u64): u64 {
    if a >= b then a - b else a + W - b
  }

  function AlignDown(a: u64): u64 {
    a - a % 0x20_0000
  }

  datatype Region = Region(hva: u64, gpa: u64, size: u64) {
    predicate HasHva(h: u64) { hva <= h && Add(hva, size) > h }
    predicate HasGpa(g: u64) { gpa <= g && Add(gpa, size) > g }
  }

  /** What check_mem_region accepts. */
  predicate Checked(rs: seq<Region>) {
    forall i :: 0 <= i < |rs| ==>
      rs[i].size % 4096 == 0 && rs[i].gpa % 4096 == 0 && rs[i].gpa + rs[i].size < W
  }

  /** Host ranges do not wrap (the kernel never maps such a range). */
  predicate HvaPlaced(rs: seq<Region>) {
    forall i :: 0 <= i < |rs| ==> rs[i].hva + rs[i].size < W
  }

  ghost predicate DisjointGpa(rs: seq<Region>) {
    forall i, j, a :: 0 <= i < |rs| && 0 <= j < |rs| && rs[i].HasGpa(a) && rs[j].HasGpa(a) ==> i == j
  }

  ghost predicate DisjointHva(rs: seq<Region>) {
    forall i, j, a :: 0 <= i < |rs| && 0 <= j < |rs| && rs[i].HasHva(a) && rs[j].HasHva(a) ==> i == j
  }

  /** First-match search, as the scanning loops of mm.c do it. */
  function ToGpa(rs: seq<Region>, hva: u64): u64 {
    if rs == [] then ADDR_INVAL
    else if rs[0].HasHva(hva) then Add(rs[0].gpa, Sub(hva, rs[0].hva))
    else ToGpa(rs[1..], hva)
  }

  function ToHva(rs: seq<Region>, gpa: u64): u64 {
    if rs == [] then ADDR_INVAL
    else if rs[0].HasGpa(gpa) then Add(rs[0].hva, Sub(gpa, rs[0].gpa))
    else ToHva(rs[1..], gpa)
  }

  // ---- the loops of mm.c ----

  method CheckMemRegion(rs: seq<Region>) returns (ok: bool)
    ensures ok <==> Checked(rs)
  {
    for i := 0 to |rs|
      invariant Checked(rs[..i])
    {
      var r := rs[i];
      if r.size % 4096 != 0 { return false; }
      if r.gpa % 4096 != 0 { return false; }
      if Add(r.gpa, r.size) < r.gpa { return false; }
      assert rs[..i + 1] == rs[..i] + [r];
    }
    assert rs[..|rs|] == rs;
    return true;
  }

  method HvaToGpa(rs: seq<Region>, hva: u64) returns (gpa: u64)
    ensures gpa == ToGpa(rs, hva)
    ensures (forall i :: 0 <= i < |rs| ==> !rs[i].HasHva(hva)) ==> gpa == ADDR_INVAL
    ensures forall i :: 0 <= i < |rs| && rs[i].HasHva(hva) && (forall j :: 0 <= j < i ==> !rs[j].HasHva(hva)) ==>
      gpa == Add(rs[i].gpa, hva - rs[i].hva)
  {
    gpa := ADDR_INVAL;
    assert rs[0..] == rs;
    for i := 0 to |rs|
      invariant ToGpa(rs, hva) == ToGpa(rs[i..], hva) && forall j :: 0 <= j < i ==> !rs[j].HasHva(hva)
      invariant gpa == ADDR_INVAL
    {
      if rs[i].HasHva(hva) {
        gpa := Add(rs[i].gpa, Sub(hva, rs[i].hva));
        return;
      }
    }
  }

  method GpaToHva(rs: seq<Region>, gpa: u64) returns (hva: u64)
    ensures hva == ToHva(rs, gpa)
    ensures (forall i :: 0 <= i < |rs| ==> !rs[i].HasGpa(gpa)) ==> hva == ADDR_INVAL
    ensures forall i :: 0 <= i < |rs| && rs[i].HasGpa(gpa) && (forall j :: 0 <= j < i ==> !rs[j].HasGpa(gpa)) ==>
      hva == Add(rs[i].hva, gpa - rs[i].gpa)
  {
    hva := ADDR_INVAL;
    assert rs[0..] == rs;
    for i := 0 to |rs|
      invariant ToHva(rs, gpa) == ToHva(rs[i..], gpa) && forall j :: 0 <= j < i ==> !rs[j].HasGpa(gpa)
      invariant hva == ADDR_INVAL
    {
      if rs[i].HasGpa(gpa) {
        hva := Add(rs[i].hva, Sub(gpa, rs[i].gpa));
        return;
      }
    }
  }

  // ---- which region answers a search ----

  lemma {:induction false} HvaOwner(rs: seq<Region>, hva: u64) returns (i: nat)
    ensures i <= |rs|
    ensures i == |rs| ==> ToGpa(rs, hva) == ADDR_INVAL && forall j :: 0 <= j < |rs| ==> !rs[j].HasHva(hva)
    ensures i < |rs| ==> rs[i].HasHva(hva) && ToGpa(rs, hva) == Add(rs[i].gpa, Sub(hva, rs[i].hva))
  {
    if rs == [] {
      i := 0;
    } else if rs[0].HasHva(hva) {
      i := 0;
    } else {
      i := HvaOwner(rs[1..], hva);
      i := i + 1;
      assert forall j :: 1 <= j < |rs| ==> rs[j] == rs[1..][j - 1];
    }
  }

  lemma {:induction false} GpaOwner(rs: seq<Region>, gpa: u64) returns (i: nat)
    ensures i <= |rs|
    ensures i == |rs| ==> ToHva(rs, gpa) == ADDR_INVAL && forall j :: 0 <= j < |rs| ==> !rs[j].HasGpa(gpa)
    ensures i < |rs| ==> rs[i].HasGpa(gpa) && ToHva(rs, gpa) == Add(rs[i].hva, Sub(gpa, rs[i].gpa))
  {
    if rs == [] {
      i := 0;
    } else if rs[0].HasGpa(gpa) {
      i := 0;
    } else {
      i := GpaOwner(rs[1..], gpa);
      i := i + 1;
      assert forall j :: 1 <= j < |rs| ==> rs[j] == rs[1..][j - 1];
    }
  }

  /** With disjoint guest ranges the search answers from any region that holds the address. */
  lemma GpaHit(rs: seq<Region>, i: nat, gpa: u64)
    requires Checked(rs) && HvaPlaced(rs) && DisjointGpa(rs)
    requires i < |rs| && rs[i].HasGpa(gpa)
    ensures ToHva(rs, gpa) == rs[i].hva + (gpa - rs[i].gpa) != ADDR_INVAL
  {
    var j := GpaOwner(rs, gpa);
    assert rs[j].HasGpa(gpa);
  }

  lemma HvaHit(rs: seq<Region>, i: nat, hva: u64)
    requires Checked(rs) && HvaPlaced(rs) && DisjointHva(rs)
    requires i < |rs| && rs[i].HasHva(hva)
    ensures ToGpa(rs, hva) == rs[i].gpa + (hva - rs[i].hva) != ADDR_INVAL
  {
    var j := HvaOwner(rs, hva);
    assert rs[j].HasHva(hva);
  }

  // ---- the two searches are mutually inverse ----

  lemma GpaRoundTrip(rs: seq<Region>, gpa: u64)
    requires Checked(rs) && HvaPlaced(rs) && DisjointGpa(rs) && DisjointHva(rs)
    requires ToHva(rs, gpa) != ADDR_INVAL
    ensures ToGpa(rs, ToHva(rs, gpa)) == gpa
    ensures gpa != ADDR_INVAL
  {
    var i := GpaOwner(rs, gpa);
    GpaHit(rs, i, gpa);
    HvaHit(rs, i, ToHva(rs, gpa));
  }

  lemma HvaRoundTrip(rs: seq<Region>, hva: u64)
    requires Checked(rs) && HvaPlaced(rs) && DisjointGpa(rs) && DisjointHva(rs)
    requires ToGpa(rs, hva) != ADDR_INVAL
    ensures ToHva(rs, ToGpa(rs, hva)) == hva
    ensures hva != ADDR_INVAL
  {
    var i := HvaOwner(rs, hva);
    HvaHit(rs, i, hva);
    GpaHit(rs, i, ToGpa(rs, hva));
  }

  /** check_mem_region alone is not enough: it accepts overlapping host ranges, and then a
      guest address can come back as another one. */
  lemma OverlapBreaksRoundTrip() returns (rs: seq<Region>, gpa: u64)
    ensures Checked(rs) && HvaPlaced(rs) && DisjointGpa(rs)
    ensures ToHva(rs, gpa) != ADDR_INVAL && ToGpa(rs, ToHva(rs, gpa)) != gpa
  {
    rs := [Region(0x10000, 0, 4096), Region(0x10000, 4096, 4096)];
    gpa := 4096;
    assert ToHva(rs, gpa) == ToHva(rs[1..], gpa) == 0x10000;
  }

  /** The address of offset hva in region r. */
  lemma Within(rs: seq<Region>, i: nat, hva: u64) returns (gpa: u64)
    requires Checked(rs) && HvaPlaced(rs) && i < |rs| && rs[i].HasHva(hva)
    ensures gpa == rs[i].gpa + (hva - rs[i].hva) && rs[i].HasGpa(gpa)
  {
    gpa := rs[i].gpa + (hva - rs[i].hva);
  }

  /** Every mapped guest address comes back exactly when no two regions share a host address. */
  lemma GpaRoundTripIff(rs: seq<Region>)
    requires Checked(rs) && HvaPlaced(rs) && DisjointGpa(rs)
    ensures (forall gpa: u64 :: ToHva(rs, gpa) != ADDR_INVAL ==> ToGpa(rs, ToHva(rs, gpa)) == gpa) <==> DisjointHva(rs)
  {
    if DisjointHva(rs) {
      forall gpa: u64 | ToHva(rs, gpa) != ADDR_INVAL ensures ToGpa(rs, ToHva(rs, gpa)) == gpa { GpaRoundTrip(rs, gpa); }
    } else {
      var i, j, a: u64 :| 0 <= i < |rs| && 0 <= j < |rs| && rs[i].HasHva(a) && rs[j].HasHva(a) && i != j;
      var x := Within(rs, i, a);
      var y := Within(rs, j, a);
      GpaHit(rs, i, x);
      GpaHit(rs, j, y);
      assert ToHva(rs, x) == a == ToHva(rs, y);
      assert x != y;
    }
  }

  /** Every mapped host address comes back exactly when no two regions share a guest address. */
  lemma HvaRoundTripIff(rs: seq<Region>)
    requires Checked(rs) && HvaPlaced(rs) && DisjointHva(rs)
    ensures (forall hva: u64 :: ToGpa(rs, hva) != ADDR_INVAL ==> ToHva(rs, ToGpa(rs, hva)) == hva) <==> DisjointGpa(rs)
  {
    if DisjointGpa(rs) {
      forall hva: u64 | ToGpa(rs, hva) != ADDR_INVAL ensures ToHva(rs, ToGpa(rs, hva)) == hva { HvaRoundTrip(rs, hva); }
    } else {
      var i, j, a: u64 :| 0 <= i < |rs| && 0 <= j < |rs| && rs[i].HasGpa(a) && rs[j].HasGpa(a) && i != j;
      var x: u64, y: u64 := rs[i].hva + (a - rs[i].gpa), rs[j].hva + (a - rs[j].gpa);
      assert rs[i].HasHva(x) && rs[j].HasHva(y);
      HvaHit(rs, i, x);
      HvaHit(rs, j, y);
      assert ToGpa(rs, x) == a == ToGpa(rs, y);
      assert x != y;
    }
  }

  // ---- check_hugepage_consistency ----

  predicate HugeConsistent(rs: seq<Region>, gpa: u64) {
    var s := ToHva(rs, AlignDown(gpa));
    var e := ToHva(rs, AlignDown(Add(gpa, 0x20_0000)));
    s != ADDR_INVAL && e != ADDR_INVAL && Sub(e, s) == 0x20_0000
  }

  /** gpa_to_hva is one straight line over the 2M block that starts at b. */
  ghost predicate Linear(rs: seq<Region>, b: u64) {
    forall g: u64 :: b <= g < b + 0x20_0000 ==>
      ToHva(rs, g) != ADDR_INVAL && ToHva(rs, g) == ToHva(rs, b) + (g - b)
  }

  ghost predicate NoGap(rs: seq<Region>, b: u64) {
    forall g: u64 :: b <= g < b + 0x20_0000 ==> ToHva(rs, g) != ADDR_INVAL
  }

  /** For every address of a straight block the test passes exactly when the line goes on to the next boundary; it does
      not for the last block of a region that no other continues. */
  lemma StraightIff(rs: seq<Region>, b: u64, gpa: u64)
    requires b % 0x20_0000 == 0 && b + 0x20_0000 < W && b <= gpa < b + 0x20_0000 && Linear(rs, b)
    ensures HugeConsistent(rs, gpa) <==>
      ToHva(rs, b + 0x20_0000) != ADDR_INVAL && ToHva(rs, b + 0x20_0000) == Add(ToHva(rs, b), 0x20_0000)
  {
    hide ToHva;
    assert AlignDown(gpa) == b by { InBlock(b, gpa); }
    if gpa + 0x20_0000 < W {
      assert AlignDown(Add(gpa, 0x20_0000)) == b + 0x20_0000 by { InBlock(b + 0x20_0000, gpa + 0x20_0000); }
    }
    assert ToHva(rs, b) != ADDR_INVAL;
  }

  lemma InBlock(b: nat, a: nat)
    requires b % 0x20_0000 == 0 && b <= a < b + 0x20_0000
    ensures a - a % 0x20_0000 == b
  {
  }

  /** If the region of b stops inside the block, the region that goes on there reaches past the block's end. */
  lemma NextRegion(rs: seq<Region>, b: u64, i: nat, p: u64) returns (j: nat)
    requires Checked(rs) && HvaPlaced(rs) && DisjointGpa(rs)
    requires forall k :: 0 <= k < |rs| ==> rs[k].size >= 0x20_0000
    requires NoGap(rs, b) && b + 0x20_0000 < W
    requires i < |rs| && rs[i].HasGpa(b) && p == rs[i].gpa + rs[i].size && b < p < b + 0x20_0000
    ensures j < |rs| && rs[j].gpa == p && rs[j].HasGpa(b + 0x20_0000)
  {
    j := GpaOwner(rs, p);
    assert j < |rs| && rs[j].HasGpa(p);
    if rs[j].gpa < p {
      assert rs[i].HasGpa(p - 1) && rs[j].HasGpa(p - 1);
      assert false;
    }
  }

  lemma Holds(rs: seq<Region>, i: nat, g: u64)
    requires Checked(rs) && i < |rs|
    ensures rs[i].HasGpa(g) <==> rs[i].gpa <= g < rs[i].gpa + rs[i].size
    ensures rs[i].gpa + rs[i].size < W
  {
  }

  /** Ends that are 2M apart and no gap between them make a line. */
  lemma LineFrom(rs: seq<Region>, b: u64)
    requires Checked(rs) && HvaPlaced(rs) && DisjointGpa(rs)
    requires forall k :: 0 <= k < |rs| ==> rs[k].size >= 0x20_0000
    requires b + 0x20_0000 < W && NoGap(rs, b)
    requires ToHva(rs, b + 0x20_0000) != ADDR_INVAL && Sub(ToHva(rs, b + 0x20_0000), ToHva(rs, b)) == 0x20_0000
    ensures Linear(rs, b)
  {
    hide Checked, DisjointGpa, ToHva;
    var i := GpaOwner(rs, b);
    GpaHit(rs, i, b);
    Holds(rs, i, b);
    var p := rs[i].gpa + rs[i].size;
    forall g: u64 | b <= g < b + 0x20_0000
      ensures ToHva(rs, g) != ADDR_INVAL && ToHva(rs, g) == ToHva(rs, b) + (g - b)
    {
      Holds(rs, i, g);
      if g < p {
        GpaHit(rs, i, g);
      } else {
        var j := NextRegion(rs, b, i, p);
        Holds(rs, j, b + 0x20_0000);
        Holds(rs, j, g);
        GpaHit(rs, j, b + 0x20_0000);
        GpaHit(rs, j, g);
      }
    }
  }

  /** The endpoint test proves the block linear exactly when the block has no gap, for regions of at least 2M. */
  lemma HugeConsistentLinear(rs: seq<Region>, b: u64)
    requires Checked(rs) && HvaPlaced(rs) && DisjointGpa(rs)
    requires forall k :: 0 <= k < |rs| ==> rs[k].size >= 0x20_0000
    requires b % 0x20_0000 == 0 && b + 0x20_0000 < W
    requires HugeConsistent(rs, b)
    ensures Linear(rs, b) <==> NoGap(rs, b)
  {
    hide Checked, HvaPlaced, DisjointGpa, ToHva, AlignDown;
    Aligned(b);
    if NoGap(rs, b) { LineFrom(rs, b); }
  }

  lemma Aligned(b: u64)
    requires b % 0x20_0000 == 0 && b + 0x20_0000 < W
    ensures AlignDown(b) == b && AlignDown(b + 0x20_0000) == b + 0x20_0000
    ensures b % 4096 == 0 && (b + 0x20_0000) % 4096 == 0
  {
    var k := b / 0x20_0000;
    assert b == 0x20_0000 * k;
    WholeBlocks(k);
    WholeBlocks(k + 1);
    WholePages(512 * k);
    WholePages(512 * (k + 1));
  }

  lemma WholeBlocks(k: nat)
    ensures (0x20_0000 * k) % 0x20_0000 == 0
  {
  }

  lemma WholePages(k: nat)
    ensures (4096 * k) % 4096 == 0 && (4096 * k) / 4096 == k
  {
  }

  /** Without the size bound the test accepts a block that has a hole in it, wherever the regions lie. */
  lemma HugeConsistentMissesGap(hva: u64, b: u64) returns (rs: seq<Region>)
    requires hva + 0x40_0000 < W && b + 0x40_0000 < W && b % 0x20_0000 == 0
    ensures Checked(rs) && HvaPlaced(rs) && DisjointGpa(rs) && DisjointHva(rs)
    ensures HugeConsistent(rs, b) && !Linear(rs, b)
  {
    rs := Holed(hva, b);
    GpaHit(rs, 0, b);
    GpaHit(rs, 1, b + 0x20_0000);
    Aligned(b);
    var g: u64 := b + 4096;
    var i := GpaOwner(rs, g);
    assert ToHva(rs, g) == ADDR_INVAL;
  }

  lemma Holed(hva: u64, b: u64) returns (rs: seq<Region>)
    requires hva + 0x40_0000 < W && b + 0x40_0000 < W && b % 0x20_0000 == 0
    ensures rs == [Region(hva, b, 4096), Region(hva + 0x20_0000, b + 0x20_0000, 0x20_0000)]
    ensures Checked(rs) && HvaPlaced(rs) && DisjointGpa(rs) && DisjointHva(rs)
  {
    Aligned(b);
    rs := [Region(hva, b, 4096), Region(hva + 0x20_0000, b + 0x20_0000, 0x20_0000)];
  }

  /** The frame a 4K leaf for page k of the block at b would hold. */
  ghost function SmallFrame(rs: seq<Region>, b: u64, host: nat -> nat, k: nat): nat
    requires k < 512 && b + 0x20_0000 < W
  {
    host(ToHva(rs, b + 4096 * k) / 4096)
  }

  /** Page numbers: the page at offset off from s lies in the 2M run of pages that starts at thp. */
  lemma PageInRun(s: nat, off: nat, thp: nat)
    requires s % 4096 == 0 && thp % 0x20_0000 == 0 && thp <= s + off < thp + 0x20_0000
    ensures thp / 4096 <= s / 4096 + off / 4096 < thp / 4096 + 512
    ensures s / 4096 == thp / 4096 ==> s == thp
  {
    var k, m, t := off / 4096, s / 4096, thp / 4096;
    assert thp == 4096 * t by { BlockPages(thp); }
    assert s == 4096 * m;
  }

  lemma BlockPages(thp: nat)
    requires thp % 0x20_0000 == 0
    ensures thp == 4096 * (thp / 4096)
  {
    WholePages(512 * (thp / 0x20_0000));
  }

  lemma SmallFrameAt(rs: seq<Region>, b: u64, host: nat -> nat, k: nat)
    requires k < 512 && b + 0x20_0000 < W && ToHva(rs, b) % 4096 == 0
    requires ToHva(rs, b + 4096 * k) == ToHva(rs, b) + 4096 * k
    ensures SmallFrame(rs, b, host, k) == host(ToHva(rs, b) / 4096 + k)
  {
    PageShift(ToHva(rs, b), k);
  }

  lemma LinearAt(rs: seq<Region>, b: u64, off: nat)
    requires off < 0x20_0000 && b + 0x20_0000 < W && Linear(rs, b)
    ensures ToHva(rs, b + off) == ToHva(rs, b) + off
  {
  }

  lemma PageShift(s: nat, k: nat)
    requires s % 4096 == 0
    ensures (s + 4096 * k) / 4096 == s / 4096 + k
  {
  }

  /** A 2M leaf at the block of g with the head frame of the transparent huge page at thp translates all
      512 pages as 512 separate 4K leaves would exactly when the host address of the block is 2M-aligned:
      the code does not test this. */
  lemma HugeLeafExact(rs: seq<Region>, g: u64, host: nat -> nat, thp: u64, head: nat)
    requires g + 0x20_0000 < W && Linear(rs, AlignDown(g))
    requires ToHva(rs, AlignDown(g)) % 4096 == 0
    requires thp % 0x20_0000 == 0 && thp <= ToHva(rs, g) < thp + 0x20_0000
    requires forall n: nat :: thp / 4096 <= n < thp / 4096 + 512 ==> host(n) == head + (n - thp / 4096)
    ensures (forall k: nat :: k < 512 ==> head + k == SmallFrame(rs, AlignDown(g), host, k))
       <==> ToHva(rs, AlignDown(g)) % 0x20_0000 == 0
  {
    hide AlignDown, ToHva, Linear, SmallFrame;
    var b := AlignDown(g);
    Down(g);
    LinearAt(rs, b, g - b);
    RunExact(ToHva(rs, b), g - b, host, thp, head);
    if ToHva(rs, b) % 0x20_0000 == 0 {
      forall k: nat | k < 512
        ensures head + k == SmallFrame(rs, b, host, k)
      {
        LinearAt(rs, b, 4096 * k);
        SmallFrameAt(rs, b, host, k);
      }
    } else {
      LinearAt(rs, b, 4096 * ((g - b) / 4096));
      SmallFrameAt(rs, b, host, (g - b) / 4096);
    }
  }

  lemma Down(g: u64)
    ensures AlignDown(g) <= g < AlignDown(g) + 0x20_0000
    ensures (g - AlignDown(g)) / 4096 < 512 && 4096 * ((g - AlignDown(g)) / 4096) < 0x20_0000
  {
    Digits(g % 0x20_0000);
  }

  lemma Digits(off: nat)
    requires off < 0x20_0000
    ensures off / 4096 < 512 && 4096 * (off / 4096) < 0x20_0000
  {
  }

  lemma RunExact(s: nat, off: nat, host: nat -> nat, thp: nat, head: nat)
    requires s % 4096 == 0 && off < 0x20_0000
    requires thp % 0x20_0000 == 0 && thp <= s + off < thp + 0x20_0000
    requires forall n: nat :: thp / 4096 <= n < thp / 4096 + 512 ==> host(n) == head + (n - thp / 4096)
    ensures s % 0x20_0000 == 0 ==> s == thp
    ensures s % 0x20_0000 != 0 ==> host(s / 4096 + off / 4096) != head + off / 4096
  {
    AlignedStart(s, off, thp);
    PageInRun(s, off, thp);
    assert s / 4096 + off / 4096 >= 0;
  }

  lemma AlignedStart(s: nat, off: nat, thp: nat)
    requires off < 0x20_0000 && thp % 0x20_0000 == 0 && thp <= s + off < thp + 0x20_0000
    ensures s % 0x20_0000 == 0 <==> s == thp
  {
    var t, q := thp / 0x20_0000, s / 0x20_0000;
    assert thp == 0x20_0000 * t;
  }
}
