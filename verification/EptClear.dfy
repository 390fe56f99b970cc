// One step of each range-clear loop of ept.c, on the flat map.

module EptClear {
  import opened Regions
  import opened EptFlat
  import opened EptWalk

  function Min(a: nat, b: nat): nat { if a < b then a else b }

  /** The test for a partly covered 2M leaf (ept.c:761-764): it only ever sees a start inside the leaf. */
  lemma Rounding(s: nat, e: nat)
    requires s < e
    ensures var down, up := s - s % 0x20_0000, (s + 0x1F_FFFF) - (s + 0x1F_FFFF) % 0x20_0000;
      s > down || e < up <==> s % 0x20_0000 > 0
  {
    var q := s / 0x20_0000;
    if s % 0x20_0000 == 0 { RoundUp(q); }
  }

  lemma RoundUp(q: nat)
    ensures (0x20_0000 * q + 0x1F_FFFF) % 0x20_0000 == 0x1F_FFFF
  {
  }

  // ---- the page-table pass, cursor at host page h ----

  /** The 2M leaf b does not contain the cursor h strictly inside. */
  predicate NotInside(rs: seq<Region>, b: nat, h: nat) {
    HostPage(rs, 512 * b).Some? ==> h <= HostPage(rs, 512 * b).value || HostPage(rs, 512 * b).value + 512 <= h
  }

  ghost predicate CursorAt(f0: Flat, f: Flat, rs: seq<Region>, lo: nat, hi: nat, h: nat) {
    && f.small == (map g | g in f0.small && !SmallIn(rs, g, lo, Min(h, hi)) :: f0.small[g])
    && f.huge == (map b | b in f0.huge && !(h > lo && HugeCut(rs, b, lo, hi)) :: f0.huge[b])
    && (h > lo ==> forall b :: b in f0.huge ==> NotInside(rs, b, h))
  }

  /** A page of a 2M leaf comes back from its host page. */
  lemma HugeCovers(f: Flat, rs: seq<Region>, b: nat, h: nat)
    requires Regular(rs) && Mapped(f, rs) && b in f.huge
    ensures HostPage(rs, 512 * b).value <= h < HostPage(rs, 512 * b).value + 512 ==>
      GuestPage(rs, h).Some? && GuestPage(rs, h).value / 512 == b
  {
    hide HostPage, GuestPage, Regular;
    if HostPage(rs, 512 * b).value <= h < HostPage(rs, 512 * b).value + 512 {
      var g := 512 * b + (h - HostPage(rs, 512 * b).value);
      assert g / 512 == b && g % 512 == h - HostPage(rs, 512 * b).value;
      assert HostPage(rs, g) == Some(h);
      var i := HostPageFacts(rs, g);
    }
  }

  /** Where the 2M leaf over page g lies in host memory. */
  lemma HugeBase(f: Flat, rs: seq<Region>, g: nat, h: nat)
    requires Regular(rs) && Mapped(f, rs) && g / 512 in f.huge && GuestPage(rs, h) == Some(g)
    ensures HostPage(rs, 512 * (g / 512)) == Some(h - h % 512) && h % 512 == g % 512
  {
    hide HostPage, GuestPage, Regular;
    GuestPageFacts(rs, h);
    var i := HostPageFacts(rs, g);
    assert HostPage(rs, g) == Some(HostPage(rs, 512 * (g / 512)).value + g % 512);
  }

  lemma StepUnmapped(f0: Flat, f: Flat, rs: seq<Region>, lo: nat, hi: nat, h: nat)
    requires Regular(rs) && Mapped(f0, rs) && lo <= h < hi && CursorAt(f0, f, rs, lo, hi, h)
    requires GuestPage(rs, h).None?
    ensures CursorAt(f0, f, rs, lo, hi, h + 1)
  {
    hide HostPage, GuestPage, Regular;
    forall g | g in f0.small ensures HostPage(rs, g) != Some(h) {
      var i := HostPageFacts(rs, g);
    }
    CutOnlyAtStart(f0, f, rs, lo, hi, h);
  }

  lemma StepSmall(f0: Flat, f: Flat, rs: seq<Region>, lo: nat, hi: nat, h: nat)
    requires Regular(rs) && Mapped(f0, rs) && lo <= h < hi && CursorAt(f0, f, rs, lo, hi, h)
    requires GuestPage(rs, h).Some? && GuestPage(rs, h).value / 512 !in f.huge
    ensures CursorAt(f0, f.(small := f.small - {GuestPage(rs, h).value}), rs, lo, hi, h + 1)
  {
    hide HostPage, GuestPage, Regular;
    var g0 := GuestPage(rs, h).value;
    GuestPageFacts(rs, h);
    forall g | g in f0.small
      ensures SmallIn(rs, g, lo, h + 1) <==> SmallIn(rs, g, lo, h) || g == g0
    {
      var i := HostPageFacts(rs, g);
    }
    CutOnlyAtStart(f0, f, rs, lo, hi, h);
  }

  /** If no 2M leaf covers host page h, none is cut there and the cursor may go on to h + 1. */
  lemma CutOnlyAtStart(f0: Flat, f: Flat, rs: seq<Region>, lo: nat, hi: nat, h: nat)
    requires Regular(rs) && Mapped(f0, rs) && lo <= h < hi && CursorAt(f0, f, rs, lo, hi, h)
    requires GuestPage(rs, h).Some? ==> GuestPage(rs, h).value / 512 !in f.huge
    ensures forall b :: b in f0.huge ==> NotInside(rs, b, h + 1)
    ensures h == lo ==> forall b :: b in f0.huge ==> !HugeCut(rs, b, lo, hi)
  {
    hide HostPage, GuestPage, Regular;
    forall b | b in f0.huge
      ensures !(HostPage(rs, 512 * b).value <= h < HostPage(rs, 512 * b).value + 512)
    {
      HugeCovers(f0, rs, b, h);
      assert h > lo ==> NotInside(rs, b, h);
    }
  }

  /** No 4K leaf lies in the host block of a 2M leaf. */
  lemma HugeBlockBare(f: Flat, rs: seq<Region>, b: nat, g: nat)
    requires Regular(rs) && Mapped(f, rs) && b in f.huge && g in f.small
    ensures !(HostPage(rs, 512 * b).value <= HostPage(rs, g).value < HostPage(rs, 512 * b).value + 512)
  {
    hide HostPage, GuestPage, Regular;
    var i := HostPageFacts(rs, g);
    HugeCovers(f, rs, b, HostPage(rs, g).value);
  }

  /** A host block base d lies strictly inside no 2M leaf, and a cursor inside the block of b cuts b only. */
  lemma HugeCutOnce(f: Flat, rs: seq<Region>, b: nat, b': nat, lo: nat, hi: nat)
    requires Regular(rs) && Mapped(f, rs) && b in f.huge && b' in f.huge
    requires lo < hi && HostPage(rs, 512 * b).value <= lo < HostPage(rs, 512 * b).value + 512
    ensures HugeCut(rs, b', lo, hi) <==> b' == b && HostPage(rs, 512 * b).value < lo
  {
    hide HostPage, GuestPage, Regular;
    HugeCovers(f, rs, b, lo);
    HugeCovers(f, rs, b', lo);
  }

  lemma StepHuge(f0: Flat, f: Flat, rs: seq<Region>, lo: nat, hi: nat, h: nat)
    requires Regular(rs) && Mapped(f0, rs) && lo <= h < hi && CursorAt(f0, f, rs, lo, hi, h)
    requires GuestPage(rs, h).Some? && GuestPage(rs, h).value / 512 in f.huge
    ensures var b := GuestPage(rs, h).value / 512;
      CursorAt(f0, if h % 512 > 0 then f.(huge := f.huge - {b}) else f, rs, lo, hi, h - h % 512 + 512)
  {
    hide HostPage, GuestPage, Regular;
    var g := GuestPage(rs, h).value;
    var b, d := g / 512, h - h % 512;
    HugeBase(f0, rs, g, h);
    assert h > lo ==> NotInside(rs, b, h);
    forall g' | g' in f0.small ensures !(d <= HostPage(rs, g').value < d + 512) {
      HugeBlockBare(f0, rs, b, g');
    }
    forall b' | b' in f0.huge ensures NotInside(rs, b', d + 512) {
      HugeApart(f0, rs, b, b');
    }
    if h == lo {
      forall b' | b' in f0.huge ensures HugeCut(rs, b', lo, hi) <==> b' == b && d < h {
        HugeCutOnce(f0, rs, b, b', lo, hi);
      }
    }
  }

  lemma CursorStart(f0: Flat, rs: seq<Region>, lo: nat, hi: nat)
    ensures CursorAt(f0, f0, rs, lo, hi, lo)
  {
  }

  lemma CursorEnd(f0: Flat, f: Flat, rs: seq<Region>, lo: nat, hi: nat, h: nat)
    requires CursorAt(f0, f, rs, lo, hi, h) && lo <= h && h >= hi
    ensures f == Pass1(f0, rs, lo, hi)
  {
  }

  /** One turn of the page-table loop: what it does to the leaf over host page h, and where the cursor goes. */
  lemma StepAny(f0: Flat, f: Flat, rs: seq<Region>, lo: nat, hi: nat, h: nat)
    requires Regular(rs) && Mapped(f0, rs) && lo <= h < hi && CursorAt(f0, f, rs, lo, hi, h)
    ensures match GuestPage(rs, h)
      case None => CursorAt(f0, f, rs, lo, hi, h + 1)
      case Some(g) =>
        if g / 512 in f.huge then
          CursorAt(f0, if h % 512 > 0 then f.(huge := f.huge - {g / 512}) else f, rs, lo, hi, h - h % 512 + 512)
        else CursorAt(f0, f.(small := f.small - {g}), rs, lo, hi, h + 1)
  {
    match GuestPage(rs, h)
    case None => StepUnmapped(f0, f, rs, lo, hi, h);
    case Some(g) =>
      if g / 512 in f.huge { StepHuge(f0, f, rs, lo, hi, h); } else { StepSmall(f0, f, rs, lo, hi, h); }
  }

  /** Two 2M leaves lie in different host blocks. */
  lemma HugeApart(f: Flat, rs: seq<Region>, b: nat, b': nat)
    requires Regular(rs) && Mapped(f, rs) && b in f.huge && b' in f.huge
    ensures HostPage(rs, 512 * b).value % 512 == 0 && HostPage(rs, 512 * b').value % 512 == 0
    ensures HostPage(rs, 512 * b).value == HostPage(rs, 512 * b').value ==> b == b'
  {
    hide HostPage, GuestPage, Regular;
    var i := HostPageFacts(rs, 512 * b);
    var j := HostPageFacts(rs, 512 * b');
  }

  // ---- the page-directory pass ----

  function RemoveBlock(f: Flat, b: nat): Flat {
    Flat(WithoutBlock(f.small, b), f.huge - {b})
  }

  lemma DirHitStep(rs: seq<Region>, b: nat, lo: nat, k: nat)
    requires Regular(rs) && lo <= k
    ensures DirHit(rs, b, lo, k + 1) <==> DirHit(rs, b, lo, k) || GuestPage(rs, 512 * k) == Some(512 * b)
  {
    hide HostPage, GuestPage, Regular;
    if HostPage(rs, 512 * b).Some? {
      var i := HostPageFacts(rs, 512 * b);
    }
    if GuestPage(rs, 512 * k).Some? {
      GuestPageFacts(rs, 512 * k);
    }
  }

  lemma DirStep(f: Flat, rs: seq<Region>, lo: nat, k: nat)
    requires Regular(rs) && lo <= k
    ensures match GuestPage(rs, 512 * k)
      case None => Pass2(f, rs, lo, k + 1) == Pass2(f, rs, lo, k)
      case Some(g) => Pass2(f, rs, lo, k + 1) == RemoveBlock(Pass2(f, rs, lo, k), g / 512) && g % 512 == 0
  {
    hide HostPage, GuestPage, Regular, DirHit;
    forall b: nat
      ensures DirHit(rs, b, lo, k + 1) <==> DirHit(rs, b, lo, k) || GuestPage(rs, 512 * k) == Some(512 * b)
    {
      DirHitStep(rs, b, lo, k);
    }
    match GuestPage(rs, 512 * k)
    case None =>
    case Some(g) =>
      GuestPageFacts(rs, 512 * k);
      var i := HostPageFacts(rs, g);
      assert g == 512 * (g / 512);
  }

  lemma DirStart(f: Flat, rs: seq<Region>, lo: nat, hi: nat)
    requires hi <= lo
    ensures Pass2(f, rs, lo, hi) == f
  {
    assert Pass2(f, rs, lo, hi).small == f.small && Pass2(f, rs, lo, hi).huge == f.huge;
  }

  /** With one region per block the second pass gives back only tables that the first pass has emptied. */
  lemma DroppedTablesEmpty(f: Flat, rs: seq<Region>, start: nat, end: nat)
    requires Regular(rs) && OneRegionPerBlock(rs) && Mapped(f, rs)
    ensures var f1 := Pass1(f, rs, start / 4096, (end + 4095) / 4096);
      forall g :: g in f1.small ==> !DirHit(rs, g / 512, (start + 0x1F_FFFF) / 0x20_0000, end / 0x20_0000)
  {
    hide HostPage, Regular, OneRegionPerBlock;
    var sb, eb := (start + 0x1F_FFFF) / 0x20_0000, end / 0x20_0000;
    forall g | g in f.small && DirHit(rs, g / 512, sb, eb)
      ensures SmallIn(rs, g, start / 4096, (end + 4095) / 4096)
    {
      DroppedTableInRange(rs, g, sb, eb);
    }
  }
}
