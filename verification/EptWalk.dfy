// The processor's walk of the nested table (section 28.2.2 of the Intel SDM Vol. 3C) and the flat map it stands for.

module EptWalk {
  import opened EptTree
  import opened EptFlat

  /** ADDR_TO_IDX: nine address bits per level. */
  function AddrToIdx(gpa: nat, n: nat): nat
    requires n <= 3
  {
    (if n == 0 then gpa / 0x1000 else if n == 1 then gpa / 0x20_0000
     else if n == 2 then gpa / 0x4000_0000 else gpa / 0x80_0000_0000) % 512
  }

  lemma IdxIsSlot(gpa: nat, n: nat)
    requires n <= 3
    ensures AddrToIdx(gpa, n) == Up(gpa / 4096, n) % 512
  {
    var g := gpa / 4096;
    assert Up(g, 1) == g / 512;
    assert Up(g, 2) == g / 512 / 512;
    assert Up(g, 3) == g / 512 / 512 / 512;
  }

  datatype Hit = Miss | Hit(level: nat, entry: Epte)

  /** What entry e on the way leaves of the rights of what lies below. */
  function Below(e: Epte, hit: Hit): Hit {
    match hit
    case Miss => Miss
    case Hit(l, f) => Hit(l, f.(r := e.r && f.r, w := e.w && f.w, x := e.x && f.x))
  }

  /** The leaf a walk ends in, with the rights that all levels give together. */
  function Walk(pages: Pages, dir: nat, l: nat, g: nat): Hit
    decreases l
  {
    if dir !in pages || |pages[dir]| != 512 then Miss
    else
      var e := pages[dir][Up(g, l) % 512];
      if !Present(e) then Miss
      else if l == 0 || (l == 1 && e.huge) then Hit(l, e)
      else Below(e, Walk(pages, e.pfn, l - 1, g))
  }

  function FlatWalk(f: Flat, g: nat): Hit {
    if g / 512 in f.huge then Hit(1, f.huge[g / 512])
    else if g in f.small then Hit(0, f.small[g])
    else Miss
  }

  ghost function SmallOf(pages: Pages, node: Nodes): map<nat, Epte> {
    map g: nat | g < GPNS && Present(Ent(pages, node, 0, g)) :: Ent(pages, node, 0, g)
  }

  ghost function HugeOf(pages: Pages, node: Nodes): map<nat, Epte> {
    map b: nat | b < BLOCKS && Present(Ent(pages, node, 1, b)) && Ent(pages, node, 1, b).huge :: Ent(pages, node, 1, b)
  }

  /** The flat map a table stands for. */
  ghost function Abs(pages: Pages, node: Nodes): Flat {
    Flat(SmallOf(pages, node), HugeOf(pages, node))
  }

  lemma WalkFrom(root: nat, pages: Pages, node: Nodes, l: nat, g: nat)
    requires Tree(root, pages, node) && g < GPNS && l <= 3
    requires Key(l, Up(g, l) / 512) in node
    requires l == 0 ==> g / 512 !in Abs(pages, node).huge
    ensures Walk(pages, node[Key(l, Up(g, l) / 512)], l, g) == FlatWalk(Abs(pages, node), g)
    decreases l
  {
    var y := Up(g, l);
    var e := Ent(pages, node, l, y);
    assert Slotted(pages, node, l, y);
    if l >= 1 && Present(e) && !e.huge {
      assert node[Key(l - 1, Up(g, l - 1) / 512)] == e.pfn;
      if l == 1 { assert y == g / 512; }
      WalkFrom(root, pages, node, l - 1, g);
    } else if l >= 1 && !Present(e) {
      NoTableBelow(root, pages, node, l, g);
    } else if l == 1 {
      assert y == g / 512;
    }
  }

  /** Below an empty slot there is no leaf. */
  lemma NoTableBelow(root: nat, pages: Pages, node: Nodes, l: nat, g: nat)
    requires Tree(root, pages, node) && g < GPNS && 1 <= l <= 3
    requires !Present(Ent(pages, node, l, Up(g, l)))
    ensures FlatWalk(Abs(pages, node), g) == Miss
    decreases l
  {
    var k := Key(l - 1, Up(g, l));
    assert k in node ==> Linked(pages, node, k);
    assert Up(g, l) == Up(g, l - 1) / 512;
    if l == 1 {
      assert Up(g, 1) == g / 512;
    } else {
      NoTableBelow(root, pages, node, l - 1, g);
    }
  }

  lemma UpBound(g: nat)
    requires g < GPNS
    ensures Up(g, 1) == g / 512 < Bound(0)
    ensures Up(g, 2) == Up(g, 1) / 512 < Bound(1)
    ensures Up(g, 3) == Up(g, 2) / 512 < Bound(2)
    ensures Up(g, 3) / 512 == 0
  {
    assert Up(g, 0) == g;
  }

  /** The walk from the root is the flat map. */
  lemma WalkIsFlat(root: nat, pages: Pages, node: Nodes, g: nat)
    requires Tree(root, pages, node) && g < GPNS
    ensures Walk(pages, root, 3, g) == FlatWalk(Abs(pages, node), g)
  {
    UpBound(g);
    WalkFrom(root, pages, node, 3, g);
  }

  /** No page has both a 4K leaf and a 2M leaf over it. */
  lemma LeavesExclusive(root: nat, pages: Pages, node: Nodes)
    requires Tree(root, pages, node)
    ensures forall g :: g in Abs(pages, node).small ==> g / 512 !in Abs(pages, node).huge
  {
    forall g | g in Abs(pages, node).small
      ensures g / 512 !in Abs(pages, node).huge
    {
      assert Linked(pages, node, Key(0, g / 512));
    }
  }

  /** Where a lookup for level 0 or 1 stops: at the 2M leaf if there is one. */
  function StopLevel(f: Flat, g: nat, level: nat): nat {
    if level == 0 && g / 512 in f.huge then 1 else level
  }

  /** Two pages share the slot a level-0 lookup returns only if they are one page or one 2M leaf covers both. */
  lemma DistinctSlots(root: nat, pages: Pages, node: Nodes, g: nat, g': nat)
    requires Tree(root, pages, node) && g < GPNS && g' < GPNS
    requires var l, l' := StopLevel(Abs(pages, node), g, 0), StopLevel(Abs(pages, node), g', 0);
      && Key(l, Up(g, l) / 512) in node && Key(l', Up(g', l') / 512) in node
      && node[Key(l, Up(g, l) / 512)] == node[Key(l', Up(g', l') / 512)] && Up(g, l) % 512 == Up(g', l') % 512
    ensures g == g' || (g / 512 == g' / 512 && g / 512 in Abs(pages, node).huge)
  {
    var f := Abs(pages, node);
    var l, l' := StopLevel(f, g, 0), StopLevel(f, g', 0);
    assert Key(l, Up(g, l) / 512) == Key(l', Up(g', l') / 512);
    assert Up(g, 1) == g / 512 && Up(g', 1) == g' / 512;
  }

  // ---- what the three table updates mean on the flat map ----

  lemma SmallOfPut(pages: Pages, node: Nodes, pages': Pages, node': Nodes, g: nat, e: Epte)
    requires g < GPNS && (e == NONE || Leaf4K(e))
    requires forall y :: Ent(pages', node', 0, y) == if y == g then e else Ent(pages, node, 0, y)
    ensures SmallOf(pages', node') == if e == NONE then SmallOf(pages, node) - {g} else SmallOf(pages, node)[g := e]
  {
  }

  lemma SmallOfSame(pages: Pages, node: Nodes, pages': Pages, node': Nodes)
    requires forall y :: Ent(pages', node', 0, y) == Ent(pages, node, 0, y)
    ensures SmallOf(pages', node') == SmallOf(pages, node)
  {
  }

  lemma HugeOfPut(pages: Pages, node: Nodes, pages': Pages, node': Nodes, b: nat, e: Epte)
    requires b < BLOCKS && (Leaf2M(e) || !e.huge)
    requires forall y :: Ent(pages', node', 1, y) == if y == b then e else Ent(pages, node, 1, y)
    ensures HugeOf(pages', node') == if e.huge then HugeOf(pages, node)[b := e] else HugeOf(pages, node) - {b}
  {
  }

  lemma HugeOfSame(pages: Pages, node: Nodes, pages': Pages, node': Nodes)
    requires forall y :: Ent(pages', node', 1, y) == Ent(pages, node, 1, y)
    ensures HugeOf(pages', node') == HugeOf(pages, node)
  {
  }

  lemma PutSmallAbs(root: nat, pages: Pages, node: Nodes, g: nat, e: Epte)
    requires Tree(root, pages, node) && Key(0, g / 512) in node && g < GPNS && (e == NONE || Leaf4K(e))
    ensures var f := Abs(pages, node);
      Abs(Put(pages, node, 0, g, e), node) == f.(small := if e == NONE then f.small - {g} else f.small[g := e])
  {
    var pages' := Put(pages, node, 0, g, e);
    forall l: nat, y: nat ensures Ent(pages', node, l, y) == if l == 0 && y == g then e else Ent(pages, node, l, y) {
      PutEnt(root, pages, node, 0, g, e, l, y);
    }
    SmallOfPut(pages, node, pages', node, g, e);
    HugeOfSame(pages, node, pages', node);
  }

  lemma PutHugeAbs(root: nat, pages: Pages, node: Nodes, b: nat, e: Epte)
    requires Tree(root, pages, node) && Key(1, b / 512) in node && b < BLOCKS && (e == NONE || Leaf2M(e))
    ensures var f := Abs(pages, node);
      Abs(Put(pages, node, 1, b, e), node) == f.(huge := if e == NONE then f.huge - {b} else f.huge[b := e])
  {
    var pages' := Put(pages, node, 1, b, e);
    forall l: nat, y: nat ensures Ent(pages', node, l, y) == if l == 1 && y == b then e else Ent(pages, node, l, y) {
      PutEnt(root, pages, node, 1, b, e, l, y);
    }
    HugeOfPut(pages, node, pages', node, b, e);
    SmallOfSame(pages, node, pages', node);
  }

  lemma AddAbs(root: nat, pages: Pages, node: Nodes, l: nat, y: nat, p: nat)
    requires Tree(root, pages, node) && 1 <= l <= 3 && Key(l, y / 512) in node
    requires Ent(pages, node, l, y) == NONE && p !in pages && (l == 1 ==> y < BLOCKS)
    ensures Abs(AddPages(pages, node, l, y, p), node[Key(l - 1, y) := p]) == Abs(pages, node)
  {
    var pages', node' := AddPages(pages, node, l, y, p), node[Key(l - 1, y) := p];
    forall l': nat, y': nat
      ensures Ent(pages', node', l', y') == if l' == l && y' == y then Table(p) else Ent(pages, node, l', y')
    {
      AddEnt(root, pages, node, l, y, p, l', y');
    }
    SmallOfSame(pages, node, pages', node');
    if l == 1 {
      assert y !in HugeOf(pages, node);
      HugeOfPut(pages, node, pages', node', y, Table(p));
    } else {
      HugeOfSame(pages, node, pages', node');
    }
  }

  /** The 4K leaves of block b gone. */
  function WithoutBlock(m: map<nat, Epte>, b: nat): map<nat, Epte> {
    map g | g in m && g / 512 != b :: m[g]
  }

  lemma SmallOfDrop(pages: Pages, node: Nodes, pages': Pages, node': Nodes, b: nat)
    requires forall z: nat :: Ent(pages', node', 0, z) == if z / 512 == b then NONE else Ent(pages, node, 0, z)
    ensures SmallOf(pages', node') == WithoutBlock(SmallOf(pages, node), b)
  {
  }

  lemma DropAbs(root: nat, pages: Pages, node: Nodes, l: nat, y: nat)
    requires Tree(root, pages, node) && 1 <= l <= 3 && Key(l, y / 512) in node && Key(l - 1, y) in node
    requires Bottom(pages, node, l, y) && (l == 1 ==> y < BLOCKS)
    ensures var f := Abs(pages, node);
      Abs(DropPages(pages, node, l, y), node - {Key(l - 1, y)})
      == if l == 1 then f.(small := WithoutBlock(f.small, y)) else f
  {
    var pages', node' := DropPages(pages, node, l, y), node - {Key(l - 1, y)};
    assert Linked(pages, node, Key(l - 1, y));
    forall l': nat, y': nat
      ensures Ent(pages', node', l', y') ==
        if (l' == l && y' == y) || (l' == l - 1 && y' / 512 == y) then NONE else Ent(pages, node, l', y')
    {
      DropEnt(root, pages, node, l, y, l', y');
    }
    if l == 1 {
      SmallOfDrop(pages, node, pages', node', y);
      assert y !in HugeOf(pages, node);
      HugeOfPut(pages, node, pages', node', y, NONE);
    } else {
      SmallOfSame(pages, node, pages', node');
      HugeOfSame(pages, node, pages', node');
    }
  }
}
