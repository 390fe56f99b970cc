// The nested table of one instance as ept.c updates it, under ept_lock.

module Ept {
  import opened Regions
  import opened EptTree
  import opened EptFlat
  import opened EptWalk
  import opened EptClear

  /** A lookup: the address of an entry, or why there is none. */
  datatype Lookup = Ok(page: nat, idx: nat, level: nat) | ENOENT | ENOMEM | EINVAL

  // ---- what the page counters count ----

  ghost function Acc4K(f: Flat): set<nat> {
    set g | g in f.small && !f.small[g].pfnmap
  }

  ghost function Acc2M(f: Flat): set<nat> {
    f.huge.Keys
  }

  lemma {:induction false} CardBound(s: set<nat>, n: nat)
    requires forall x :: x in s ==> x < n
    ensures |s| <= n
  {
    if n == 0 {
      assert s == {};
    } else {
      CardBound(s - {n - 1}, n - 1);
      assert s <= (s - {n - 1}) + {n - 1};
    }
  }

  lemma AccBound(pages: Pages, node: Nodes)
    ensures N4K(Abs(pages, node)) <= GPNS && N2M(Abs(pages, node)) <= BLOCKS
  {
    CardBound(Acc4K(Abs(pages, node)), GPNS);
    CardBound(Acc2M(Abs(pages, node)), BLOCKS);
  }

  ghost function N4K(f: Flat): nat { |Acc4K(f)| }
  ghost function N2M(f: Flat): nat { |Acc2M(f)| }

  lemma RemoveSmall(f: Flat, g: nat)
    ensures var f' := f.(small := f.small - {g});
      && N4K(f') == N4K(f) - (if g in f.small && !f.small[g].pfnmap then 1 else 0)
      && N2M(f') == N2M(f)
  {
    assert Acc4K(f.(small := f.small - {g})) == Acc4K(f) - {g};
  }

  lemma RemoveHuge(f: Flat, b: nat)
    ensures var f' := f.(huge := f.huge - {b});
      && N2M(f') == N2M(f) - (if b in f.huge then 1 else 0)
      && N4K(f') == N4K(f)
  {
    assert Acc2M(f.(huge := f.huge - {b})) == Acc2M(f) - {b};
    assert Acc4K(f.(huge := f.huge - {b})) == Acc4K(f);
  }

  lemma RemoveBlockHuge(f: Flat, b: nat)
    ensures N2M(RemoveBlock(f, b)) == N2M(f) - (if b in f.huge then 1 else 0)
  {
    assert Acc2M(RemoveBlock(f, b)) == Acc2M(f) - {b};
  }

  /** The second pass gives back no 4K table that still holds a counted leaf. */
  ghost predicate NoneLost(f: Flat, rs: seq<Region>, start: nat, end: nat) {
    forall g :: g in Acc4K(Pass1(f, rs, start / 4096, (end + 4095) / 4096)) ==>
      !DirHit(rs, g / 512, (start + 0x1F_FFFF) / 0x20_0000, end / 0x20_0000)
  }

  lemma LostIff(f: Flat, rs: seq<Region>, lo: nat, hi: nat)
    ensures N4K(Pass2(f, rs, lo, hi)) == N4K(f) <==> forall g :: g in Acc4K(f) ==> !DirHit(rs, g / 512, lo, hi)
  {
    hide DirHit;
    var f' := Pass2(f, rs, lo, hi);
    assert Acc4K(f') <= Acc4K(f);
    if forall g :: g in Acc4K(f) ==> !DirHit(rs, g / 512, lo, hi) {
      assert Acc4K(f') == Acc4K(f);
    }
    if N4K(f') == N4K(f) {
      SameCard(Acc4K(f'), Acc4K(f));
    }
  }

  lemma SameCard(s: set<nat>, t: set<nat>)
    requires s <= t && |s| == |t|
    ensures s == t
  {
    assert t == s + (t - s);
    assert |t| == |s| + |t - s|;
    assert t - s == {};
  }

  lemma NoneLostThen(f: Flat, rs: seq<Region>, start: nat, end: nat)
    requires Regular(rs) && OneRegionPerBlock(rs) && Mapped(f, rs)
    ensures NoneLost(f, rs, start, end)
  {
    hide Regular, OneRegionPerBlock, Mapped, DirHit, Pass1;
    DroppedTablesEmpty(f, rs, start, end);
  }

  lemma InsertSmall(f: Flat, g: nat, e: Epte)
    requires g in f.small ==> f.small[g].pfnmap == e.pfnmap
    ensures var f' := f.(small := f.small[g := e]);
      && N4K(f') == N4K(f) + (if g in f.small || e.pfnmap then 0 else 1)
      && N2M(f') == N2M(f)
  {
    var f' := f.(small := f.small[g := e]);
    assert Acc4K(f') == if e.pfnmap then Acc4K(f) else Acc4K(f) + {g};
  }

  /** A 4K leaf replaced by one of the other kind changes what is to be counted. */
  lemma OtherKind(f: Flat, g: nat, e: Epte)
    requires g in f.small && f.small[g].pfnmap != e.pfnmap
    ensures N4K(f.(small := f.small[g := e])) != N4K(f)
  {
    var f' := f.(small := f.small[g := e]);
    if e.pfnmap {
      assert Acc4K(f') == Acc4K(f) - {g};
    } else {
      assert Acc4K(f') == Acc4K(f) + {g};
    }
  }

  lemma InsertHuge(f: Flat, b: nat, e: Epte)
    ensures var f' := f.(huge := f.huge[b := e]);
      && N2M(f') == N2M(f) + (if b in f.huge then 0 else 1)
      && N4K(f') == N4K(f)
  {
    var f' := f.(huge := f.huge[b := e]);
    assert Acc2M(f') == Acc2M(f) + {b};
    assert Acc4K(f') == Acc4K(f);
  }

  // ---- writes through the entry a lookup returned ----

  lemma AddAll(root: nat, pages: Pages, node: Nodes, g: nat, i: nat, p: nat)
    requires Tree(root, pages, node) && g < GPNS && 1 <= i <= 3 && p !in pages
    requires Key(i, Up(g, i) / 512) in node && Ent(pages, node, i, Up(g, i)) == NONE
    ensures var pages', node' := AddPages(pages, node, i, Up(g, i), p), node[Key(i - 1, Up(g, i)) := p];
      && Tree(root, pages', node') && Abs(pages', node') == Abs(pages, node)
      && Ent(pages', node', i, Up(g, i)) == EptTree.Table(p)
    ensures Key(i - 1, Up(g, i)) !in node
  {
    UpBound(g);
    var y := Up(g, i);
    AddTree(root, pages, node, i, y, p);
    AddAbs(root, pages, node, i, y, p);
    AddEnt(root, pages, node, i, y, p, i, y);
  }

  lemma ClearAll(root: nat, pages: Pages, node: Nodes, l: nat, y: nat)
    requires Tree(root, pages, node) && l <= 1 && Key(l, y / 512) in node && (l == 0 ==> y < GPNS)
    requires l == 1 ==> y < BLOCKS && Ent(pages, node, l, y).huge
    ensures var f, pages' := Abs(pages, node), Put(pages, node, l, y, NONE);
      && Tree(root, pages', node)
      && Abs(pages', node) == if l == 0 then f.(small := f.small - {y}) else f.(huge := f.huge - {y})
  {
    PutLeaf(root, pages, node, l, y, NONE);
    if l == 0 { PutSmallAbs(root, pages, node, y, NONE); } else { PutHugeAbs(root, pages, node, y, NONE); }
  }

  lemma Top(root: nat, pages: Pages, node: Nodes, g: nat)
    requires Tree(root, pages, node) && g < GPNS
    ensures Key(3, Up(g, 3) / 512) in node && node[Key(3, Up(g, 3) / 512)] == root
    ensures Up(g, 0) == g && Up(g, 1) == g / 512 < BLOCKS
  {
    UpBound(g);
  }

  /** One step down the path of page g. */
  lemma SlotFacts(root: nat, pages: Pages, node: Nodes, g: nat, i: nat)
    requires Tree(root, pages, node) && g < GPNS && 1 <= i <= 3 && Key(i, Up(g, i) / 512) in node
    ensures var dir := node[Key(i, Up(g, i) / 512)];
      && dir in pages && |pages[dir]| == 512 && pages[dir][Up(g, i) % 512] == Ent(pages, node, i, Up(g, i))
    ensures var e := Ent(pages, node, i, Up(g, i));
      && (e == NONE || Present(e)) && (e.huge <==> i == 1 && g / 512 in Abs(pages, node).huge)
      && (e != NONE && !e.huge ==> Key(i - 1, Up(g, i)) in node && node[Key(i - 1, Up(g, i))] == e.pfn)
    ensures Up(g, i) == Up(g, i - 1) / 512
  {
    UpBound(g);
    assert Slotted(pages, node, i, Up(g, i));
  }

  /** The entry a 4K lookup stops at, and the leaf of g in the flat map. */
  lemma StopEntry(root: nat, pages: Pages, node: Nodes, g: nat) returns (e: Epte)
    requires Tree(root, pages, node) && g < GPNS
    ensures var l := StopLevel(Abs(pages, node), g, 0); e == Ent(pages, node, l, Up(g, l))
    ensures g / 512 in Abs(pages, node).huge ==> e == Abs(pages, node).huge[g / 512] && Leaf2M(e)
    ensures g / 512 !in Abs(pages, node).huge ==>
      !e.huge && if g in Abs(pages, node).small then e == Abs(pages, node).small[g] && Leaf4K(e) else e == NONE
    ensures g / 512 in Abs(pages, node).huge ==> g !in Abs(pages, node).small
    ensures Up(g, 0) == g && Up(g, 1) == g / 512 < BLOCKS
    ensures var k := Key(StopLevel(Abs(pages, node), g, 0), Up(g, StopLevel(Abs(pages, node), g, 0)) / 512);
      k in node ==> (node[k] in pages && |pages[node[k]]| == 512
                     && e == pages[node[k]][Up(g, StopLevel(Abs(pages, node), g, 0)) % 512])
  {
    var l := StopLevel(Abs(pages, node), g, 0);
    UpBound(g);
    assert Slotted(pages, node, l, Up(g, l));
    LeavesExclusive(root, pages, node);
    e := Ent(pages, node, l, Up(g, l));
  }

  lemma LeafAll(root: nat, pages: Pages, node: Nodes, l: nat, y: nat, e: Epte)
    requires Tree(root, pages, node) && l <= 1 && Key(l, y / 512) in node
    requires if l == 0 then y < GPNS && Leaf4K(e) else y < BLOCKS && Leaf2M(e) && Key(0, y) !in node
    ensures node[Key(l, y / 512)] in pages && |pages[node[Key(l, y / 512)]]| == 512
    ensures var f, pages' := Abs(pages, node), Put(pages, node, l, y, e);
      && Tree(root, pages', node)
      && Abs(pages', node) == if l == 0 then f.(small := f.small[y := e]) else f.(huge := f.huge[y := e])
  {
    assert Slotted(pages, node, l, y);
    PutLeaf(root, pages, node, l, y, e);
    if l == 0 { PutSmallAbs(root, pages, node, y, e); } else { PutHugeAbs(root, pages, node, y, e); }
  }

  /** A present, non-huge directory entry is exactly a 4K table below the block. */
  lemma TableAt(root: nat, pages: Pages, node: Nodes, b: nat)
    requires Tree(root, pages, node) && b < BLOCKS
    ensures Key(0, b) in node <==> Ent(pages, node, 1, b) != NONE && !Ent(pages, node, 1, b).huge
    ensures Key(0, b) in node ==> Key(1, b / 512) in node && Ent(pages, node, 1, b) == EptTree.Table(node[Key(0, b)])
    ensures Key(1, b / 512) in node ==>
      (var d := node[Key(1, b / 512)];
       d in pages && |pages[d]| == 512 && pages[d][b % 512] == Ent(pages, node, 1, b))
    ensures Ent(pages, node, 1, b).huge <==> b in Abs(pages, node).huge
    ensures b in Abs(pages, node).huge ==> Abs(pages, node).huge[b] == Ent(pages, node, 1, b) && Key(0, b) !in node
    ensures Ent(pages, node, 1, b) == NONE || Present(Ent(pages, node, 1, b))
    ensures Ent(pages, node, 1, b).huge ==> Leaf2M(Ent(pages, node, 1, b))
  {
    assert Slotted(pages, node, 1, b);
    assert Key(0, b) in node ==> Linked(pages, node, Key(0, b));
  }

  /** What pinning the host page gave ept_set_epte: a page, with whether it is part of a mapped transparent
      huge page, a raw frame of an IO or PFNMAP area, or an error. */
  datatype Pin = Page(pfn: nat, thp: bool) | Pfn(pfn: nat, mtype: nat) | PinNoMem | PinRestart | PinFault

  datatype Outcome = Retry | Busy | NoTable | Small | Huge | PinError

  const TYPE_WB: nat := 6

  /** ept_flags and the frame, as the 4K entry ept_set_epte builds. */
  function MakeEpte(pin: Pin, write: bool, ad: bool): Epte
    requires pin.Page? || pin.Pfn?
  {
    var mtype := if pin.Pfn? then pin.mtype else TYPE_WB;
    Epte(pin.pfn, true, write, true, false, pin.Pfn?, true, mtype, ad, ad && write)
  }

  /** The same as a 2M entry with the frame of the compound head. */
  function MakeHuge(pin: Pin, write: bool, ad: bool): Epte
    requires pin.Page?
  {
    MakeEpte(pin, write, ad).(pfn := pin.pfn - pin.pfn % 512, huge := true)
  }

  /** The leaf a fault leaves: the guest may read and execute, and write if it was a write fault; pages are write-back
      and raw frames of the type they are mapped with; the A bit is set where there are A and D bits, the D bit with
      a write; the frame is the page's, or the compound head's under a 2M leaf. */
  predicate LeafFor(e: Epte, pin: Pin, write: bool, ad: bool, wide: bool)
    requires pin.Page? || pin.Pfn?
  {
    && e.r && e.x && (e.w <==> write) && (e.huge <==> wide) && (e.pfnmap <==> pin.Pfn?)
    && e.ipat && e.mtype == (if pin.Pfn? then pin.mtype else TYPE_WB) && (e.a <==> ad) && (e.d <==> ad && write)
    && (if wide then e.pfn <= pin.pfn < e.pfn + 512 && e.pfn % 512 == 0 else e.pfn == pin.pfn)
  }

  lemma MadeLeaf(pin: Pin, write: bool, ad: bool)
    requires pin.Page? || pin.Pfn?
    ensures Leaf4K(MakeEpte(pin, write, ad)) && LeafFor(MakeEpte(pin, write, ad), pin, write, ad, false)
    ensures MakeEpte(pin, write, ad).pfnmap == pin.Pfn?
    ensures pin.Page? ==> Leaf2M(MakeHuge(pin, write, ad)) && LeafFor(MakeHuge(pin, write, ad), pin, write, ad, true)
  {
  }

  /** A block with no 2M leaf and no 4K table has nothing to remove. */
  lemma NothingThere(root: nat, pages: Pages, node: Nodes, b: nat)
    requires Tree(root, pages, node) && b < BLOCKS && Key(0, b) !in node && b !in Abs(pages, node).huge
    ensures RemoveBlock(Abs(pages, node), b) == Abs(pages, node)
  {
    var f := Abs(pages, node);
    assert WithoutBlock(f.small, b) == f.small;
    assert f.huge - {b} == f.huge;
  }

  lemma HugeOffset(h: nat)
    ensures 4096 * h / 4096 == h && (4096 * h) % 4096 == 0
    ensures (4096 * h) % 0x20_0000 == 4096 * (h % 512)
  {
  }

  /** Clearing the directory entry of block b, and giving back the 4K table if it points at one. */
  lemma ClearDirAll(root: nat, pages: Pages, node: Nodes, b: nat)
    requires Tree(root, pages, node) && b < BLOCKS && Key(1, b / 512) in node
    ensures Key(0, b) !in node ==>
      var pages' := Put(pages, node, 1, b, NONE);
      Tree(root, pages', node) && Abs(pages', node) == RemoveBlock(Abs(pages, node), b)
    ensures Key(0, b) in node ==>
      var pages', node' := DropPages(pages, node, 1, b), node - {Key(0, b)};
      && Tree(root, pages', node') && Abs(pages', node') == RemoveBlock(Abs(pages, node), b)
      && node[Key(0, b)] in pages && node[Key(0, b)] != node[Key(1, b / 512)]
  {
    TableAt(root, pages, node, b);
    var f := Abs(pages, node);
    if Key(0, b) in node {
      DropTree(root, pages, node, 1, b);
      DropAbs(root, pages, node, 1, b);
      assert f.huge - {b} == f.huge;
    } else {
      PutLeaf(root, pages, node, 1, b, NONE);
      PutHugeAbs(root, pages, node, b, NONE);
      assert WithoutBlock(f.small, b) == f.small;
    }
  }

  /** The table with the root entries below n read as empty. */
  ghost function Shadow(root: nat, pages: Pages, n: nat): Pages
    requires root in pages && |pages[root]| == 512 && n <= 512
  {
    pages[root := seq(512, i requires 0 <= i < 512 => if i < n then NONE else pages[root][i])]
  }

  /** The two tables differ at most in page c. */
  ghost predicate SameBut(before: Pages, pages: Pages, c: nat) {
    before.Keys == pages.Keys && forall k :: k in pages && k != c ==> pages[k] == before[k]
  }

  lemma DropShadow(root: nat, before: Pages, pages: Pages, node: Nodes, n: nat, l: nat, x: nat, i: nat)
    requires root in before && |before[root]| == 512 && n <= 512 && i < 512 && 1 <= l <= 2
    requires Tree(root, Shadow(root, before, n), node) && Key(l, x) in node
    requires node[Key(l, x)] in before && |before[node[Key(l, x)]]| == 512
    requires !before[node[Key(l, x)]][i].huge && before[node[Key(l, x)]][i] != NONE
    requires SameBut(before, pages, before[node[Key(l, x)]][i].pfn)
    requires Bottom(Shadow(root, before, n), node, l, 512 * x + i)
    ensures var d, c := node[Key(l, x)], before[node[Key(l, x)]][i].pfn;
      && c in pages && c != d && c != root && d != root && d in pages && |pages[d]| == 512
      && Key(l - 1, 512 * x + i) in node && node[Key(l - 1, 512 * x + i)] == c
      && root in pages && |pages[root]| == 512
      && var pages' := pages[d := pages[d][i := NONE]] - {c};
         Tree(root, Shadow(root, pages', n), node - {Key(l - 1, 512 * x + i)})
  {
    var sh, y := Shadow(root, before, n), 512 * x + i;
    assert y / 512 == x && y % 512 == i;
    var d, c := node[Key(l, x)], before[node[Key(l, x)]][i].pfn;
    assert d != root;
    assert Slotted(sh, node, l, y);
    assert c != root;
    DropTree(root, sh, node, l, y);
    var pages' := pages[d := pages[d][i := NONE]] - {c};
    assert Shadow(root, pages', n) == DropPages(sh, node, l, y);
  }

  lemma InShadow(root: nat, pages: Pages, node: Nodes, n: nat, k: Key)
    requires root in pages && |pages[root]| == 512 && n <= 512
    requires Tree(root, Shadow(root, pages, n), node) && k in node && k != Key(3, 0)
    ensures node[k] in pages && |pages[node[k]]| == 512 && node[k] != root
    ensures forall k' :: k' in node && node[k'] == node[k] ==> k' == k
  {
    assert node[Key(3, 0)] == root;
    assert node[k] in Shadow(root, pages, n);
  }

  lemma AllIn(root: nat, pages: Pages, node: Nodes, n: nat)
    requires root in pages && |pages[root]| == 512 && n <= 512
    requires Tree(root, Shadow(root, pages, n), node)
    ensures forall k :: k in node ==> node[k] in pages
  {
  }

  lemma BareBottom(root: nat, pages: Pages, node: Nodes, n: nat, y: nat)
    requires root in pages && |pages[root]| == 512 && n <= 512
    requires Tree(root, Shadow(root, pages, n), node) && Key(1, y) in node
    requires node[Key(1, y)] in pages && |pages[node[Key(1, y)]]| == 512
    requires forall j :: 0 <= j < 512 ==> pages[node[Key(1, y)]][j] == NONE
    ensures Bottom(Shadow(root, pages, n), node, 2, y)
  {
    InShadow(root, pages, node, n, Key(1, y));
  }

  /** What entry i of the directory at place (l, x) can be. */
  lemma EntryShadow(root: nat, pages: Pages, node: Nodes, n: nat, l: nat, x: nat, i: nat)
    requires root in pages && |pages[root]| == 512 && n <= 512 && i < 512 && 1 <= l <= 2
    requires Tree(root, Shadow(root, pages, n), node) && Key(l, x) in node
    ensures node[Key(l, x)] in pages && |pages[node[Key(l, x)]]| == 512
    ensures var e := pages[node[Key(l, x)]][i];
      && (Present(e) <==> e != NONE) && (e.huge ==> l == 1)
      && (e != NONE && !e.huge ==>
            && Key(l - 1, 512 * x + i) in node && e == EptTree.Table(node[Key(l - 1, 512 * x + i)])
            && e.pfn in pages && |pages[e.pfn]| == 512 && e.pfn != node[Key(l, x)] && e.pfn != root)
    ensures l == 1 ==> Bottom(Shadow(root, pages, n), node, l, 512 * x + i)
  {
    InShadow(root, pages, node, n, Key(l, x));
    var y := 512 * x + i;
    assert y / 512 == x && y % 512 == i;
    assert Slotted(Shadow(root, pages, n), node, l, y);
    if Key(l - 1, y) in node { InShadow(root, pages, node, n, Key(l - 1, y)); }
  }

  lemma ClearShadow(root: nat, pages: Pages, node: Nodes, n: nat, x: nat, i: nat)
    requires root in pages && |pages[root]| == 512 && n <= 512 && i < 512
    requires Tree(root, Shadow(root, pages, n), node) && Key(1, x) in node
    requires node[Key(1, x)] in pages && |pages[node[Key(1, x)]]| == 512 && pages[node[Key(1, x)]][i].huge
    ensures var d := node[Key(1, x)];
      var pages' := pages[d := pages[d][i := NONE]];
      d != root && Tree(root, Shadow(root, pages', n), node)
  {
    InShadow(root, pages, node, n, Key(1, x));
    var sh, y, d := Shadow(root, pages, n), 512 * x + i, node[Key(1, x)];
    assert y / 512 == x && y % 512 == i;
    PutLeaf(root, sh, node, 1, y, NONE);
    assert Shadow(root, pages[d := pages[d][i := NONE]], n) == Put(sh, node, 1, y, NONE);
  }

  lemma NoShadow(root: nat, pages: Pages, node: Nodes)
    requires Tree(root, pages, node)
    ensures root in pages && |pages[root]| == 512 && Tree(root, Shadow(root, pages, 0), node)
  {
    assert node[Key(3, 0)] == root;
    assert Shadow(root, pages, 0)[root] == pages[root];
    assert Shadow(root, pages, 0) == pages;
  }

  /** Root entry i, which vmx_free_ept looks at next. */
  lemma RootEntry(root: nat, pages: Pages, node: Nodes, i: nat)
    requires root in pages && |pages[root]| == 512 && i < 512
    requires Tree(root, Shadow(root, pages, i), node)
    ensures var e := pages[root][i];
      && (Present(e) <==> e != NONE)
      && (e == NONE ==> Tree(root, Shadow(root, pages, i + 1), node))
      && (e != NONE ==> Key(2, i) in node && node[Key(2, i)] == e.pfn && e.pfn != root)
    ensures Key(3, 0) in node && node[Key(3, 0)] == root
  {
    var sh := Shadow(root, pages, i);
    assert i / 512 == 0 && i % 512 == i;
    assert Slotted(sh, node, 3, i);
    assert Ent(sh, node, 3, i) == pages[root][i];
    if pages[root][i] == NONE {
      assert Shadow(root, pages, i + 1)[root] == sh[root];
      assert Shadow(root, pages, i + 1) == sh;
    }
  }

  lemma RootDrop(root: nat, pages: Pages, node: Nodes, i: nat)
    requires root in pages && |pages[root]| == 512 && i < 512
    requires Tree(root, Shadow(root, pages, i), node) && Key(2, i) in node && node[Key(2, i)] == pages[root][i].pfn
    requires node[Key(2, i)] in pages && |pages[node[Key(2, i)]]| == 512
    requires forall j :: 0 <= j < 512 ==> pages[node[Key(2, i)]][j] == NONE
    ensures var c := node[Key(2, i)];
      c != root && Tree(root, Shadow(root, pages - {c}, i + 1), node - {Key(2, i)})
  {
    var sh, c := Shadow(root, pages, i), node[Key(2, i)];
    InShadow(root, pages, node, i, Key(2, i));
    assert i / 512 == 0 && i % 512 == i;
    assert Bottom(sh, node, 3, i);
    DropTree(root, sh, node, 3, i);
    assert Shadow(root, pages - {c}, i + 1)[root] == DropPages(sh, node, 3, i)[root];
    assert Shadow(root, pages - {c}, i + 1) == DropPages(sh, node, 3, i);
  }

  /** With every root entry empty only the root is left. */
  lemma AllGone(root: nat, pages: Pages, node: Nodes)
    requires root in pages && |pages[root]| == 512 && Tree(root, Shadow(root, pages, 512), node)
    ensures pages.Keys == {root}
  {
    var sh := Shadow(root, pages, 512);
    forall q | q in pages ensures q == root {
      assert Owned(node, q);
      var k :| k in node && node[k] == q;
      NoOrphan(root, sh, node, k);
    }
  }

  lemma NoOrphan(root: nat, sh: Pages, node: Nodes, k: Key)
    requires Tree(root, sh, node) && root in sh && forall j :: 0 <= j < 512 ==> sh[root][j] == NONE
    requires k in node
    ensures k == Key(3, 0)
    decreases 3 - k.level
  {
    if k.level < 3 {
      assert Linked(sh, node, k);
      var k' := Key(k.level + 1, k.prefix / 512);
      assert k' in node;
      NoOrphan(root, sh, node, k');
    }
  }

  lemma NoHit(rs: seq<Region>, lo: nat, hi: nat)
    requires hi <= lo
    ensures forall b :: !DirHit(rs, b, lo, hi)
  {
  }

  /** The block that the turn at host block k of the second pass is about. */
  lemma NextHit(rs: seq<Region>, lo: nat, k: nat)
    requires Regular(rs) && lo <= k
    requires GuestPage(rs, 512 * k).Some? ==> GuestPage(rs, 512 * k).value % 512 == 0
    ensures forall b :: DirHit(rs, b, lo, k + 1) <==>
      DirHit(rs, b, lo, k) || (GuestPage(rs, 512 * k).Some? && GuestPage(rs, 512 * k).value / 512 == b)
  {
    hide Regular, GuestPage, DirHit;
    forall b ensures DirHit(rs, b, lo, k + 1) <==>
      DirHit(rs, b, lo, k) || (GuestPage(rs, 512 * k).Some? && GuestPage(rs, 512 * k).value / 512 == b)
    {
      DirHitStep(rs, b, lo, k);
    }
  }

  lemma UpOne(g: nat)
    ensures Up(g, 1) == g / 512 && Up(g, 0) == g
  {
  }

  class Table {
    var root: nat
    var pages: Pages
    var free: set<nat>            // pages the kernel's allocator still has
    var pages4k: u64
    var pages2m: u64
    var notifierSeq: nat
    var notifierCount: nat
    const regions: seq<Region>
    ghost var node: Nodes         // where each table page hangs

    /** The tree shape, and conservation: a page is in the tree once or free once, never both. */
    ghost predicate Valid()
      reads this
    {
      Tree(root, pages, node) && pages.Keys !! free
    }

    /** All pages the table has ever been given. */
    ghost function Pool(): set<nat>
      reads this
    {
      pages.Keys + free
    }

    ghost function F(): Flat
      reads this
    {
      Abs(pages, node)
    }

    /** r is the entry a lookup for page g at the given level stops at. */
    ghost predicate Found(g: nat, level: nat, r: Lookup)
      reads this
    {
      && r.Ok? && r.level == StopLevel(F(), g, level) <= 1
      && Key(r.level, Up(g, r.level) / 512) in node && node[Key(r.level, Up(g, r.level) / 512)] == r.page
      && r.idx == Up(g, r.level) % 512
    }

    constructor (rs: seq<Region>, supply: set<nat>, p: nat)
      requires p !in supply
      ensures Valid() && F() == Flat(map[], map[]) && regions == rs && root == p
      ensures pages4k == 0 && pages2m == 0 && notifierSeq == 0 && notifierCount == 0
      ensures Pool() == {p} + supply
    {
      root, pages, free := p, map[p := Zeros()], supply;
      pages4k, pages2m, notifierSeq, notifierCount := 0, 0, 0, 0;
      regions := rs;
      node := map[Key(3, 0) := p];
      new;
      assert forall l: nat, y: nat :: Ent(pages, node, l, y) == NONE;
      assert Owned(node, p) by { assert node[Key(3, 0)] == p; }
    }

    /** A table entry for the 4K pages of block b exists. */
    ghost predicate HasTable(b: nat)
      reads this`node
    {
      Key(0, b) in node
    }

    /** One missing directory of a creating lookup (ept.c:207-214). */
    method AddDirectory(dir: nat, g: nat, i: nat) returns (ok: bool)
      requires Valid() && g < GPNS && 1 <= i <= 3
      requires Key(i, Up(g, i) / 512) in node && node[Key(i, Up(g, i) / 512)] == dir
      requires Ent(pages, node, i, Up(g, i)) == NONE
      modifies this`pages, this`free, this`node
      ensures Valid() && F() == old(F()) && Pool() == old(Pool())
      ensures ok <==> old(free) != {}
      ensures !ok ==> pages == old(pages) && free == old(free) && node == old(node)
      ensures ok ==> node.Keys == old(node).Keys + {Key(i - 1, Up(g, i))} && node[Key(i, Up(g, i) / 512)] == dir
      ensures ok ==> Ent(pages, node, i, Up(g, i)) == EptTree.Table(node[Key(i - 1, Up(g, i))])
    {
      hide Tree, Abs;
      if free == {} { return false; }
      var y := Up(g, i);
      var p :| p in free;
      SlotFacts(root, pages, node, g, i);
      AddAll(root, pages, node, g, i, p);
      free := free - {p};
      pages := pages[dir := pages[dir][y % 512 := EptTree.Table(p)]][p := Zeros()];
      node := node[Key(i - 1, y) := p];
      return true;
    }

    /** ept_lookup_gpa: walk down to the wanted level, creating directories on the way if asked to. */
    method LookupGpa(gpa: nat, level: nat, create: bool) returns (r: Lookup)
      requires Valid() && gpa / 4096 < GPNS && level <= 1
      modifies this`pages, this`free, this`node
      ensures Valid() && F() == old(F()) && Pool() == old(Pool())
      ensures !create ==> pages == old(pages) && free == old(free) && node == old(node)
      ensures r.Ok? ==> Found(gpa / 4096, level, r)
      ensures r.ENOENT? ==> !create && Key(level, Up(gpa / 4096, level) / 512) !in node
      ensures r.ENOMEM? ==> create && free == {}
      ensures r.ENOENT? || r.ENOMEM? ==> FlatWalk(F(), gpa / 4096) == Miss
      ensures !r.EINVAL?
      ensures forall b :: HasTable(b) <==>
        old(HasTable(b)) || (r.Ok? && r.level == 0 && level == 0 && b == gpa / 4096 / 512)
    {
      hide Tree, Abs, Ent, Up;
      var g := gpa / 4096;
      Top(root, pages, node, g);
      UpOne(g);
      var dir, i := root, 3;
      while i > level
        invariant level <= i <= 3
        invariant Valid() && F() == old(F()) && Pool() == old(Pool())
        invariant !create ==> pages == old(pages) && free == old(free) && node == old(node)
        invariant Key(i, Up(g, i) / 512) in node && node[Key(i, Up(g, i) / 512)] == dir
        invariant forall b :: HasTable(b) <==> old(HasTable(b)) || (i == 0 && b == g / 512)
        invariant i == 0 ==> g / 512 !in F().huge
      {
        IdxIsSlot(gpa, i);
        var idx := AddrToIdx(gpa, i);
        SlotFacts(root, pages, node, g, i);
        if !Present(pages[dir][idx]) {
          NoTableBelow(root, pages, node, i, g);
          if !create {
            NoDirectory(g, i, level);
            return ENOENT;
          }
          var ok := AddDirectory(dir, g, i);
          if !ok { return ENOMEM; }
        }
        SlotFacts(root, pages, node, g, i);
        if pages[dir][idx].huge && i == 1 {
          return Ok(dir, idx, 1);
        }
        dir := pages[dir][idx].pfn;
        i := i - 1;
      }
      IdxIsSlot(gpa, level);
      return Ok(dir, AddrToIdx(gpa, level), level);
    }

    /** Below an empty slot on the path of g there is no directory. */
    lemma NoDirectory(g: nat, i: nat, level: nat)
      requires Valid() && level < i <= 3 && Ent(pages, node, i, Up(g, i)) == NONE
      ensures Key(level, Up(g, level) / 512) !in node
      decreases i
    {
      var k := Key(i - 1, Up(g, i));
      assert k in node ==> Linked(pages, node, k);
      if level < i - 1 {
        NoDirectory(g, i - 1, level);
      }
    }

    /** The counters count the leaves: 4K leaves that hold a reference to a host page, and 2M leaves. */
    ghost predicate Counted()
      reads this
    {
      pages4k == N4K(F()) && pages2m == N2M(F())
    }

    method TraceMap(e: Epte)
      modifies this`pages4k, this`pages2m
      ensures pages4k == if e == NONE || e.pfnmap || e.huge then old(pages4k) else Add(old(pages4k), 1)
      ensures pages2m == if e == NONE || e.pfnmap || !e.huge then old(pages2m) else Add(old(pages2m), 1)
    {
      if e == NONE || e.pfnmap { return; }
      if e.huge { pages2m := Add(pages2m, 1); } else { pages4k := Add(pages4k, 1); }
    }

    method TraceUnmap(e: Epte)
      modifies this`pages4k, this`pages2m
      ensures pages4k == if e == NONE || e.pfnmap || e.huge then old(pages4k) else Sub(old(pages4k), 1)
      ensures pages2m == if e == NONE || e.pfnmap || !e.huge then old(pages2m) else Sub(old(pages2m), 1)
    {
      if e == NONE || e.pfnmap { return; }
      if e.huge { pages2m := Sub(pages2m, 1); } else { pages4k := Sub(pages4k, 1); }
    }

    /** ept_trace_mm_stat_unmap and ept_clear_epte on an entry found for a 4K lookup. */
    method Unmap(ghost g: nat, r: Lookup) returns (cleared: bool)
      requires Valid() && g < GPNS && Found(g, 0, r)
      modifies this`pages, this`pages4k, this`pages2m
      ensures Valid() && Pool() == old(Pool())
      ensures F() == if g / 512 in old(F()).huge then old(F()).(huge := old(F()).huge - {g / 512})
                     else old(F()).(small := old(F()).small - {g})
      ensures cleared <==> g in old(F()).small || g / 512 in old(F()).huge
      ensures old(Counted()) ==> Counted()
    {
      hide Tree, Abs, Ent, Up, N4K, N2M;
      ghost var e' := StopEntry(root, pages, node, g);
      var e := pages[r.page][r.idx];
      RemoveSmall(F(), g);
      RemoveHuge(F(), g / 512);
      TraceUnmap(e);
      if e == NONE { return false; }
      ClearAll(root, pages, node, r.level, Up(g, r.level));
      pages := pages[r.page := pages[r.page][r.idx := NONE]];
      return true;
    }

    /** mapping_level: may the block of gpa be mapped with one 2M entry? */
    method MappingLevel(gpa: u64) returns (level: nat)
      requires Valid() && gpa / 4096 < GPNS
      modifies this`pages, this`free, this`node
      ensures pages == old(pages) && free == old(free) && node == old(node)
      ensures level == if HugeConsistent(regions, gpa) && !HasTable(gpa / 4096 / 512) then 1 else 0
    {
      hide Tree, Abs, Ent, Up;
      var s := GpaToHva(regions, AlignDown(gpa));
      var e := GpaToHva(regions, AlignDown(Add(gpa, 0x20_0000)));
      if s == ADDR_INVAL || e == ADDR_INVAL || Sub(e, s) != 0x20_0000 { return 0; }
      var r := LookupGpa(gpa, 1, false);
      Top(root, pages, node, gpa / 4096);
      TableAt(root, pages, node, gpa / 4096 / 512);
      if r.Ok? && Present(pages[r.page][r.idx]) && !pages[r.page][r.idx].huge { return 0; }
      return 1;
    }

    /** The end of ept_set_epte: write entry e, unless a 4K install meets a 2M leaf (ept.c:589-598). */
    method WriteEntry(ghost g: nat, r: Lookup, level: nat, e: Epte) returns (done: bool)
      requires Valid() && g < GPNS && level <= 1 && Found(g, level, r)
      requires if level == 1 then Leaf2M(e) && !HasTable(g / 512) else Leaf4K(e)
      modifies this`pages, this`pages4k, this`pages2m
      ensures Valid() && Pool() == old(Pool())
      ensures done <==> level == 1 || g / 512 !in old(F()).huge
      ensures F() == if !done then old(F())
                     else if level == 1 then old(F()).(huge := old(F()).huge[g / 512 := e])
                     else old(F()).(small := old(F()).small[g := e])
      ensures !done ==> pages4k == old(pages4k) && pages2m == old(pages2m)
      ensures old(Counted()) ==>
        (Counted() <==> (done && level == 0 && g in old(F()).small ==> old(F()).small[g].pfnmap == e.pfnmap))
    {
      hide Tree, Abs, Ent, Up, N4K, N2M;
      ghost var b := g / 512;
      Top(root, pages, node, g);
      TableAt(root, pages, node, b);
      ghost var e' := StopEntry(root, pages, node, g);
      if Present(pages[r.page][r.idx]) {
        if pages[r.page][r.idx].huge && level != 1 { return false; }
      } else {
        TraceMap(e);
      }
      AccBound(pages, node);
      if level == 1 {
        InsertHuge(F(), b, e);
      } else if g !in F().small || F().small[g].pfnmap == e.pfnmap {
        InsertSmall(F(), g, e);
      } else {
        OtherKind(F(), g, e);
      }
      LeafAll(root, pages, node, level, if level == 1 then b else g, e);
      pages := pages[r.page := pages[r.page][r.idx := e]];
      return true;
    }

    /** ept_set_epte from the point where the page is pinned; seen is the notifier sequence read before that. */
    method SetEpte(gpa: u64, write: bool, ad: bool, pin: Pin, seen: nat) returns (o: Outcome)
      requires Valid() && gpa / 4096 < GPNS
      modifies this`pages, this`free, this`node, this`pages4k, this`pages2m
      ensures Valid() && Pool() == old(Pool())
      ensures o.PinError? <==> !pin.Page? && !pin.Pfn?
      ensures o.Retry? <==> !o.PinError? && (notifierCount != 0 || notifierSeq != seen)
      ensures o.PinError? || o.Retry? ==> pages == old(pages) && node == old(node) && free == old(free)
      ensures !o.PinError? && !o.Retry? ==>
        var g, b, f := gpa / 4096, gpa / 4096 / 512, old(F());
        var wide := pin.Page? && pin.thp && HugeConsistent(regions, gpa) && !old(HasTable(b));
        if wide then
          || (o.Huge? && F() == f.(huge := f.huge[b := MakeHuge(pin, write, ad)]))
          || (o.NoTable? && F() == f && free == {})
        else if b in f.huge then o.Busy? && F() == f
        else
          || (o.Small? && F() == f.(small := f.small[g := MakeEpte(pin, write, ad)]))
          || (o.NoTable? && F() == f && free == {})
      ensures o.Small? ==> gpa / 4096 in F().small && LeafFor(F().small[gpa / 4096], pin, write, ad, false)
      ensures o.Huge? ==> gpa / 4096 / 512 in F().huge && LeafFor(F().huge[gpa / 4096 / 512], pin, write, ad, true)
      ensures o.NoTable? ==> FlatWalk(F(), gpa / 4096) == Miss
      ensures forall b :: HasTable(b) <==> old(HasTable(b)) || (o.Small? && b == gpa / 4096 / 512)
      ensures o.PinError? || o.Retry? || o.Busy? || o.NoTable? ==> pages4k == old(pages4k) && pages2m == old(pages2m)
      ensures old(Counted()) ==> (Counted() <==>
        (o.Small? && gpa / 4096 in old(F()).small ==> old(F()).small[gpa / 4096].pfnmap == pin.Pfn?))
    {
      hide Tree, Abs, Ent, Up, N4K, N2M, MakeEpte, MakeHuge, LeafFor, Leaf4K, Leaf2M;
      if !pin.Page? && !pin.Pfn? { return PinError; }
      if notifierCount != 0 { return Retry; }
      if notifierSeq != seen { return Retry; }
      MadeLeaf(pin, write, ad);
      ghost var g, b := gpa / 4096, gpa / 4096 / 512;
      Top(root, pages, node, g);
      TableAt(root, pages, node, b);
      var level := 0;
      if pin.Page? && pin.thp {
        level := MappingLevel(gpa);
      }
      var e := if level == 1 then MakeHuge(pin, write, ad) else MakeEpte(pin, write, ad);
      var r := LookupGpa(gpa, level, true);
      if !r.Ok? { return NoTable; }
      assert r.level == if level == 1 || b in F().huge then 1 else 0;
      assert forall k :: HasTable(k) <==> old(HasTable(k)) || (r.level == 0 && k == b);
      var done := WriteEntry(g, r, level, e);
      if !done { return Busy; }
      return if level == 1 then Huge else Small;
    }

    /** ept_lookup_hva without creation. */
    method LookupHva(hva: u64, level: nat) returns (r: Lookup)
      requires Valid() && Regular(regions) && level <= 1
      modifies this`pages, this`free, this`node
      ensures pages == old(pages) && free == old(free) && node == old(node)
      ensures r.EINVAL? <==> ToGpa(regions, hva) == ADDR_INVAL
      ensures !r.EINVAL? ==> ToGpa(regions, hva) / 4096 < GPNS
      ensures r.Ok? ==> Found(ToGpa(regions, hva) / 4096, level, r)
      ensures r.ENOENT? ==> FlatWalk(F(), ToGpa(regions, hva) / 4096) == Miss
      ensures r.ENOENT? ==> Key(level, Up(ToGpa(regions, hva) / 4096, level) / 512) !in node
      ensures !r.ENOMEM?
    {
      var gpa := HvaToGpa(regions, hva);
      if gpa == ADDR_INVAL { return EINVAL; }
      ghost var i := HvaOwner(regions, hva);
      HvaHit(regions, i, hva);
      r := LookupGpa(gpa, level, false);
    }

    /** ept_invalidate_page: drop the leaf over one host page, and make running faults retry. */
    method InvalidatePage(hva: u64) returns (cleared: bool)
      requires Valid() && Regular(regions)
      modifies this`pages, this`free, this`node, this`notifierSeq, this`pages4k, this`pages2m
      ensures Valid() && Pool() == old(Pool())
      ensures var g, f := ToGpa(regions, hva) / 4096, old(F());
        if ToGpa(regions, hva) == ADDR_INVAL then F() == f && !cleared
        else if g / 512 in f.huge then cleared && F() == f.(huge := f.huge - {g / 512})
        else (cleared <==> g in f.small) && F() == f.(small := f.small - {g})
      ensures var g := ToGpa(regions, hva) / 4096;
        notifierSeq == old(notifierSeq)
          + if ToGpa(regions, hva) != ADDR_INVAL && (g / 512 in old(F()).huge || old(HasTable(g / 512))) then 1 else 0
      ensures node == old(node) && free == old(free)
      ensures old(Counted()) ==> Counted()
    {
      hide Tree, Abs, Ent, Up;
      var r := LookupHva(hva, 0);
      if !r.EINVAL? {
        ghost var _ := StopEntry(root, pages, node, ToGpa(regions, hva) / 4096);
      }
      if !r.Ok? {
        assert r.ENOENT? ==> F().(small := F().small - {ToGpa(regions, hva) / 4096}) == F();
        return false;
      }
      notifierSeq := notifierSeq + 1;
      cleared := Unmap(ToGpa(regions, hva) / 4096, r);
    }

    /** One turn of the loop of ept_clear_page_table, at host address s. */
    method ClearTableStep(s: u64, e: u64) returns (s': nat)
      requires Valid() && Regular(regions) && s % 4096 == 0 && s < e && e + 0x20_0000 < W
      modifies this`pages, this`free, this`node, this`pages4k, this`pages2m
      ensures Valid() && Pool() == old(Pool())
      ensures match GuestPage(regions, s / 4096)
        case None => s' == s + 4096 && F() == old(F())
        case Some(g) =>
          if g / 512 in old(F()).huge then
            && s' == s - s % 0x20_0000 + 0x20_0000
            && F() == if s % 0x20_0000 > 0 then old(F()).(huge := old(F()).huge - {g / 512}) else old(F())
          else s' == s + 4096 && F() == old(F()).(small := old(F()).small - {g})
      ensures node == old(node)
      ensures old(Counted()) ==> Counted()
    {
      hide Tree, Abs, Ent, Up, Regular, N4K, N2M;
      var r := LookupHva(s, 0);
      ghost var g := ToGpa(regions, s) / 4096;
      if r.Ok? {
        ghost var e' := StopEntry(root, pages, node, g);
        if pages[r.page][r.idx].huge {
          var down := s - s % 0x20_0000;
          var up := (s + 0x1F_FFFF) - (s + 0x1F_FFFF) % 0x20_0000;
          Rounding(s, e);
          if s > down || e < up {
            var _ := Unmap(g, r);
          }
          return down + 0x20_0000;
        } else {
          var _ := Unmap(g, r);
          return s + 4096;
        }
      } else {
        assert r.ENOENT? ==> F().(small := F().small - {g}) == F();
        return s + 4096;
      }
    }

    /** ept_clear_page_table: the 4K pass over [start, end). */
    method ClearPageTable(start: u64, end: u64)
      requires Valid() && Regular(regions) && Mapped(F(), regions) && end + 0x20_2000 < W
      modifies this`pages, this`free, this`node, this`pages4k, this`pages2m
      ensures Valid() && Pool() == old(Pool())
      ensures F() == Pass1(old(F()), regions, start / 4096, (end + 4095) / 4096) && node == old(node)
      ensures old(Counted()) ==> Counted()
    {
      hide Tree, Abs, Ent, Up, Regular, Mapped, CursorAt, Pass1, GuestPage;
      ghost var lo, hi, f0 := start / 4096, (end + 4095) / 4096, F();
      var s, e: u64 := start - start % 4096, (end + 4095) - (end + 4095) % 4096;
      ghost var h := lo;
      CursorStart(f0, regions, lo, hi);
      while s < e
        invariant s == 4096 * h && e == 4096 * hi && lo <= h
        invariant Valid() && Pool() == old(Pool()) && CursorAt(f0, F(), regions, lo, hi, h) && node == old(node)
        invariant old(Counted()) ==> Counted()
        decreases e - s
      {
        StepAny(f0, F(), regions, lo, hi, h);
        HugeOffset(h);
        s := ClearTableStep(s, e);
        h := s / 4096;
      }
      CursorEnd(f0, F(), regions, lo, hi, h);
    }

    /** ept_clear_dir: clear a directory entry and put the 4K table it points at, if it does. */
    method ClearDir(ghost b: nat, r: Lookup)
      requires Valid() && b < BLOCKS && r.Ok? && Key(1, b / 512) in node
      requires r.page == node[Key(1, b / 512)] && r.idx == b % 512
      modifies this`pages, this`free, this`node
      ensures Valid() && Pool() == old(Pool())
      ensures F() == RemoveBlock(old(F()), b) && node == old(node) - {Key(0, b)}
    {
      hide Tree, Abs, Ent, Up;
      TableAt(root, pages, node, b);
      ClearDirAll(root, pages, node, b);
      var e := pages[r.page][r.idx];
      if e == NONE {
        NothingThere(root, pages, node, b);
        return;
      }
      pages := pages[r.page := pages[r.page][r.idx := NONE]];
      if !e.pfnmap && !e.huge {
        pages, free := pages - {e.pfn}, free + {e.pfn};
        node := node - {Key(0, b)};
      }
    }

    /** ept_clear_page_directory: the 2M pass over the blocks wholly inside [start, end). */
    method ClearPageDirectory(start: u64, end: u64)
      requires Valid() && Regular(regions) && start + 0x20_0000 < W && end + 0x20_0000 < W
      modifies this`pages, this`free, this`node, this`pages4k, this`pages2m
      ensures Valid() && Pool() == old(Pool())
      ensures F() == Pass2(old(F()), regions, (start + 0x1F_FFFF) / 0x20_0000, end / 0x20_0000)
      ensures forall b :: HasTable(b) <==>
        old(HasTable(b)) && !DirHit(regions, b, (start + 0x1F_FFFF) / 0x20_0000, end / 0x20_0000)
      ensures old(Counted()) ==> (Counted() <==> forall g :: g in Acc4K(old(F())) ==>
          !DirHit(regions, g / 512, (start + 0x1F_FFFF) / 0x20_0000, end / 0x20_0000))
    {
      hide Tree, Abs, Ent, Up, Regular, DirHit, N4K, N2M, Acc4K, Pass2, GuestPage;
      ghost var lo, hi, f0 := (start + 0x1F_FFFF) / 0x20_0000, end / 0x20_0000, F();
      LostIff(f0, regions, lo, hi);
      var s, e := (start + 0x1F_FFFF) - (start + 0x1F_FFFF) % 0x20_0000, end - end % 0x20_0000;
      ghost var k := lo;
      DirStart(f0, regions, lo, lo);
      NoHit(regions, lo, lo);
      while s < e
        invariant s == 0x20_0000 * k && e == 0x20_0000 * hi && lo <= k
        invariant Valid() && Pool() == old(Pool())
        invariant F() == Pass2(f0, regions, lo, k) && (k <= hi || k == lo)
        invariant forall b :: HasTable(b) <==> old(HasTable(b)) && !DirHit(regions, b, lo, k)
        invariant pages4k == old(pages4k) && (old(Counted()) ==> pages2m == N2M(F()))
        decreases e - s
      {
        DirStep(f0, regions, lo, k);
        NextHit(regions, lo, k);
        ClearDirStep(s, k);
        s := s + 0x20_0000;
        k := k + 1;
      }
      if hi < lo {
        DirStart(f0, regions, lo, hi);
        NoHit(regions, lo, hi);
      }
    }

    /** One turn of that loop, at host block k. */
    method ClearDirStep(s: u64, ghost k: nat)
      requires Valid() && Regular(regions) && s == 0x20_0000 * k
      requires GuestPage(regions, 512 * k).Some? ==> GuestPage(regions, 512 * k).value % 512 == 0
      modifies this`pages, this`free, this`node, this`pages4k, this`pages2m
      ensures Valid() && Pool() == old(Pool())
      ensures match GuestPage(regions, 512 * k)
        case None => F() == old(F()) && node == old(node)
        case Some(g) => F() == RemoveBlock(old(F()), g / 512) && node == old(node) - {Key(0, g / 512)}
      ensures pages4k == old(pages4k) && (old(pages2m) == N2M(old(F())) ==> pages2m == N2M(F()))
    {
      hide Tree, Abs, Ent, Up, Regular, N4K, N2M;
      var r := LookupHva(s, 1);
      ghost var g := ToGpa(regions, s) / 4096;
      ghost var b := g / 512;
      if r.Ok? {
        Top(root, pages, node, g);
        TableAt(root, pages, node, b);
        RemoveBlockHuge(F(), b);
        if pages[r.page][r.idx].huge {
          TraceUnmap(pages[r.page][r.idx]);
        }
        ClearDir(b, r);
      } else if r.ENOENT? {
        Top(root, pages, node, g);
        TableAt(root, pages, node, b);
        NothingThere(root, pages, node, b);
      }
    }

    /** __ept_mmu_notifier_invalidate_range_start, the part under ept_lock. */
    method RangeStart(start: u64, end: u64)
      requires Valid() && Regular(regions) && Mapped(F(), regions)
      requires start + 0x20_2000 < W && end + 0x20_2000 < W
      modifies this`pages, this`free, this`node, this`pages4k, this`pages2m, this`notifierCount
      ensures Valid() && Pool() == old(Pool()) && Mapped(F(), regions)
      ensures F() == ClearRange(old(F()), regions, start, end)
      ensures forall b :: HasTable(b) <==>
        old(HasTable(b)) && !DirHit(regions, b, (start + 0x1F_FFFF) / 0x20_0000, end / 0x20_0000)
      ensures notifierCount == old(notifierCount) + 1
      ensures old(Counted()) ==> (Counted() <==> NoneLost(old(F()), regions, start, end))
      ensures OneRegionPerBlock(regions) ==> NoneLost(old(F()), regions, start, end)
    {
      hide Tree, Abs, Ent, Up, Regular, N4K, N2M, Acc4K, Mapped, Pass1, Pass2, DirHit;
      notifierCount := notifierCount + 1;
      ClearKeepsMapped(F(), regions, start, end);
      if OneRegionPerBlock(regions) { NoneLostThen(F(), regions, start, end); }
      ClearPageTable(start, end);
      ClearPageDirectory(start, end);
    }

    /** __ept_mmu_notifier_invalidate_range_end. */
    method RangeEnd()
      requires Valid() && notifierCount > 0
      modifies this`notifierSeq, this`notifierCount
      ensures notifierSeq == old(notifierSeq) + 1 && notifierCount == old(notifierCount) - 1
    {
      notifierSeq := notifierSeq + 1;
      notifierCount := notifierCount - 1;
    }

    // ---- vmx_free_ept ----

    /** The tree shape while vmx_free_ept works: it does not clear the root entries below n whose subtrees it
        has already given back. */
    ghost predicate Live(n: nat)
      reads this
    {
      && root in pages && |pages[root]| == 512 && n <= 512
      && Tree(root, Shadow(root, pages, n), node) && pages.Keys !! free
    }

    method FreePteRange(q: nat)
      requires q in pages && |pages[q]| == 512
      modifies this`pages
      ensures pages.Keys == old(pages).Keys && forall k :: k in pages && k != q ==> pages[k] == old(pages)[k]
    {
      for i := 0 to 512
        invariant q in pages && |pages[q]| == 512
        invariant pages.Keys == old(pages).Keys && forall k :: k in pages && k != q ==> pages[k] == old(pages)[k]
      {
        if Present(pages[q][i]) {
          pages := pages[q := pages[q][i := NONE]];
        }
      }
    }

    /** free_page: the page goes back to the allocator; it must not be there already. */
    method FreePage(q: nat)
      requires q !in free
      modifies this`pages, this`free
      ensures pages == old(pages) - {q} && free == old(free) + {q}
    {
      pages, free := pages - {q}, free + {q};
    }

    /** Clear entry i of directory d and give back the table c it points at.  before is the table as it was
        before c was emptied. */
    method DropChild(d: nat, i: nat, c: nat, ghost before: Pages, ghost l: nat, ghost x: nat, ghost n: nat)
      requires Live0(before, n) && SameBut(before, pages, c) && i < 512 && 1 <= l <= 2
      requires d in pages && |pages[d]| == 512 && d in before && |before[d]| == 512
      requires Key(l, x) in node && node[Key(l, x)] == d && before[d][i] == EptTree.Table(c)
      requires Bottom(Shadow(root, before, n), node, l, 512 * x + i)
      modifies this`pages, this`free, this`node
      ensures Live(n) && Pool() == old(Pool())
      ensures node == old(node) - {Key(l - 1, 512 * x + i)}
      ensures d in pages && |pages[d]| == 512 && pages[d] == old(pages)[d][i := NONE]
      ensures forall k :: k in old(pages) && k != c && k != d ==> k in pages && pages[k] == old(pages)[k]
    {
      hide Tree, Ent, Bottom, Shadow;
      DropShadow(root, before, pages, node, n, l, x, i);
      pages := pages[d := pages[d][i := NONE]];
      node := node - {Key(l - 1, 512 * x + i)};
      FreePage(c);
    }

    ghost predicate Live0(before: Pages, n: nat)
      reads this
    {
      && root in before && |before[root]| == 512 && n <= 512
      && Tree(root, Shadow(root, before, n), node) && before.Keys !! free
    }

    /** The directories above the given level are as they were. */
    twostate predicate Above(level: nat)
      reads this
    {
      forall k: Key :: k.level > level && k in old(node) ==>
        k in node && node[k] == old(node)[k] && node[k] in pages && node[k] in old(pages)
        && pages[node[k]] == old(pages)[node[k]]
    }

    /** Directory d of the given place is still there, and its entries below i are clear. */
    ghost predicate Cleared(d: nat, k: Key, i: nat)
      reads this
    {
      && k in node && node[k] == d && d in pages && |pages[d]| == 512
      && forall j :: 0 <= j < i && j < 512 ==> pages[d][j] == NONE
    }

    method FreePmdEntry(d: nat, i: nat, ghost x: nat, ghost n: nat)
      requires Live(n) && i < 512 && Cleared(d, Key(1, x), i)
      modifies this`pages, this`free, this`node
      ensures Live(n) && Pool() == old(Pool()) && Above(1) && Cleared(d, Key(1, x), i + 1)
    {
      hide Tree, Ent, Shadow;
      AllIn(root, pages, node, n);
      InShadow(root, pages, node, n, Key(1, x));
      EntryShadow(root, pages, node, n, 1, x, i);
      var e := pages[d][i];
      if !Present(e) { return; }
      if e.huge {
        ClearShadow(root, pages, node, n, x, i);
        pages := pages[d := pages[d][i := NONE]];
        return;
      }
      InShadow(root, pages, node, n, Key(0, 512 * x + i));
      ghost var before := pages;
      FreePteRange(e.pfn);
      DropChild(d, i, e.pfn, before, 1, x, n);
    }

    method FreePmdRange(d: nat, ghost x: nat, ghost n: nat)
      requires Live(n) && Key(1, x) in node && node[Key(1, x)] == d
      modifies this`pages, this`free, this`node
      ensures Live(n) && Pool() == old(Pool()) && Above(1) && Cleared(d, Key(1, x), 512)
    {
      hide Tree, Ent, Shadow;
      AllIn(root, pages, node, n);
      InShadow(root, pages, node, n, Key(1, x));
      for i := 0 to 512
        invariant Live(n) && Pool() == old(Pool()) && Above(1) && Cleared(d, Key(1, x), i)
      {
        FreePmdEntry(d, i, x, n);
      }
    }

    method FreePudEntry(d: nat, i: nat, ghost x: nat, ghost n: nat)
      requires Live(n) && i < 512 && Cleared(d, Key(2, x), i)
      modifies this`pages, this`free, this`node
      ensures Live(n) && Pool() == old(Pool()) && Above(2) && Cleared(d, Key(2, x), i + 1)
    {
      hide Tree, Ent, Shadow;
      AllIn(root, pages, node, n);
      EntryShadow(root, pages, node, n, 2, x, i);
      var e := pages[d][i];
      if !Present(e) { return; }
      FreePmdRange(e.pfn, 512 * x + i, n);
      InShadow(root, pages, node, n, Key(2, x));
      InShadow(root, pages, node, n, Key(1, 512 * x + i));
      BareBottom(root, pages, node, n, 512 * x + i);
      DropChild(d, i, e.pfn, pages, 2, x, n);
    }

    method FreePudRange(d: nat, ghost x: nat, ghost n: nat)
      requires Live(n) && Key(2, x) in node && node[Key(2, x)] == d
      modifies this`pages, this`free, this`node
      ensures Live(n) && Pool() == old(Pool()) && Above(2) && Cleared(d, Key(2, x), 512)
    {
      hide Tree, Ent, Shadow;
      AllIn(root, pages, node, n);
      InShadow(root, pages, node, n, Key(2, x));
      for i := 0 to 512
        invariant Live(n) && Pool() == old(Pool()) && Above(2) && Cleared(d, Key(2, x), i)
      {
        FreePudEntry(d, i, x, n);
      }
    }

    /** One root entry of vmx_free_ept. */
    method FreePgdEntry(i: nat)
      requires Live(i) && i < 512
      modifies this`pages, this`free, this`node
      ensures Live(i + 1) && Pool() == old(Pool()) && root in pages
    {
      hide Tree, Ent, Shadow;
      RootEntry(root, pages, node, i);
      var e := pages[root][i];
      if !Present(e) { return; }
      FreePudRange(e.pfn, i, i);
      RootDrop(root, pages, node, i);
      FreePage(e.pfn);
      node := node - {Key(2, i)};
    }

    /** vmx_free_ept: every table page goes back to the allocator, each of them once. */
    method FreeEpt()
      requires Valid()
      modifies this`pages, this`free, this`node
      ensures pages == map[] && free == old(Pool())
    {
      hide Tree, Ent, Shadow;
      NoShadow(root, pages, node);
      for i := 0 to 512
        invariant Live(i) && Pool() == old(Pool())
      {
        FreePgdEntry(i);
      }
      AllGone(root, pages, node);
      FreePage(root);
    }
  }
}
