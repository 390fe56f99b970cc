// The four-level table of ept.c: table pages of 512 entries, 4K leaves at level 0, 2M leaves at level 1.
//
// A slot is named by (level, y): y is the guest page number divided by 512^level, so that the slot is entry
// y % 512 of the level's table page for prefix y / 512, and a table hanging below slot (l, y) is the page
// of level l - 1 with prefix y.

module EptTree {

  const GPNS: nat := 0x10_0000_0000     // guest page numbers, addresses below 2^48
  const BLOCKS: nat := 0x800_0000       // 2M blocks

  /** An entry, field by field: frame number, READ, WRITE and EXEC, SZ, PFNMAP, IPAT, memory type, A and D bits. */
  datatype Epte = Epte(
    pfn: nat, r: bool, w: bool, x: bool, huge: bool, pfnmap: bool, ipat: bool, mtype: nat, a: bool, d: bool)

  const NONE: Epte := Epte(0, false, false, false, false, false, false, 0, false, false)

  predicate Present(e: Epte) { e.r || e.w || e.x }

  /** An entry that points at the table page p: address | READ | WRITE | EXEC. */
  function Table(p: nat): Epte { Epte(p, true, true, true, false, false, false, 0, false, false) }

  predicate Leaf4K(e: Epte) { Present(e) && !e.huge }
  predicate Leaf2M(e: Epte) { Present(e) && e.huge && !e.pfnmap }

  type Pages = map<nat, seq<Epte>>

  /** A table page by its place in the tree. */
  datatype Key = Key(level: nat, prefix: nat)
  type Nodes = map<Key, nat>

  function Zeros(): (z: seq<Epte>)
    ensures |z| == 512 && forall i :: 0 <= i < 512 ==> z[i] == NONE
  {
    seq(512, _ => NONE)
  }

  function Bound(level: nat): nat {
    if level == 0 then 0x800_0000 else if level == 1 then 0x4_0000 else if level == 2 then 512 else 1
  }

  /** n-fold division by 512: which slot of level n a guest page number falls in. */
  function Up(g: nat, n: nat): nat {
    if n == 0 then g else Up(g, n - 1) / 512
  }

  /** The entry in a slot; an absent table page reads as empty. */
  function Ent(pages: Pages, node: Nodes, l: nat, y: nat): Epte {
    if Key(l, y / 512) in node && node[Key(l, y / 512)] in pages && |pages[node[Key(l, y / 512)]]| == 512
    then pages[node[Key(l, y / 512)]][y % 512]
    else NONE
  }

  ghost predicate Slotted(pages: Pages, node: Nodes, l: nat, y: nat) {
    var e := Ent(pages, node, l, y);
    e == NONE ||
    (if l == 0 then Leaf4K(e)
     else if e.huge then l == 1 && Leaf2M(e)
     else Key(l - 1, y) in node && e == Table(node[Key(l - 1, y)]))
  }

  ghost predicate Linked(pages: Pages, node: Nodes, k: Key)
    requires k in node
  {
    k.level < 3 ==> Ent(pages, node, k.level + 1, k.prefix) == Table(node[k])
  }

  ghost predicate Owned(node: Nodes, p: nat) {
    exists k :: k in node && node[k] == p
  }

  /** The shape every operation keeps: the pages allocated are exactly the pages of the tree under root,
      each reached from one slot only. */
  ghost predicate Tree(root: nat, pages: Pages, node: Nodes) {
    && Key(3, 0) in node && node[Key(3, 0)] == root
    && (forall k :: k in node ==> k.level <= 3 && k.prefix < Bound(k.level) && node[k] in pages)
    && (forall p :: p in pages ==> |pages[p]| == 512)
    && (forall p {:trigger Owned(node, p)} :: p in pages ==> Owned(node, p))
    && (forall k, k' :: k in node && k' in node && node[k] == node[k'] ==> k == k')
    && (forall l, y :: Slotted(pages, node, l, y))
    && (forall k {:trigger Linked(pages, node, k)} :: k in node ==> Linked(pages, node, k))
  }

  /** Writing entry e into slot (l, y). */
  function Put(pages: Pages, node: Nodes, l: nat, y: nat, e: Epte): Pages
    requires Key(l, y / 512) in node && node[Key(l, y / 512)] in pages
    requires |pages[node[Key(l, y / 512)]]| == 512
  {
    var d := node[Key(l, y / 512)];
    pages[d := pages[d][y % 512 := e]]
  }

  lemma PutEnt(root: nat, pages: Pages, node: Nodes, l: nat, y: nat, e: Epte, l': nat, y': nat)
    requires Tree(root, pages, node) && Key(l, y / 512) in node
    ensures Ent(Put(pages, node, l, y, e), node, l', y')
         == if l' == l && y' == y then e else Ent(pages, node, l', y')
  {
    if Key(l', y' / 512) in node && node[Key(l', y' / 512)] == node[Key(l, y / 512)] {
      assert Key(l', y' / 512) == Key(l, y / 512);
      if y' % 512 == y % 512 {
        assert y' == 512 * (y' / 512) + y' % 512;
        assert y == 512 * (y / 512) + y % 512;
      }
    }
  }

  /** Writing a leaf or clearing one keeps the tree. */
  lemma PutLeaf(root: nat, pages: Pages, node: Nodes, l: nat, y: nat, e: Epte)
    requires Tree(root, pages, node) && Key(l, y / 512) in node && l <= 1
    requires l == 1 ==> Ent(pages, node, l, y) == NONE || Ent(pages, node, l, y).huge
    requires e == NONE || (if l == 0 then Leaf4K(e) else Leaf2M(e))
    ensures Tree(root, Put(pages, node, l, y, e), node)
  {
    var pages' := Put(pages, node, l, y, e);
    forall l', y'
      ensures Slotted(pages', node, l', y')
    {
      PutEnt(root, pages, node, l, y, e, l', y');
      assert Slotted(pages, node, l', y');
    }
    forall k | k in node
      ensures Linked(pages', node, k)
    {
      PutEnt(root, pages, node, l, y, e, k.level + 1, k.prefix);
      assert Linked(pages, node, k);
    }
  }

  /** Hanging a new empty table page p below slot (l, y). */
  function AddPages(pages: Pages, node: Nodes, l: nat, y: nat, p: nat): Pages
    requires Key(l, y / 512) in node && node[Key(l, y / 512)] in pages
    requires |pages[node[Key(l, y / 512)]]| == 512
  {
    Put(pages, node, l, y, Table(p))[p := Zeros()]
  }

  lemma AddEnt(root: nat, pages: Pages, node: Nodes, l: nat, y: nat, p: nat, l': nat, y': nat)
    requires Tree(root, pages, node) && 1 <= l <= 3 && Key(l, y / 512) in node
    requires Ent(pages, node, l, y) == NONE && p !in pages
    ensures Ent(AddPages(pages, node, l, y, p), node[Key(l - 1, y) := p], l', y')
         == if l' == l && y' == y then Table(p) else Ent(pages, node, l', y')
    ensures Key(l - 1, y) !in node
  {
    assert Key(l - 1, y) in node ==> Linked(pages, node, Key(l - 1, y));
    PutEnt(root, pages, node, l, y, Table(p), l', y');
  }

  lemma AddSlotted(root: nat, pages: Pages, node: Nodes, l: nat, y: nat, p: nat, l': nat, y': nat)
    requires Tree(root, pages, node) && 1 <= l <= 3 && Key(l, y / 512) in node
    requires Ent(pages, node, l, y) == NONE && p !in pages
    ensures Slotted(AddPages(pages, node, l, y, p), node[Key(l - 1, y) := p], l', y')
  {
    AddEnt(root, pages, node, l, y, p, l', y');
    assert Slotted(pages, node, l', y');
  }

  lemma AddLinked(root: nat, pages: Pages, node: Nodes, l: nat, y: nat, p: nat, k: Key)
    requires Tree(root, pages, node) && 1 <= l <= 3 && Key(l, y / 512) in node
    requires Ent(pages, node, l, y) == NONE && p !in pages
    requires k in node[Key(l - 1, y) := p]
    ensures Linked(AddPages(pages, node, l, y, p), node[Key(l - 1, y) := p], k)
  {
    AddEnt(root, pages, node, l, y, p, k.level + 1, k.prefix);
    if k != Key(l - 1, y) { assert Linked(pages, node, k); }
  }

  lemma AddOwned(pages: Pages, node: Nodes, l: nat, y: nat, p: nat)
    requires Key(l, y / 512) in node && node[Key(l, y / 512)] in pages && |pages[node[Key(l, y / 512)]]| == 512
    requires l >= 1 && Key(l - 1, y) !in node && forall q :: q in pages ==> Owned(node, q)
    ensures forall q :: q in AddPages(pages, node, l, y, p) ==> Owned(node[Key(l - 1, y) := p], q)
  {
    var node' := node[Key(l - 1, y) := p];
    forall q | q in AddPages(pages, node, l, y, p)
      ensures Owned(node', q)
    {
      if q == p {
        assert node'[Key(l - 1, y)] == q;
      } else {
        assert Owned(node, q);
        var k :| k in node && node[k] == q;
        assert node'[k] == q;
      }
    }
  }

  lemma AddTree(root: nat, pages: Pages, node: Nodes, l: nat, y: nat, p: nat)
    requires Tree(root, pages, node) && 1 <= l <= 3 && Key(l, y / 512) in node
    requires Ent(pages, node, l, y) == NONE && p !in pages && y < Bound(l - 1)
    ensures Tree(root, AddPages(pages, node, l, y, p), node[Key(l - 1, y) := p])
  {
    hide Ent, Slotted, Linked, Owned;
    var pages', node' := AddPages(pages, node, l, y, p), node[Key(l - 1, y) := p];
    AddEnt(root, pages, node, l, y, p, l, y);
    AddOwned(pages, node, l, y, p);
    forall l', y' ensures Slotted(pages', node', l', y') { AddSlotted(root, pages, node, l, y, p, l', y'); }
    forall k | k in node' ensures Linked(pages', node', k) { AddLinked(root, pages, node, l, y, p, k); }
  }

  /** Clearing slot (l, y) and giving back the table page below it. */
  function DropPages(pages: Pages, node: Nodes, l: nat, y: nat): Pages
    requires Key(l, y / 512) in node && node[Key(l, y / 512)] in pages
    requires |pages[node[Key(l, y / 512)]]| == 512
    requires l >= 1 && Key(l - 1, y) in node
  {
    Put(pages, node, l, y, NONE) - {node[Key(l - 1, y)]}
  }

  /** The table page below slot (l, y) has no table below it. */
  ghost predicate Bottom(pages: Pages, node: Nodes, l: nat, y: nat) {
    l <= 1 || forall z :: z / 512 == y ==> Ent(pages, node, l - 1, z) == NONE
  }

  lemma DropEnt(root: nat, pages: Pages, node: Nodes, l: nat, y: nat, l': nat, y': nat)
    requires Tree(root, pages, node) && 1 <= l <= 3 && Key(l, y / 512) in node && Key(l - 1, y) in node
    ensures Ent(DropPages(pages, node, l, y), node - {Key(l - 1, y)}, l', y')
         == if (l' == l && y' == y) || (l' == l - 1 && y' / 512 == y) then NONE else Ent(pages, node, l', y')
  {
    PutEnt(root, pages, node, l, y, NONE, l', y');
  }

  lemma DropSlotted(root: nat, pages: Pages, node: Nodes, l: nat, y: nat, l': nat, y': nat)
    requires Tree(root, pages, node) && 1 <= l <= 3 && Key(l, y / 512) in node && Key(l - 1, y) in node
    ensures Slotted(DropPages(pages, node, l, y), node - {Key(l - 1, y)}, l', y')
  {
    DropEnt(root, pages, node, l, y, l', y');
    assert Slotted(pages, node, l', y');
  }

  lemma DropLinked(root: nat, pages: Pages, node: Nodes, l: nat, y: nat, k: Key)
    requires Tree(root, pages, node) && 1 <= l <= 3 && Key(l, y / 512) in node && Key(l - 1, y) in node
    requires Bottom(pages, node, l, y) && k in node && k != Key(l - 1, y)
    ensures Linked(DropPages(pages, node, l, y), node - {Key(l - 1, y)}, k)
  {
    DropEnt(root, pages, node, l, y, k.level + 1, k.prefix);
    assert Linked(pages, node, k);
  }

  lemma DropTree(root: nat, pages: Pages, node: Nodes, l: nat, y: nat)
    requires Tree(root, pages, node) && 1 <= l <= 3 && Key(l, y / 512) in node && Key(l - 1, y) in node
    requires Bottom(pages, node, l, y)
    ensures Tree(root, DropPages(pages, node, l, y), node - {Key(l - 1, y)})
  {
    var pages', node' := DropPages(pages, node, l, y), node - {Key(l - 1, y)};
    forall l', y' ensures Slotted(pages', node', l', y') { DropSlotted(root, pages, node, l, y, l', y'); }
    forall k | k in node' ensures Linked(pages', node', k) { DropLinked(root, pages, node, l, y, k); }
    forall q | q in pages'
      ensures Owned(node', q)
    {
      assert Owned(node, q);
      var k :| k in node && node[k] == q;
      assert k in node' && node'[k] == q;
    }
  }
}
