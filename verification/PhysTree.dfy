/** The radix tree of exec.c: nodes in one array, superpage leaves, lazily allocated children and
    path compression.  A tree is described by a flat view: for every page the section index it
    resolves to. */
module PhysTree {
  import opened Arithmetic

  const P_L2_SIZE: nat := 512
  const PHYS_MAP_NODE_NIL: nat := 0x3FF_FFFF
  const PHYS_SECTION_UNASSIGNED: nat := 0

  /** PhysPageEntry: a leaf (skip 0, section index) or a pointer `skip` levels down. */
  datatype Entry = Entry(skip: nat, ptr: nat)

  const EMPTY: Entry := Entry(1, PHYS_MAP_NODE_NIL)
  const HOLE: Entry := Entry(0, PHYS_SECTION_UNASSIGNED)

  datatype Tree = Tree(root: Entry, nodes: seq<seq<Entry>>)

  /** Where an entry is stored: the dispatch's phys_map field, or a slot of a node. */
  datatype Loc = Root | Slot(node: nat, i: nat)

  // ---------------------------------------------------------------------------------------------
  // Page numbers, level by level
  // ---------------------------------------------------------------------------------------------

  /** p >> (h * P_L2_BITS) */
  function Up(p: nat, h: nat): nat
    decreases h
  {
    if h == 0 then p else Up(p / P_L2_SIZE, h - 1)
  }

  /** 1 << (h * P_L2_BITS) */
  function Step(h: nat): (r: nat)
    ensures r >= 1
  {
    if h == 0 then 1 else P_L2_SIZE * Step(h - 1)
  }

  lemma {:induction false} UpUp(p: nat, a: nat, b: nat)
    ensures Up(Up(p, a), b) == Up(p, a + b)
    decreases a
  {
    if a > 0 {
      UpUp(p / P_L2_SIZE, a - 1, b);
    }
  }

  lemma {:induction false} UpNext(p: nat, h: nat)
    ensures Up(p, h + 1) == Up(p, h) / P_L2_SIZE
  {
    UpUp(p, h, 1);
    assert Up(Up(p, h), 1) == Up(Up(p, h) / P_L2_SIZE, 0);
  }

  /** Shifting down is dividing by the step. */
  lemma {:induction false} UpDivides(p: nat, h: nat)
    ensures Up(p, h) * Step(h) <= p < (Up(p, h) + 1) * Step(h)
    decreases h
  {
    if h > 0 {
      UpDivides(p / P_L2_SIZE, h - 1);
      var q, s := Up(p, h), Step(h - 1);
      Spread(p, q * s, (q + 1) * s);
      Commutes(q, s);
      Commutes(q + 1, s);
    }
  }

  lemma {:induction false} Spread(p: nat, lo: nat, hi: nat)
    requires lo <= p / P_L2_SIZE < hi
    ensures P_L2_SIZE * lo <= p < P_L2_SIZE * hi
  {
  }

  lemma {:induction false} Commutes(q: nat, s: nat)
    ensures q * (P_L2_SIZE * s) == P_L2_SIZE * (q * s)
  {
  }

  /** Two multiples of the step enclose only one quotient. */
  lemma {:induction false} UpUnique(p: nat, h: nat, k: nat)
    requires k * Step(h) <= p < (k + 1) * Step(h)
    ensures Up(p, h) == k
  {
    UpDivides(p, h);
    var q, s := Up(p, h), Step(h);
    if q < k {
      Scaled(q + 1, k, s);
    } else if k < q {
      Scaled(k + 1, q, s);
    }
  }

  lemma {:induction false} UpIsDiv(p: nat, h: nat)
    ensures Up(p, h) == p / Step(h)
  {
    var s := Step(h);
    assert (p / s) * s <= p < (p / s) * s + s;
    UpUnique(p, h, p / s);
  }

  /** A slot of the level below the last step: the pages of an aligned range of one step. */
  lemma {:induction false} AlignedSlot(index: nat, h: nat)
    requires index % Step(h) == 0
    ensures index == Up(index, h) * Step(h) && index + Step(h) == (Up(index, h) + 1) * Step(h)
    ensures Up(index + Step(h), h) == Up(index, h) + 1
    ensures forall p: nat :: Up(p, h) == Up(index, h) <==> index <= p < index + Step(h)
  {
    UpIsDiv(index, h);
    var k, s := Up(index, h), Step(h);
    Whole(index, s);
    OneMore(k, s);
    OneMore(k + 1, s);
    UpUnique(index + s, h, k + 1);
    forall p: nat
      ensures Up(p, h) == k <==> index <= p < index + s
    {
      UpDivides(p, h);
      if index <= p < index + s {
        UpUnique(p, h, k);
      }
    }
  }

  /** The end of a slot, and of its node. */
  lemma {:induction false} SlotEnd(k: nat, i: nat, level: nat)
    requires i < P_L2_SIZE
    ensures (k * P_L2_SIZE + i + 1) * Step(level) <= (k + 1) * Step(level + 1)
    ensures i + 1 == P_L2_SIZE ==> (k * P_L2_SIZE + i + 1) * Step(level) == (k + 1) * Step(level + 1)
  {
    var s := Step(level);
    assert (k + 1) * Step(level + 1) == ((k + 1) * P_L2_SIZE) * s;
    var a, b := k * P_L2_SIZE + i + 1, (k + 1) * P_L2_SIZE;
    assert a <= b;
    if a < b {
      Scaled(a + 1, b, s);
    }
  }

  /** A multiple of a step is aligned, also for the level below. */
  lemma {:induction false} Multiple(k: nat, h: nat)
    ensures (k * Step(h)) % Step(h) == 0 && Up(k * Step(h), h) == k
  {
    var s := Step(h);
    assert k * s <= k * s < (k + 1) * s;
    UpUnique(k * s, h, k);
    UpIsDiv(k * s, h);
    assert k * s == s * ((k * s) / s) + (k * s) % s;
  }

  lemma {:induction false} AlignedBelow(index: nat, level: nat)
    requires index % Step(level + 1) == 0
    ensures index % Step(level) == 0
  {
    AlignedSlot(index, level + 1);
    var k, s := Up(index, level + 1), Step(level);
    assert index == (k * P_L2_SIZE) * s;
    Multiple(k * P_L2_SIZE, level);
  }

  // ---------------------------------------------------------------------------------------------
  // Looking a page up
  // ---------------------------------------------------------------------------------------------

  function Digit(p: nat, h: nat): (d: nat)
    ensures d < P_L2_SIZE
  {
    Up(p, h) % P_L2_SIZE
  }

  /** The section index phys_page_find reaches from an entry `h` levels above the pages. */
  function Walk(nodes: seq<seq<Entry>>, e: Entry, h: nat, p: nat): nat
    decreases h
  {
    if e.skip == 0 then e.ptr
    else if e.skip > h || e.ptr >= |nodes| || |nodes[e.ptr]| != P_L2_SIZE then PHYS_SECTION_UNASSIGNED
    else Walk(nodes, nodes[e.ptr][Digit(p, h - e.skip)], h - e.skip, p)
  }

  // ---------------------------------------------------------------------------------------------
  // The shape of a tree
  // ---------------------------------------------------------------------------------------------

  /** The pages p with Up(p, h) == k. */
  datatype Place = Place(h: nat, k: nat)

  /** Each node's place, the nodes in use, the section indices written as leaves, and the flat view of
      the pages. */
  datatype Shape = Shape(at: seq<Place>, live: set<nat>, leaves: set<nat>, view: seq<nat>)

  predicate LocOk(t: Tree, sh: Shape, loc: Loc) {
    loc.Slot? ==> loc.node in sh.live && loc.node < |t.nodes| && loc.i < |t.nodes[loc.node]|
  }

  function PlaceOf(levels: nat, sh: Shape, loc: Loc): Place
    requires loc.Slot? ==> loc.node < |sh.at| && sh.at[loc.node].h >= 1
  {
    match loc
    case Root => Place(levels, 0)
    case Slot(n, i) => Place(sh.at[n].h - 1, sh.at[n].k * P_L2_SIZE + i)
  }

  function Get(t: Tree, loc: Loc): Entry
    requires loc.Slot? ==> loc.node < |t.nodes| && loc.i < |t.nodes[loc.node]|
  {
    match loc
    case Root => t.root
    case Slot(n, i) => t.nodes[n][i]
  }

  function Put(t: Tree, loc: Loc, e: Entry): Tree
    requires loc.Slot? ==> loc.node < |t.nodes| && loc.i < |t.nodes[loc.node]|
  {
    match loc
    case Root => t.(root := e)
    case Slot(n, i) => t.(nodes := t.nodes[n := t.nodes[n][i := e]])
  }

  predicate Shaped(levels: nat, t: Tree, sh: Shape) {
    && |sh.at| == |t.nodes| && |t.nodes| <= PHYS_MAP_NODE_NIL && |sh.view| == Step(levels)
    && PHYS_MAP_NODE_NIL !in sh.leaves
    && (forall n :: 0 <= n < |t.nodes| ==> |t.nodes[n]| == P_L2_SIZE)
    && (forall n :: n in sh.live ==> n < |t.nodes| && 1 <= sh.at[n].h <= levels)
  }

  /** All pages of the place resolve to `s`. */
  predicate Filled(sh: Shape, q: Place, s: nat) {
    forall p :: 0 <= p < |sh.view| && Up(p, q.h) == q.k ==> sh.view[p] == s
  }

  /** An entry of a tree under construction. */
  predicate Fits(sh: Shape, q: Place, e: Entry) {
    && e.skip <= 1 && e.skip <= q.h
    && (e.skip == 0 ==> (e.ptr in sh.leaves || (e == HOLE && q.h == 0)) && Filled(sh, q, e.ptr))
    && (e == EMPTY ==> Filled(sh, q, PHYS_SECTION_UNASSIGNED))
    && (e.skip == 1 && e != EMPTY ==> e.ptr in sh.live && e.ptr < |sh.at| && sh.at[e.ptr] == q)
  }

  predicate Distinct(sh: Shape)
    requires forall n :: n in sh.live ==> n < |sh.at|
  {
    forall m, n :: m in sh.live && n in sh.live && sh.at[m] == sh.at[n] ==> m == n
  }

  ghost predicate Attached(levels: nat, t: Tree, sh: Shape, m: nat)
    requires Shaped(levels, t, sh) && m < |sh.at|
  {
    exists loc :: LocOk(t, sh, loc) && PlaceOf(levels, sh, loc) == sh.at[m] && Get(t, loc) == Entry(1, m)
  }

  /** A tree under construction: nothing skipped, every leaf exact, every node in one place. */
  ghost predicate Plain(levels: nat, t: Tree, sh: Shape) {
    && Shaped(levels, t, sh)
    && (forall loc :: LocOk(t, sh, loc) ==> Fits(sh, PlaceOf(levels, sh, loc), Get(t, loc)))
    && Distinct(sh)
    && (forall m :: m in sh.live ==> Attached(levels, t, sh, m))
  }

  lemma {:induction false} PlainInit(levels: nat, t: Tree, sh: Shape)
    requires t == Tree(EMPTY, []) && sh.at == [] && sh.live == {} && sh.leaves == {}
    requires |sh.view| == Step(levels) && levels >= 1
    requires forall p :: 0 <= p < |sh.view| ==> sh.view[p] == PHYS_SECTION_UNASSIGNED
    ensures Plain(levels, t, sh)
  {
  }

  /** Different locations hold different places. */
  lemma {:induction false} LocUnique(levels: nat, t: Tree, sh: Shape, a: Loc, b: Loc)
    requires Plain(levels, t, sh) && LocOk(t, sh, a) && LocOk(t, sh, b)
    requires PlaceOf(levels, sh, a) == PlaceOf(levels, sh, b)
    ensures a == b
  {
    if a.Slot? && b.Slot? {
      assert sh.at[a.node] == sh.at[b.node];
    }
  }

  /** Two places share a page only if one lies within the other. */
  predicate Within(a: Place, b: Place) {
    a.h <= b.h && Up(a.k, b.h - a.h) == b.k
  }

  lemma {:induction false} ShareNest(p: nat, a: Place, b: Place)
    requires Up(p, a.h) == a.k && Up(p, b.h) == b.k && a.h <= b.h
    ensures Within(a, b)
  {
    UpUp(p, a.h, b.h - a.h);
  }

  /** The place of a slot lies directly within the place of its node. */
  lemma {:induction false} SlotWithin(levels: nat, t: Tree, sh: Shape, loc: Loc, b: Place)
    requires Shaped(levels, t, sh) && LocOk(t, sh, loc) && loc.Slot? && PlaceOf(levels, sh, loc).h < b.h
    ensures Within(PlaceOf(levels, sh, loc), b) <==> Within(sh.at[loc.node], b)
  {
    var q := PlaceOf(levels, sh, loc);
    assert Up(q.k, b.h - q.h) == Up(q.k / P_L2_SIZE, b.h - q.h - 1);
    assert q.k / P_L2_SIZE == sh.at[loc.node].k;
  }

  /** Every entry above a node in use is a pointer. */
  lemma {:induction false} Above(levels: nat, t: Tree, sh: Shape, m: nat, loc: Loc)
    requires Plain(levels, t, sh) && m in sh.live && LocOk(t, sh, loc)
    requires Within(sh.at[m], PlaceOf(levels, sh, loc))
    ensures Get(t, loc).skip == 1 && Get(t, loc) != EMPTY
    decreases PlaceOf(levels, sh, loc).h - sh.at[m].h
  {
    assert Attached(levels, t, sh, m);
    var par :| LocOk(t, sh, par) && PlaceOf(levels, sh, par) == sh.at[m] && Get(t, par) == Entry(1, m);
    if sh.at[m].h == PlaceOf(levels, sh, loc).h {
      LocUnique(levels, t, sh, par, loc);
    } else {
      SlotWithin(levels, t, sh, par, PlaceOf(levels, sh, loc));
      Above(levels, t, sh, par.node, loc);
    }
  }

  // ---------------------------------------------------------------------------------------------
  // Writing a leaf
  // ---------------------------------------------------------------------------------------------

  function Paint(view: seq<nat>, q: Place, leaf: nat): (r: seq<nat>)
    ensures |r| == |view|
    ensures forall p :: 0 <= p < |view| ==> r[p] == if Up(p, q.h) == q.k then leaf else view[p]
  {
    seq(|view|, p requires 0 <= p < |view| => if Up(p, q.h) == q.k then leaf else view[p])
  }

  /** The shape after a leaf has replaced the entry at place `q`: nodes below it are out of use. */
  function LeafShape(sh: Shape, q: Place, leaf: nat): Shape
    requires forall m :: m in sh.live ==> m < |sh.at|
  {
    Shape(sh.at, (set m | m in sh.live && !Within(sh.at[m], q)), sh.leaves + {leaf}, Paint(sh.view, q, leaf))
  }

  /** No other entry in use shares a page with the one overwritten, unless it lies above it. */
  lemma {:induction false} LeafApart(levels: nat, t: Tree, sh: Shape, lp: Loc, loc: Loc)
    requires Plain(levels, t, sh) && LocOk(t, sh, lp) && LocOk(t, sh, loc) && loc != lp
    requires loc.Slot? ==> !Within(sh.at[loc.node], PlaceOf(levels, sh, lp))
    ensures !Within(PlaceOf(levels, sh, loc), PlaceOf(levels, sh, lp))
    ensures Within(PlaceOf(levels, sh, lp), PlaceOf(levels, sh, loc)) ==>
              Get(t, loc).skip == 1 && Get(t, loc) != EMPTY
  {
    var q, q' := PlaceOf(levels, sh, lp), PlaceOf(levels, sh, loc);
    if Within(q', q) {
      if q'.h == q.h {
        LocUnique(levels, t, sh, lp, loc);
      } else {
        SlotWithin(levels, t, sh, loc, q);
      }
    }
    if Within(q, q') {
      if q.h == q'.h {
        LocUnique(levels, t, sh, lp, loc);
      } else {
        SlotWithin(levels, t, sh, lp, q');
        Above(levels, t, sh, lp.node, loc);
      }
    }
  }

  lemma {:induction false} LeafFits(levels: nat, t: Tree, sh: Shape, lp: Loc, leaf: nat, loc: Loc)
    requires Plain(levels, t, sh) && LocOk(t, sh, lp) && LocOk(t, sh, loc) && loc != lp
    requires loc.Slot? ==> !Within(sh.at[loc.node], PlaceOf(levels, sh, lp))
    ensures Fits(LeafShape(sh, PlaceOf(levels, sh, lp), leaf), PlaceOf(levels, sh, loc), Get(t, loc))
  {
    var q, q', e := PlaceOf(levels, sh, lp), PlaceOf(levels, sh, loc), Get(t, loc);
    LeafApart(levels, t, sh, lp, loc);
    forall p | 0 <= p < |sh.view| && Up(p, q'.h) == q'.k && (e.skip == 0 || e == EMPTY)
      ensures Up(p, q.h) != q.k
    {
      if Up(p, q.h) == q.k {
        if q'.h <= q.h {
          ShareNest(p, q', q);
        } else {
          ShareNest(p, q, q');
        }
      }
    }
  }

  lemma {:induction false} LeafShaped(levels: nat, t: Tree, sh: Shape, lp: Loc, leaf: nat)
    requires Shaped(levels, t, sh) && LocOk(t, sh, lp) && leaf != PHYS_MAP_NODE_NIL
    ensures Shaped(levels, Put(t, lp, Entry(0, leaf)), LeafShape(sh, PlaceOf(levels, sh, lp), leaf))
  {
  }

  lemma {:induction false} LeafAttached(levels: nat, t: Tree, sh: Shape, lp: Loc, leaf: nat, m: nat)
    requires Plain(levels, t, sh) && LocOk(t, sh, lp)
    requires m in sh.live && !Within(sh.at[m], PlaceOf(levels, sh, lp))
    requires Shaped(levels, Put(t, lp, Entry(0, leaf)), LeafShape(sh, PlaceOf(levels, sh, lp), leaf))
    ensures Attached(levels, Put(t, lp, Entry(0, leaf)), LeafShape(sh, PlaceOf(levels, sh, lp), leaf), m)
  {
    assert Attached(levels, t, sh, m);
    var par :| LocOk(t, sh, par) && PlaceOf(levels, sh, par) == sh.at[m] && Get(t, par) == Entry(1, m);
    LeafKeepsParent(levels, t, sh, lp, leaf, m, par);
  }

  lemma {:induction false} LeafKeepsParent(levels: nat, t: Tree, sh: Shape, lp: Loc, leaf: nat, m: nat, par: Loc)
    requires Shaped(levels, t, sh) && LocOk(t, sh, lp) && LocOk(t, sh, par)
    requires m in sh.live && !Within(sh.at[m], PlaceOf(levels, sh, lp))
    requires Shaped(levels, Put(t, lp, Entry(0, leaf)), LeafShape(sh, PlaceOf(levels, sh, lp), leaf))
    requires PlaceOf(levels, sh, par) == sh.at[m] && Get(t, par) == Entry(1, m)
    ensures Attached(levels, Put(t, lp, Entry(0, leaf)), LeafShape(sh, PlaceOf(levels, sh, lp), leaf), m)
  {
    var q := PlaceOf(levels, sh, lp);
    var t', sh' := Put(t, lp, Entry(0, leaf)), LeafShape(sh, q, leaf);
    if par.Slot? && Within(sh.at[par.node], q) {
      SlotWithin(levels, t, sh, par, q);
    }
    assert LocOk(t', sh', par);
    assert PlaceOf(levels, sh', par) == sh'.at[m] && Get(t', par) == Entry(1, m);
  }

  lemma {:induction false} LeafNodes(levels: nat, t: Tree, sh: Shape, lp: Loc, leaf: nat)
    requires Plain(levels, t, sh) && LocOk(t, sh, lp)
    requires Shaped(levels, Put(t, lp, Entry(0, leaf)), LeafShape(sh, PlaceOf(levels, sh, lp), leaf))
    ensures forall m :: m in LeafShape(sh, PlaceOf(levels, sh, lp), leaf).live ==>
              Attached(levels, Put(t, lp, Entry(0, leaf)), LeafShape(sh, PlaceOf(levels, sh, lp), leaf), m)
  {
    forall m | m in LeafShape(sh, PlaceOf(levels, sh, lp), leaf).live
      ensures Attached(levels, Put(t, lp, Entry(0, leaf)), LeafShape(sh, PlaceOf(levels, sh, lp), leaf), m)
    {
      LeafAttached(levels, t, sh, lp, leaf, m);
    }
  }

  lemma {:induction false} LeafLoc(levels: nat, t: Tree, sh: Shape, lp: Loc, leaf: nat, t': Tree, sh': Shape, loc: Loc)
    requires Plain(levels, t, sh) && LocOk(t, sh, lp)
    requires t' == Put(t, lp, Entry(0, leaf)) && sh' == LeafShape(sh, PlaceOf(levels, sh, lp), leaf)
    requires LocOk(t', sh', loc)
    ensures Fits(sh', PlaceOf(levels, sh', loc), Get(t', loc))
  {
    assert PlaceOf(levels, sh', loc) == PlaceOf(levels, sh, loc);
    if loc != lp {
      assert LocOk(t, sh, loc) && Get(t', loc) == Get(t, loc);
      LeafFits(levels, t, sh, lp, leaf, loc);
    }
  }

  lemma {:induction false} LeafKeepsPlain(levels: nat, t: Tree, sh: Shape, lp: Loc, leaf: nat)
    requires Plain(levels, t, sh) && LocOk(t, sh, lp) && leaf != PHYS_MAP_NODE_NIL
    ensures Plain(levels, Put(t, lp, Entry(0, leaf)), LeafShape(sh, PlaceOf(levels, sh, lp), leaf))
  {
    LeafShaped(levels, t, sh, lp, leaf);
    LeafNodes(levels, t, sh, lp, leaf);
    var t', sh' := Put(t, lp, Entry(0, leaf)), LeafShape(sh, PlaceOf(levels, sh, lp), leaf);
    forall loc | LocOk(t', sh', loc)
      ensures Fits(sh', PlaceOf(levels, sh', loc), Get(t', loc))
    {
      LeafLoc(levels, t, sh, lp, leaf, t', sh', loc);
    }
  }

  // ---------------------------------------------------------------------------------------------
  // Allocating a node
  // ---------------------------------------------------------------------------------------------

  /** phys_map_node_alloc fills a bottom node with holes and any other node with empty entries. */
  function FreshNode(leaf: bool): (r: seq<Entry>)
    ensures |r| == P_L2_SIZE && forall i :: 0 <= i < P_L2_SIZE ==> r[i] == if leaf then HOLE else EMPTY
  {
    seq(P_L2_SIZE, _ => if leaf then HOLE else EMPTY)
  }

  function Grown(levels: nat, t: Tree, sh: Shape, lp: Loc): Tree
    requires Shaped(levels, t, sh) && LocOk(t, sh, lp)
  {
    Put(t.(nodes := t.nodes + [FreshNode(PlaceOf(levels, sh, lp).h == 1)]), lp, Entry(1, |t.nodes|))
  }

  function GrownShape(levels: nat, t: Tree, sh: Shape, lp: Loc): Shape
    requires Shaped(levels, t, sh) && LocOk(t, sh, lp)
  {
    sh.(at := sh.at + [PlaceOf(levels, sh, lp)], live := sh.live + {|t.nodes|})
  }

  lemma {:induction false} GrowFits(sh: Shape, sh': Shape, q: Place, i: nat)
    requires Fits(sh, q, EMPTY) && i < P_L2_SIZE
    requires sh'.view == sh.view
    ensures Fits(sh', Place(q.h - 1, q.k * P_L2_SIZE + i), FreshNode(q.h == 1)[i])
  {
    forall p | 0 <= p < |sh.view| && Up(p, q.h - 1) == q.k * P_L2_SIZE + i
      ensures Up(p, q.h) == q.k
    {
      UpNext(p, q.h - 1);
    }
  }

  lemma {:induction false} GrowAttached(levels: nat, t: Tree, sh: Shape, lp: Loc, n: nat)
    requires Plain(levels, t, sh) && LocOk(t, sh, lp) && Get(t, lp) == EMPTY && n in sh.live
    requires |t.nodes| < PHYS_MAP_NODE_NIL
    requires Shaped(levels, Grown(levels, t, sh, lp), GrownShape(levels, t, sh, lp))
    ensures Attached(levels, Grown(levels, t, sh, lp), GrownShape(levels, t, sh, lp), n)
    ensures sh.at[n] != PlaceOf(levels, sh, lp)
  {
    assert Attached(levels, t, sh, n);
    var par :| LocOk(t, sh, par) && PlaceOf(levels, sh, par) == sh.at[n] && Get(t, par) == Entry(1, n);
    if sh.at[n] == PlaceOf(levels, sh, lp) {
      LocUnique(levels, t, sh, par, lp);
    }
    GrowKeepsParent(levels, t, sh, lp, n, par);
  }

  lemma {:induction false} GrowKeepsParent(levels: nat, t: Tree, sh: Shape, lp: Loc, n: nat, par: Loc)
    requires Shaped(levels, t, sh) && LocOk(t, sh, lp) && LocOk(t, sh, par) && par != lp && n in sh.live
    requires Shaped(levels, Grown(levels, t, sh, lp), GrownShape(levels, t, sh, lp))
    requires PlaceOf(levels, sh, par) == sh.at[n] && Get(t, par) == Entry(1, n)
    ensures Attached(levels, Grown(levels, t, sh, lp), GrownShape(levels, t, sh, lp), n)
  {
    var t', sh' := Grown(levels, t, sh, lp), GrownShape(levels, t, sh, lp);
    assert LocOk(t', sh', par);
    GrowGet(levels, t, sh, lp, par);
    assert PlaceOf(levels, sh', par) == sh'.at[n];
  }

  lemma {:induction false} GrowShaped(levels: nat, t: Tree, sh: Shape, lp: Loc)
    requires Plain(levels, t, sh) && LocOk(t, sh, lp) && Get(t, lp) == EMPTY
    requires |t.nodes| < PHYS_MAP_NODE_NIL
    ensures Shaped(levels, Grown(levels, t, sh, lp), GrownShape(levels, t, sh, lp))
  {
    assert Fits(sh, PlaceOf(levels, sh, lp), EMPTY);
  }

  /** What is stored where after a node has been allocated. */
  lemma {:induction false} GrowGet(levels: nat, t: Tree, sh: Shape, lp: Loc, loc: Loc)
    requires Shaped(levels, t, sh) && LocOk(t, sh, lp)
    requires LocOk(Grown(levels, t, sh, lp), GrownShape(levels, t, sh, lp), loc)
    ensures loc.Slot? && loc.node == |t.nodes| ==>
      loc.i < P_L2_SIZE && Get(Grown(levels, t, sh, lp), loc) == FreshNode(PlaceOf(levels, sh, lp).h == 1)[loc.i]
    ensures !(loc.Slot? && loc.node == |t.nodes|) ==>
      LocOk(t, sh, loc)
      && Get(Grown(levels, t, sh, lp), loc) == if loc == lp then Entry(1, |t.nodes|) else Get(t, loc)
  {
  }

  lemma {:induction false} GrowLoc(levels: nat, t: Tree, sh: Shape, lp: Loc, loc: Loc)
    requires Shaped(levels, t, sh) && LocOk(t, sh, lp) && Fits(sh, PlaceOf(levels, sh, lp), EMPTY)
    requires |t.nodes| < PHYS_MAP_NODE_NIL
    requires LocOk(t, sh, loc) ==> Fits(sh, PlaceOf(levels, sh, loc), Get(t, loc))
    requires Shaped(levels, Grown(levels, t, sh, lp), GrownShape(levels, t, sh, lp))
    requires LocOk(Grown(levels, t, sh, lp), GrownShape(levels, t, sh, lp), loc)
    ensures Fits(GrownShape(levels, t, sh, lp), PlaceOf(levels, GrownShape(levels, t, sh, lp), loc),
                 Get(Grown(levels, t, sh, lp), loc))
  {
    var sh' := GrownShape(levels, t, sh, lp);
    GrowGet(levels, t, sh, lp, loc);
    if loc.Slot? && loc.node == |t.nodes| {
      GrowFits(sh, sh', PlaceOf(levels, sh, lp), loc.i);
    } else if loc != lp {
      assert PlaceOf(levels, sh', loc) == PlaceOf(levels, sh, loc);
      GrowKeepsFits(sh, sh', PlaceOf(levels, sh, loc), Get(t, loc));
    }
  }

  lemma {:induction false} GrowKeepsFits(sh: Shape, sh': Shape, q: Place, e: Entry)
    requires Fits(sh, q, e) && sh'.view == sh.view && sh'.leaves == sh.leaves
    requires sh.live <= sh'.live && sh.at <= sh'.at
    ensures Fits(sh', q, e)
  {
  }

  lemma {:induction false} GrowSelf(levels: nat, t: Tree, sh: Shape, lp: Loc)
    requires Shaped(levels, t, sh) && LocOk(t, sh, lp)
    requires Shaped(levels, Grown(levels, t, sh, lp), GrownShape(levels, t, sh, lp))
    ensures Attached(levels, Grown(levels, t, sh, lp), GrownShape(levels, t, sh, lp), |t.nodes|)
  {
    var t', sh' := Grown(levels, t, sh, lp), GrownShape(levels, t, sh, lp);
    assert LocOk(t', sh', lp);
    assert PlaceOf(levels, sh', lp) == sh'.at[|t.nodes|];
    assert Get(t', lp) == Entry(1, |t.nodes|);
  }

  lemma {:induction false} GrowNodes(levels: nat, t: Tree, sh: Shape, lp: Loc)
    requires Plain(levels, t, sh) && LocOk(t, sh, lp) && Get(t, lp) == EMPTY && |t.nodes| < PHYS_MAP_NODE_NIL
    requires Shaped(levels, Grown(levels, t, sh, lp), GrownShape(levels, t, sh, lp))
    ensures forall n :: n in GrownShape(levels, t, sh, lp).live ==>
              Attached(levels, Grown(levels, t, sh, lp), GrownShape(levels, t, sh, lp), n)
    ensures forall n :: n in sh.live ==> sh.at[n] != PlaceOf(levels, sh, lp)
  {
    forall n | n in GrownShape(levels, t, sh, lp).live
      ensures Attached(levels, Grown(levels, t, sh, lp), GrownShape(levels, t, sh, lp), n)
      ensures n in sh.live ==> sh.at[n] != PlaceOf(levels, sh, lp)
    {
      if n == |t.nodes| {
        GrowSelf(levels, t, sh, lp);
      } else {
        GrowAttached(levels, t, sh, lp, n);
      }
    }
  }

  lemma {:induction false} GrowDistinct(sh: Shape, sh': Shape, q: Place)
    requires forall n :: n in sh.live ==> n < |sh.at| && sh.at[n] != q
    requires Distinct(sh) && sh'.at == sh.at + [q] && sh'.live == sh.live + {|sh.at|}
    ensures Distinct(sh')
  {
  }

  lemma {:induction false} GrowKeepsPlain(levels: nat, t: Tree, sh: Shape, lp: Loc)
    requires Plain(levels, t, sh) && LocOk(t, sh, lp) && Get(t, lp) == EMPTY
    requires |t.nodes| < PHYS_MAP_NODE_NIL
    ensures Plain(levels, Grown(levels, t, sh, lp), GrownShape(levels, t, sh, lp))
  {
    GrowShaped(levels, t, sh, lp);
    GrowNodes(levels, t, sh, lp);
    GrowDistinct(sh, GrownShape(levels, t, sh, lp), PlaceOf(levels, sh, lp));
    forall loc | LocOk(Grown(levels, t, sh, lp), GrownShape(levels, t, sh, lp), loc)
      ensures Fits(GrownShape(levels, t, sh, lp), PlaceOf(levels, GrownShape(levels, t, sh, lp), loc),
                   Get(Grown(levels, t, sh, lp), loc))
    {
      GrowLoc(levels, t, sh, lp, loc);
    }
  }

  // ---------------------------------------------------------------------------------------------
  // Lookup agrees with the flat view
  // ---------------------------------------------------------------------------------------------

  lemma {:induction false} WalkPlain(levels: nat, t: Tree, sh: Shape, loc: Loc, p: nat)
    requires Plain(levels, t, sh) && LocOk(t, sh, loc) && p < |sh.view|
    requires Up(p, PlaceOf(levels, sh, loc).h) == PlaceOf(levels, sh, loc).k
    ensures Walk(t.nodes, Get(t, loc), PlaceOf(levels, sh, loc).h, p) == sh.view[p]
  {
    WalkFitted(levels, t, sh, loc, p);
  }

  ghost predicate Fitted(levels: nat, t: Tree, sh: Shape) {
    Shaped(levels, t, sh) && forall loc :: LocOk(t, sh, loc) ==> Fits(sh, PlaceOf(levels, sh, loc), Get(t, loc))
  }

  lemma {:induction false} WalkFitted(levels: nat, t: Tree, sh: Shape, loc: Loc, p: nat)
    requires Fitted(levels, t, sh) && LocOk(t, sh, loc) && p < |sh.view|
    requires Up(p, PlaceOf(levels, sh, loc).h) == PlaceOf(levels, sh, loc).k
    ensures Walk(t.nodes, Get(t, loc), PlaceOf(levels, sh, loc).h, p) == sh.view[p]
    decreases PlaceOf(levels, sh, loc).h
  {
    var e, q := Get(t, loc), PlaceOf(levels, sh, loc);
    assert Fits(sh, q, e);
    if e.skip == 1 && e != EMPTY {
      ChildSlot(levels, t, sh, e.ptr, p);
      WalkFitted(levels, t, sh, Slot(e.ptr, Digit(p, q.h - 1)), p);
      WalkDown(t.nodes, e, q.h, p);
    } else {
      WalkEnds(t.nodes, sh, q, e, p);
    }
  }

  lemma {:induction false} WalkDown(nodes: seq<seq<Entry>>, e: Entry, h: nat, p: nat)
    requires e.skip == 1 <= h && e.ptr < |nodes| && |nodes[e.ptr]| == P_L2_SIZE
    ensures Walk(nodes, e, h, p) == Walk(nodes, nodes[e.ptr][Digit(p, h - 1)], h - 1, p)
  {
  }

  lemma {:induction false} WalkEnds(nodes: seq<seq<Entry>>, sh: Shape, q: Place, e: Entry, p: nat)
    requires Fits(sh, q, e) && (e.skip == 0 || e == EMPTY) && p < |sh.view| && Up(p, q.h) == q.k &&
             |nodes| <= PHYS_MAP_NODE_NIL
    ensures Walk(nodes, e, q.h, p) == sh.view[p]
  {
  }

  /** The slot of a node that the page's digit selects. */
  lemma {:induction false} ChildSlot(levels: nat, t: Tree, sh: Shape, n: nat, p: nat)
    requires Shaped(levels, t, sh) && n in sh.live
    ensures var next := Slot(n, Digit(p, sh.at[n].h - 1));
      && LocOk(t, sh, next) && PlaceOf(levels, sh, next).h == sh.at[n].h - 1
      && (Up(p, sh.at[n].h) == sh.at[n].k ==> PlaceOf(levels, sh, next).k == Up(p, sh.at[n].h - 1))
  {
    UpNext(p, sh.at[n].h - 1);
  }

  // ---------------------------------------------------------------------------------------------
  // Path compression
  // ---------------------------------------------------------------------------------------------

  /** All pages of the place resolve to `s` or are unassigned. */
  predicate Holds(sh: Shape, q: Place, s: nat) {
    forall p :: 0 <= p < |sh.view| && Up(p, q.h) == q.k ==>
      sh.view[p] == s || sh.view[p] == PHYS_SECTION_UNASSIGNED
  }

  /** All pages of the place outside `inner` are unassigned. */
  predicate EmptyOutside(sh: Shape, q: Place, inner: Place) {
    forall p :: 0 <= p < |sh.view| && Up(p, q.h) == q.k && Up(p, inner.h) != inner.k ==>
      sh.view[p] == PHYS_SECTION_UNASSIGNED
  }

  /** An entry of a compressed tree.  A leaf may stand for more pages than its section covers, and a
      pointer may skip levels whose index bits are then not looked at; in both cases the pages that
      are wrongly led there are unassigned. */
  predicate Packs(sh: Shape, q: Place, e: Entry) {
    && e.skip <= q.h
    && (e.skip == 0 ==> (e.ptr in sh.leaves || e == HOLE) && Holds(sh, q, e.ptr))
    && (e.skip > 0 && e.ptr == PHYS_MAP_NODE_NIL ==> Filled(sh, q, PHYS_SECTION_UNASSIGNED))
    && (e.skip > 0 && e.ptr != PHYS_MAP_NODE_NIL ==>
        && e.ptr in sh.live && e.ptr < |sh.at| && sh.at[e.ptr].h == q.h - e.skip + 1
        && Within(sh.at[e.ptr], q) && EmptyOutside(sh, q, sh.at[e.ptr]))
  }

  ghost predicate Packed(levels: nat, t: Tree, sh: Shape) {
    && Shaped(levels, t, sh)
    && (forall loc :: LocOk(t, sh, loc) ==> Packs(sh, PlaceOf(levels, sh, loc), Get(t, loc)))
  }

  lemma {:induction false} PlainIsPacked(levels: nat, t: Tree, sh: Shape)
    requires Plain(levels, t, sh)
    ensures Packed(levels, t, sh)
  {
    forall loc | LocOk(t, sh, loc)
      ensures Packs(sh, PlaceOf(levels, sh, loc), Get(t, loc))
    {
      assert Fits(sh, PlaceOf(levels, sh, loc), Get(t, loc));
    }
  }

  /** The entry that replaces a pointer to a node with a single used slot `child`. */
  function Merged(e: Entry, child: Entry): Entry {
    if child.skip == 0 then Entry(0, child.ptr) else Entry(e.skip + child.skip, child.ptr)
  }

  /** A page of the node's place is unassigned unless it lies in slot `j`. */
  lemma {:induction false} OnlySlot(levels: nat, t: Tree, sh: Shape, n: nat, j: nat, p: nat)
    requires Packed(levels, t, sh) && n in sh.live && j < P_L2_SIZE && p < |sh.view|
    requires forall i :: 0 <= i < P_L2_SIZE && i != j ==> t.nodes[n][i].ptr == PHYS_MAP_NODE_NIL
    requires Up(p, sh.at[n].h) == sh.at[n].k
    ensures Up(p, sh.at[n].h - 1) == PlaceOf(levels, sh, Slot(n, j)).k || sh.view[p] == PHYS_SECTION_UNASSIGNED
  {
    ChildSlot(levels, t, sh, n, p);
    var next := Slot(n, Digit(p, sh.at[n].h - 1));
    assert Packs(sh, PlaceOf(levels, sh, next), Get(t, next));
  }

  lemma {:induction false} MergedPacks(levels: nat, t: Tree, sh: Shape, lp: Loc, j: nat)
    requires Packed(levels, t, sh) && LocOk(t, sh, lp) && j < P_L2_SIZE
    requires Get(t, lp).skip > 0 && Get(t, lp).ptr < |t.nodes|
    requires var node := t.nodes[Get(t, lp).ptr];
      && node[j].ptr != PHYS_MAP_NODE_NIL
      && forall i :: 0 <= i < P_L2_SIZE && i != j ==> node[i].ptr == PHYS_MAP_NODE_NIL
    ensures Packs(sh, PlaceOf(levels, sh, lp), Merged(Get(t, lp), t.nodes[Get(t, lp).ptr][j]))
  {
    var e, q := Get(t, lp), PlaceOf(levels, sh, lp);
    var n := e.ptr;
    var child, c := t.nodes[n][j], PlaceOf(levels, sh, Slot(n, j));
    assert Packs(sh, q, e);
    assert Packs(sh, c, child) by { assert LocOk(t, sh, Slot(n, j)) && Get(t, Slot(n, j)) == child; }
    forall p | 0 <= p < |sh.view| && Up(p, q.h) == q.k && Up(p, c.h) != c.k
      ensures sh.view[p] == PHYS_SECTION_UNASSIGNED
    {
      if Up(p, sh.at[n].h) == sh.at[n].k {
        OnlySlot(levels, t, sh, n, j, p);
      }
    }
    if child.skip > 0 {
      MergedWithin(sh.at[child.ptr], c, sh.at[n], q);
      forall p | 0 <= p < |sh.view| && Up(p, q.h) == q.k && Up(p, sh.at[child.ptr].h) != sh.at[child.ptr].k
        ensures sh.view[p] == PHYS_SECTION_UNASSIGNED
      {
      }
    }
  }

  lemma {:induction false} MergedWithin(m: Place, c: Place, n: Place, q: Place)
    requires Within(m, c) && Within(n, q) && n.h == c.h + 1 && c.k / P_L2_SIZE == n.k
    ensures Within(m, q)
  {
    UpUp(m.k, c.h - m.h, q.h - c.h);
    assert Up(c.k, q.h - c.h) == Up(c.k / P_L2_SIZE, q.h - n.h);
  }

  lemma {:induction false} MergeKeepsPacked(levels: nat, t: Tree, sh: Shape, lp: Loc, e: Entry)
    requires Packed(levels, t, sh) && LocOk(t, sh, lp) && Packs(sh, PlaceOf(levels, sh, lp), e)
    ensures Packed(levels, Put(t, lp, e), sh)
  {
    forall loc | LocOk(Put(t, lp, e), sh, loc)
      ensures Packs(sh, PlaceOf(levels, sh, loc), Get(Put(t, lp, e), loc))
    {
      assert LocOk(t, sh, loc);
    }
  }

  /** In a compressed tree a lookup ends at some leaf, and at the right one unless the page is
      unassigned. */
  lemma {:induction false} WalkPacked(levels: nat, t: Tree, sh: Shape, loc: Loc, p: nat)
    requires Packed(levels, t, sh) && LocOk(t, sh, loc) && p < |sh.view|
    ensures var s := Walk(t.nodes, Get(t, loc), PlaceOf(levels, sh, loc).h, p);
      s in sh.leaves || s == PHYS_SECTION_UNASSIGNED
    ensures Up(p, PlaceOf(levels, sh, loc).h) == PlaceOf(levels, sh, loc).k ==>
              || sh.view[p] == Walk(t.nodes, Get(t, loc), PlaceOf(levels, sh, loc).h, p)
              || sh.view[p] == PHYS_SECTION_UNASSIGNED
    decreases PlaceOf(levels, sh, loc).h
  {
    var e, q := Get(t, loc), PlaceOf(levels, sh, loc);
    assert Packs(sh, q, e);
    if e.skip > 0 && e.ptr != PHYS_MAP_NODE_NIL {
      ChildSlot(levels, t, sh, e.ptr, p);
      WalkPacked(levels, t, sh, Slot(e.ptr, Digit(p, sh.at[e.ptr].h - 1)), p);
    }
  }
}
