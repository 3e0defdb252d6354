/** Building, compressing and searching the physical page map of exec.c, in place. */
module PhysMap {
  import opened PhysTree

  /** No page of [index, index + nb) lies in the place. */
  ghost predicate Misses(q: Place, index: nat, nb: nat) {
    forall p: nat :: index <= p < index + nb ==> Up(p, q.h) != q.k
  }

  /** No page of [index, index + nb) lies under a superpage leaf. */
  ghost predicate Clear(levels: nat, t: Tree, sh: Shape, index: nat, nb: nat)
    requires Shaped(levels, t, sh)
  {
    forall loc :: LocOk(t, sh, loc) && Get(t, loc).skip == 0 && PlaceOf(levels, sh, loc).h >= 1 ==>
      Misses(PlaceOf(levels, sh, loc), index, nb)
  }

  lemma {:induction false} SlotPlace(levels: nat, t: Tree, sh: Shape, n: nat, i: nat, level: nat, index: nat)
    requires Plain(levels, t, sh) && n in sh.live && sh.at[n].h == level + 1 && i < P_L2_SIZE
    requires Up(index, level) == sh.at[n].k * P_L2_SIZE + i
    ensures LocOk(t, sh, Slot(n, i)) && PlaceOf(levels, sh, Slot(n, i)) == Place(level, Up(index, level))
  {
  }

  lemma {:induction false} NotLeaf(levels: nat, t: Tree, sh: Shape, loc: Loc, index: nat, nb: nat)
    requires Plain(levels, t, sh) && LocOk(t, sh, loc) && Clear(levels, t, sh, index, nb) && nb > 0
    requires PlaceOf(levels, sh, loc).h >= 1
    requires Up(index, PlaceOf(levels, sh, loc).h) == PlaceOf(levels, sh, loc).k
    ensures Get(t, loc).skip == 1
  {
    assert Fits(sh, PlaceOf(levels, sh, loc), Get(t, loc));
    assert !Misses(PlaceOf(levels, sh, loc), index, nb);
  }

  lemma {:induction false} ClearGrow(levels: nat, t: Tree, sh: Shape, lp: Loc, index: nat, nb: nat)
    requires Shaped(levels, t, sh) && LocOk(t, sh, lp) && Clear(levels, t, sh, index, nb)
    requires Shaped(levels, Grown(levels, t, sh, lp), GrownShape(levels, t, sh, lp))
    ensures Clear(levels, Grown(levels, t, sh, lp), GrownShape(levels, t, sh, lp), index, nb)
  {
    var t', sh' := Grown(levels, t, sh, lp), GrownShape(levels, t, sh, lp);
    forall loc | LocOk(t', sh', loc) && Get(t', loc).skip == 0 && PlaceOf(levels, sh', loc).h >= 1
      ensures Misses(PlaceOf(levels, sh', loc), index, nb)
    {
      GrowGet(levels, t, sh, lp, loc);
      assert PlaceOf(levels, sh', loc) == PlaceOf(levels, sh, loc);
    }
  }

  /** Writing a leaf for the first pages of a range leaves the rest of it clear. */
  lemma {:induction false} ClearLeaf(levels: nat, t: Tree, sh: Shape, lp: Loc, leaf: nat, index: nat, nb: nat,
                                     done: nat)
    requires Shaped(levels, t, sh) && LocOk(t, sh, lp) && Clear(levels, t, sh, index, nb) && done <= nb
    requires Shaped(levels, Put(t, lp, Entry(0, leaf)), LeafShape(sh, PlaceOf(levels, sh, lp), leaf))
    requires forall p: nat :: Up(p, PlaceOf(levels, sh, lp).h) == PlaceOf(levels, sh, lp).k ==> p < index + done
    ensures Clear(levels, Put(t, lp, Entry(0, leaf)), LeafShape(sh, PlaceOf(levels, sh, lp), leaf), index + done,
            nb - done)
  {
    var t', sh' := Put(t, lp, Entry(0, leaf)), LeafShape(sh, PlaceOf(levels, sh, lp), leaf);
    forall loc | LocOk(t', sh', loc) && Get(t', loc).skip == 0 && PlaceOf(levels, sh', loc).h >= 1
      ensures Misses(PlaceOf(levels, sh', loc), index + done, nb - done)
    {
      assert LocOk(t, sh, loc) && PlaceOf(levels, sh', loc) == PlaceOf(levels, sh, loc);
      if loc != lp {
        assert Misses(PlaceOf(levels, sh, loc), index, nb);
      }
    }
  }

  /** The view with exactly the pages of [from, to) changed to `leaf`. */
  predicate Updated(view: seq<nat>, from: nat, to: nat, leaf: nat, view': seq<nat>) {
    |view'| == |view| && forall p :: 0 <= p < |view| ==> view'[p] == if from <= p < to then leaf else view[p]
  }

  /** What phys_page_set_level does to the shape: the view changes in [from, to) only, nodes keep their
      place, and only nodes of level `level` and below go out of use. */
  predicate Progress(sh: Shape, sh': Shape, level: nat, from: nat, to: nat, leaf: nat) {
    && Updated(sh.view, from, to, leaf, sh'.view)
    && sh.leaves <= sh'.leaves <= sh.leaves + {leaf} && (from < to ==> leaf in sh'.leaves)
    && sh.at <= sh'.at
    && (forall m :: m in sh.live && m < |sh.at| && sh.at[m].h > level ==> m in sh'.live)
  }

  lemma {:induction false} ProgressJoins(a: Shape, b: Shape, c: Shape, level: nat, from: nat, mid: nat, to: nat,
                                         leaf: nat)
    requires Progress(a, b, level, from, mid, leaf) && Progress(b, c, level, mid, to, leaf) && from <= mid <= to
    ensures Progress(a, c, level, from, to, leaf)
  {
  }

  /** A node was added. */
  predicate Growth(sh: Shape, sh': Shape) {
    sh'.view == sh.view && sh'.leaves == sh.leaves && sh.live <= sh'.live && sh.at <= sh'.at
  }

  lemma {:induction false} GrowthJoins(a: Shape, b: Shape, c: Shape, level: nat, from: nat, to: nat, leaf: nat)
    requires Growth(a, b) && Progress(b, c, level, from, to, leaf)
    ensures Progress(a, c, level, from, to, leaf)
  {
  }

  /** Nodes one call of phys_page_set_level may allocate: one for each level of a range that starts or
      ends with the entry's pages, and two for each level but the top one otherwise. */
  function Budget(level: nat, k: nat, index: nat, nb: nat): (r: nat)
    ensures level + 1 <= r <= 2 * level + 1
  {
    if index % Step(level + 1) == 0 || index + nb >= (k + 1) * Step(level + 1) then level + 1 else 2 * level + 1
  }

  /** Where one call stops if pages are left, and what it may allocate. */
  predicate Bounds(h: nat, index: nat, nb: nat, end: nat, budget: nat) {
    h >= 1 && budget >= 1 && end == (Up(index, h) + 1) * Step(h) && budget == Budget(h - 1, Up(index, h), index, nb)
  }

  /** Nodes one round of its loop may allocate. */
  function SlotBudget(level: nat, index: nat, nb: nat): (r: nat)
    ensures r <= 2 * level
  {
    if level == 0 || (index % Step(level) == 0 && nb >= Step(level)) then 0
    else Budget(level - 1, Up(index, level), index, nb)
  }

  /** Nodes the loop has allocated when `nb` pages are left from `index` on. */
  function Spent(level: nat, k: nat, index0: nat, nb0: nat, index: nat, nb: nat): (r: nat) {
    if index == index0 then 0
    else if nb > 0 then (if index0 % Step(level) == 0 then 0 else level)
    else Budget(level, k, index0, nb0) - 1
  }

  /** The loop of phys_page_set_level at slot `i` of the node over pages (level + 1, k), with `nb` pages
      left from `index` on. */
  predicate Cursor(level: nat, k: nat, i: nat, index0: nat, nb0: nat, index: nat, nb: nat) {
    && index + nb == index0 + nb0 && index0 <= index && i <= P_L2_SIZE
    && (nb > 0 && i < P_L2_SIZE ==> Up(index, level) == k * P_L2_SIZE + i)
    && (nb > 0 && i == P_L2_SIZE ==> index == (k + 1) * Step(level + 1))
    && (nb > 0 && index > index0 ==> index % Step(level) == 0)
  }

  lemma {:induction false} CursorFirst(level: nat, index0: nat, nb0: nat)
    ensures Cursor(level, Up(index0, level + 1), Digit(index0, level), index0, nb0, index0, nb0)
  {
    UpNext(index0, level);
  }

  lemma {:induction false} CursorLast(level: nat, k: nat, i: nat, index0: nat, nb0: nat, index: nat, nb: nat)
    requires Cursor(level, k, i, index0, nb0, index, nb) && (nb == 0 || i >= P_L2_SIZE)
    ensures nb == 0 || index == (k + 1) * Step(level + 1)
  {
  }

  lemma {:induction false} CursorNext(level: nat, k: nat, i: nat, index0: nat, nb0: nat, index: nat, nb: nat,
                                      index': nat, nb': nat)
    requires Cursor(level, k, i, index0, nb0, index, nb) && i < P_L2_SIZE && nb > 0
    requires index' + nb' == index + nb && index <= index'
    requires nb' == 0 || index' == (Up(index, level) + 1) * Step(level)
    ensures Cursor(level, k, i + 1, index0, nb0, index', nb')
  {
    SlotEnd(k, i, level);
    if nb' > 0 {
      Multiple(k * P_L2_SIZE + i + 1, level);
    }
  }

  /** One more round stays within the budget. */
  lemma {:induction false} SpentNext(level: nat, k: nat, i: nat, index0: nat, nb0: nat, index: nat, nb: nat,
                                     index': nat, nb': nat)
    requires Cursor(level, k, i, index0, nb0, index, nb) && i < P_L2_SIZE && nb > 0
    requires Up(index0, level + 1) == k && index' + nb' == index + nb
    requires nb' == 0 || index' == (Up(index, level) + 1) * Step(level)
    ensures index' > index
    ensures Spent(level, k, index0, nb0, index, nb) + SlotBudget(level, index, nb)
            <= Spent(level, k, index0, nb0, index', nb')
  {
    UpDivides(index, level);
    SlotEnd(k, i, level);
    var end := (Up(index, level) + 1) * Step(level);
    if index % Step(level) == 0 {
      AlignedSlot(index, level);
    }
    if index0 % Step(level + 1) == 0 {
      AlignedBelow(index0, level);
    }
    if index + nb >= end {
      // the range does not end inside this slot: nothing is allocated for its end
      SpentThrough(level, k, index0, nb0, index, nb, index', nb');
    } else {
      assert nb' == 0;
      assert index + nb < (k + 1) * Step(level + 1);
    }
  }

  /** Before every round, what the round may allocate is still in the budget. */
  lemma {:induction false} SpentRoom(level: nat, k: nat, i: nat, index0: nat, nb0: nat, index: nat, nb: nat)
    requires Cursor(level, k, i, index0, nb0, index, nb) && i < P_L2_SIZE && nb > 0 && Up(index0, level + 1) == k
    ensures 1 + Spent(level, k, index0, nb0, index, nb) + SlotBudget(level, index, nb) <= Budget(level, k, index0, nb0)
  {
    var end := (Up(index, level) + 1) * Step(level);
    if index + nb >= end {
      SpentNext(level, k, i, index0, nb0, index, nb, end, index + nb - end);
    } else {
      SpentNext(level, k, i, index0, nb0, index, nb, index + nb, 0);
    }
  }

  lemma {:induction false} SpentThrough(level: nat, k: nat, index0: nat, nb0: nat, index: nat, nb: nat, index': nat,
                                        nb': nat)
    requires index0 <= index < index' && nb > 0 && index + nb >= (Up(index, level) + 1) * Step(level)
    requires index > index0 ==> index % Step(level) == 0
    requires index % Step(level) == 0 ==> nb >= Step(level)
    ensures Spent(level, k, index0, nb0, index, nb) + SlotBudget(level, index, nb)
            <= Spent(level, k, index0, nb0, index', nb')
  {
    if index == index0 && index % Step(level) != 0 {
      assert level > 0;
      assert SlotBudget(level, index, nb) == level;
    } else {
      assert SlotBudget(level, index, nb) == 0;
    }
  }

  class PhysPageMap {
    const levels: nat            // P_L2_LEVELS
    var root: Entry              // the dispatch's phys_map entry
    var nodes: seq<seq<Entry>>   // nodes[..nodes_nb]
    var nodesAlloc: nat          // nodes_nb_alloc
    var allocHint: nat
    ghost var shape: Shape

    function Map(): Tree
      reads this
    {
      Tree(root, nodes)
    }

    /** Where the lookup of page `p` ends. */
    function Resolve(p: nat): nat
      reads this
    {
      Walk(nodes, root, levels, p)
    }

    /** Under construction: between mem_begin and mem_commit. */
    ghost predicate Building()
      reads this
    {
      levels >= 1 && Plain(levels, Map(), shape) && root.skip == 1 && |nodes| <= nodesAlloc
    }

    constructor (levels: nat)
      requires levels >= 1
      ensures this.levels == levels && Building()
      ensures nodes == [] && shape.leaves == {}
      ensures forall p :: 0 <= p < Step(levels) ==> shape.view[p] == PHYS_SECTION_UNASSIGNED
    {
      this.levels := levels;
      root := EMPTY;
      nodes := [];
      nodesAlloc := 0;
      allocHint := 16;
      shape := Shape([], {}, {}, seq(Step(levels), _ => PHYS_SECTION_UNASSIGNED));
      new;
      PlainInit(levels, Map(), shape);
    }

    /** phys_map_node_reserve: room for `n` more nodes; the nodes stay where they are until the next
        call. */
    method NodeReserve(n: nat)
      modifies this`nodesAlloc, this`allocHint
      ensures nodesAlloc >= |nodes| + n && nodesAlloc >= old(nodesAlloc)
    {
      if |nodes| + n > nodesAlloc {
        nodesAlloc := if nodesAlloc > allocHint then nodesAlloc else allocHint;
        nodesAlloc := if nodesAlloc > |nodes| + n then nodesAlloc else |nodes| + n;
        allocHint := nodesAlloc;
      }
    }

    /** phys_map_node_alloc.  Both of its assertions are preconditions here, established by every
        caller. */
    method NodeAlloc(leaf: bool) returns (ret: nat)
      requires |nodes| != PHYS_MAP_NODE_NIL && |nodes| != nodesAlloc
      modifies this`nodes
      ensures ret == old(|nodes|) && nodes == old(nodes) + [FreshNode(leaf)]
    {
      ret := |nodes|;
      var e := if leaf then HOLE else EMPTY;
      var node := [];
      for i := 0 to P_L2_SIZE
        invariant |node| == i && forall j :: 0 <= j < i ==> node[j] == e
      {
        node := node + [e];
      }
      assert node == FreshNode(leaf);
      nodes := nodes + [node];
    }

    /** Stores an entry through the pointer `lp`. */
    method Store(lp: Loc, e: Entry)
      requires lp.Slot? ==> lp.node < |nodes| && lp.i < |nodes[lp.node]|
      modifies this`root, this`nodes
      ensures Map() == Put(old(Map()), lp, e)
    {
      match lp {
        case Root => root := e;
        case Slot(n, i) => nodes := nodes[n := nodes[n][i := e]];
      }
    }

    /** The start of phys_page_set_level: makes sure the entry points to a node. */
    method Descend(lp: Loc, level: nat, ghost index: nat, ghost nb: nat) returns (n: nat)
      requires Building() && LocOk(Map(), shape, lp) && Get(Map(), lp).skip == 1
      requires PlaceOf(levels, shape, lp).h == level + 1
      requires |nodes| < PHYS_MAP_NODE_NIL && |nodes| < nodesAlloc
      requires Clear(levels, Map(), shape, index, nb)
      modifies this`root, this`nodes, this`shape
      ensures Building() && n in shape.live && shape.at[n] == old(PlaceOf(levels, shape, lp))
      ensures old(|nodes|) <= |nodes| <= old(|nodes|) + 1
      ensures Growth(old(shape), shape)
      ensures Clear(levels, Map(), shape, index, nb)
    {
      ghost var t, sh := Map(), shape;
      assert Fits(shape, PlaceOf(levels, shape, lp), Get(Map(), lp));
      n := Get(Map(), lp).ptr;
      if n == PHYS_MAP_NODE_NIL {
        n := NodeAlloc(level == 0);
        Store(lp, Entry(1, n));
        shape := GrownShape(levels, t, sh, lp);
        assert Map() == Grown(levels, t, sh, lp);
        GrowKeepsPlain(levels, t, sh, lp);
        ClearGrow(levels, t, sh, lp, index, nb);
      }
    }

    /** The leaf branch of phys_page_set_level. */
    method WriteLeaf(lp: Loc, leaf: nat, ghost index: nat, ghost nb: nat, ghost level: nat)
      requires Building() && lp.Slot? && LocOk(Map(), shape, lp) && leaf != PHYS_MAP_NODE_NIL
      requires PlaceOf(levels, shape, lp) == Place(level, Up(index, level))
      requires index % Step(level) == 0 && Step(level) <= nb && Clear(levels, Map(), shape, index, nb)
      modifies this`root, this`nodes, this`shape
      ensures Building() && |nodes| == old(|nodes|)
      ensures Progress(old(shape), shape, level, index, index + Step(level), leaf)
      ensures Clear(levels, Map(), shape, index + Step(level), nb - Step(level))
    {
      ghost var t, sh := Map(), shape;
      Store(lp, Entry(0, leaf));
      AlignedSlot(index, level);
      LeafKeepsPlain(levels, t, sh, lp, leaf);
      shape := LeafShape(sh, PlaceOf(levels, sh, lp), leaf);
      ClearLeaf(levels, t, sh, lp, leaf, index, nb, Step(level));
    }

    /** One round of the loop of phys_page_set_level: slot `i` of node `n`. */
    method SetSlot(n: nat, i: nat, index0: nat, nb0: nat, leaf: nat, level: nat) returns (index: nat, nb: nat)
      requires Building() && n in shape.live && shape.at[n].h == level + 1 && i < P_L2_SIZE
      requires Up(index0, level) == shape.at[n].k * P_L2_SIZE + i
      requires nb0 > 0 && index0 + nb0 <= |shape.view| && Clear(levels, Map(), shape, index0, nb0)
      requires leaf != PHYS_MAP_NODE_NIL
      requires |nodes| + SlotBudget(level, index0, nb0) <= PHYS_MAP_NODE_NIL
      requires |nodes| + SlotBudget(level, index0, nb0) <= nodesAlloc
      modifies this`root, this`nodes, this`shape
      ensures Building() && index + nb == index0 + nb0 && index0 <= index
      ensures nb == 0 || index == (Up(index0, level) + 1) * Step(level)
      ensures Progress(old(shape), shape, level, index0, index, leaf)
      ensures Clear(levels, Map(), shape, index, nb)
      ensures old(|nodes|) <= |nodes| <= old(|nodes|) + SlotBudget(level, index0, nb0)
      decreases level, 1
    {
      SlotPlace(levels, Map(), shape, n, i, level, index0);
      if index0 % Step(level) == 0 && nb0 >= Step(level) {
        AlignedSlot(index0, level);
        WriteLeaf(Slot(n, i), leaf, index0, nb0, level);
        index, nb := index0 + Step(level), nb0 - Step(level);
      } else {
        index, nb := SetBelow(Slot(n, i), index0, nb0, leaf, level, (Up(index0, level) + 1) * Step(level),
                             SlotBudget(level, index0, nb0));
      }
    }

    /** The recursive branch of phys_page_set_level. */
    method SetBelow(lp: Loc, index0: nat, nb0: nat, leaf: nat, level: nat, ghost end: nat, ghost budget: nat)
      returns (index: nat, nb: nat)
      requires Building() && LocOk(Map(), shape, lp) && Bounds(level, index0, nb0, end, budget)
      requires PlaceOf(levels, shape, lp) == Place(level, Up(index0, level))
      requires nb0 > 0 && index0 + nb0 <= |shape.view| && Clear(levels, Map(), shape, index0, nb0)
      requires leaf != PHYS_MAP_NODE_NIL
      requires |nodes| + budget <= PHYS_MAP_NODE_NIL
      requires |nodes| + budget <= nodesAlloc
      modifies this`root, this`nodes, this`shape
      ensures Building() && index + nb == index0 + nb0 && index0 <= index
      ensures nb == 0 || index == end
      ensures Progress(old(shape), shape, level, index0, index, leaf)
      ensures Clear(levels, Map(), shape, index, nb)
      ensures old(|nodes|) <= |nodes| <= old(|nodes|) + budget
      decreases level, 0
    {
      NotLeaf(levels, Map(), shape, lp, index0, nb0);
      index, nb := SetLevel(lp, index0, nb0, leaf, level - 1, level, end, budget);
    }

    /** phys_page_set_level: `index` and `nb` are the values the code updates through pointers, and `h` is the
        height of the entry. */
    method SetLevel(lp: Loc, index0: nat, nb0: nat, leaf: nat, level: nat, ghost h: nat, ghost end: nat,
                    ghost budget: nat)
      returns (index: nat, nb: nat)
      requires h == level + 1 && Bounds(h, index0, nb0, end, budget)
      requires Building() && LocOk(Map(), shape, lp) && Get(Map(), lp).skip == 1
      requires PlaceOf(levels, shape, lp) == Place(h, Up(index0, h))
      requires nb0 > 0 && index0 + nb0 <= |shape.view| && Clear(levels, Map(), shape, index0, nb0)
      requires leaf != PHYS_MAP_NODE_NIL
      requires |nodes| + budget <= PHYS_MAP_NODE_NIL
      requires |nodes| + budget <= nodesAlloc
      modifies this`root, this`nodes, this`shape
      ensures Building() && index + nb == index0 + nb0 && index0 <= index
      ensures nb == 0 || index == end
      ensures Progress(old(shape), shape, level, index0, index, leaf)
      ensures Clear(levels, Map(), shape, index, nb)
      ensures old(|nodes|) <= |nodes| <= old(|nodes|) + budget
      decreases level, 4
    {
      var n := Descend(lp, level, index0, nb0);
      ghost var grown := shape;
      index, nb := SetSlots(n, index0, nb0, leaf, level, h, end, budget);
      GrowthJoins(old(shape), grown, shape, level, index0, index, leaf);
    }

    /** The loop of phys_page_set_level over the slots of node `n`. */
    method SetSlots(n: nat, index0: nat, nb0: nat, leaf: nat, level: nat, ghost h: nat, ghost end: nat,
                    ghost budget: nat)
      returns (index: nat, nb: nat)
      requires h == level + 1 && Bounds(h, index0, nb0, end, budget)
      requires Building() && n in shape.live && shape.at[n] == Place(h, Up(index0, h))
      requires nb0 > 0 && index0 + nb0 <= |shape.view| && Clear(levels, Map(), shape, index0, nb0)
      requires leaf != PHYS_MAP_NODE_NIL
      requires |nodes| + budget <= PHYS_MAP_NODE_NIL + 1
      requires |nodes| + budget <= nodesAlloc + 1
      modifies this`root, this`nodes, this`shape
      ensures Building() && index + nb == index0 + nb0 && index0 <= index
      ensures nb == 0 || index == end
      ensures Progress(old(shape), shape, level, index0, index, leaf)
      ensures Clear(levels, Map(), shape, index, nb)
      ensures old(|nodes|) <= |nodes| < old(|nodes|) + budget
      decreases level, 3
    {
      ghost var k := Up(index0, h);
      CursorFirst(level, index0, nb0);
      index, nb := index0, nb0;
      var i := Digit(index, level);
      while nb > 0 && i < P_L2_SIZE
        invariant Cursor(level, k, i, index0, nb0, index, nb)
        invariant Building() && n in shape.live && shape.at[n] == Place(level + 1, k)
        invariant Progress(old(shape), shape, level, index0, index, leaf)
        invariant Clear(levels, Map(), shape, index, nb)
        invariant old(|nodes|) <= |nodes| <= old(|nodes|) + Spent(level, k, index0, nb0, index, nb)
        decreases P_L2_SIZE - i
      {
        ghost var before, from := shape, index;
        index, nb := SetRound(n, k, i, index0, nb0, index, nb, leaf, level);
        ProgressJoins(old(shape), before, shape, level, index0, from, index, leaf);
        i := i + 1;
      }
      CursorLast(level, k, i, index0, nb0, index, nb);
    }

    /** A round of the loop, with what it has allocated so far. */
    method SetRound(n: nat, ghost k: nat, i: nat, ghost index0: nat, ghost nb0: nat, from: nat, left: nat, leaf: nat,
                    level: nat)
      returns (index: nat, nb: nat)
      requires Cursor(level, k, i, index0, nb0, from, left) && left > 0 && i < P_L2_SIZE && k == Up(index0, level + 1)
      requires Building() && n in shape.live && shape.at[n] == Place(level + 1, k)
      requires from + left <= |shape.view| && Clear(levels, Map(), shape, from, left) && leaf != PHYS_MAP_NODE_NIL
      requires |nodes| + Budget(level, k, index0, nb0) <= PHYS_MAP_NODE_NIL + 1 + Spent(level, k, index0, nb0, from,
               left)
      requires |nodes| + Budget(level, k, index0, nb0) <= nodesAlloc + 1 + Spent(level, k, index0, nb0, from, left)
      modifies this`root, this`nodes, this`shape
      ensures Cursor(level, k, i + 1, index0, nb0, index, nb) && from <= index
      ensures Building() && n in shape.live && shape.at[n] == Place(level + 1, k)
      ensures Progress(old(shape), shape, level, from, index, leaf)
      ensures Clear(levels, Map(), shape, index, nb)
      ensures old(|nodes|) <= |nodes|
      ensures |nodes| - Spent(level, k, index0, nb0, index, nb) <= old(|nodes|) - Spent(level, k, index0, nb0, from,
              left)
      decreases level, 2
    {
      SpentRoom(level, k, i, index0, nb0, from, left);
      index, nb := SetSlot(n, i, from, left, leaf, level);
      SpentNext(level, k, i, index0, nb0, from, left, index, nb);
      CursorNext(level, k, i, index0, nb0, from, left, index, nb);
    }

    /** phys_page_set refines one update of the flat map: exactly the pages of the range now resolve
        to `leaf`.  At most 2 * levels - 1 nodes are allocated, fewer than were reserved. */
    method PageSet(index: nat, nb: nat, leaf: nat)
      requires Building() && nb > 0 && index + nb <= Step(levels) && leaf != PHYS_MAP_NODE_NIL
      requires Clear(levels, Map(), shape, index, nb) && |nodes| + 2 * levels - 1 <= PHYS_MAP_NODE_NIL
      modifies this
      ensures Building() && old(|nodes|) <= |nodes| <= old(|nodes|) + 2 * levels - 1
      ensures Progress(old(shape), shape, levels - 1, index, index + nb, leaf)
      ensures forall p :: 0 <= p < Step(levels) ==>
                Resolve(p) == if index <= p < index + nb then leaf else old(Resolve(p))
    {
      NodeReserve(3 * levels);
      TopSlot(levels, index);
      ResolveIsView(old(Map()), old(shape));
      var index', nb' := SetLevel(Root, index, nb, leaf, levels - 1, levels, Step(levels),
        Budget(levels - 1, 0, index, nb));
      ResolveIsView(Map(), shape);
    }

    lemma {:induction false} ResolveIsView(t: Tree, sh: Shape)
      requires Plain(levels, t, sh)
      ensures forall p :: 0 <= p < Step(levels) ==> Walk(t.nodes, t.root, levels, p) == sh.view[p]
    {
      forall p | 0 <= p < Step(levels)
        ensures Walk(t.nodes, t.root, levels, p) == sh.view[p]
      {
        TopSlot(levels, p);
        WalkPlain(levels, t, sh, Root, p);
      }
    }

    /** The descent of phys_page_find, on a map under construction or a compressed one.  It never runs
        below the last level. */
    method FindLeaf(page: nat) returns (s: nat)
      requires Packed(levels, Map(), shape) && page < Step(levels)
      ensures s == Resolve(page)
      ensures s in shape.leaves || s == PHYS_SECTION_UNASSIGNED
      ensures shape.view[page] == s || shape.view[page] == PHYS_SECTION_UNASSIGNED
    {
      ghost var loc := Root;
      var lp, i := root, levels;
      TopSlot(levels, page);
      WalkPacked(levels, Map(), shape, Root, page);
      while lp.skip > 0
        invariant LocOk(Map(), shape, loc) && lp == Get(Map(), loc) && i == PlaceOf(levels, shape, loc).h
        invariant Walk(nodes, lp, i, page) == Resolve(page)
        decreases i
      {
        assert Packs(shape, PlaceOf(levels, shape, loc), lp);
        if lp.ptr == PHYS_MAP_NODE_NIL {
          return PHYS_SECTION_UNASSIGNED;
        }
        i := i - lp.skip;
        loc := Slot(lp.ptr, Digit(page, i));
        lp := nodes[lp.ptr][Digit(page, i)];
      }
      s := lp.ptr;
    }

    /** phys_page_compact: the shape, and so the flat view, is the same before and after. */
    method Compact(lp: Loc)
      requires Packed(levels, Map(), shape) && LocOk(Map(), shape, lp) && Get(Map(), lp).skip > 0
      modifies this`root, this`nodes
      ensures Packed(levels, Map(), shape) && LocOk(Map(), shape, lp)
      ensures Get(Map(), lp).ptr == PHYS_MAP_NODE_NIL <==> old(Get(Map(), lp)).ptr == PHYS_MAP_NODE_NIL
      ensures Kept(levels, shape, PlaceOf(levels, shape, lp).h, lp, old(Map()), Map())
      ensures CompactedTo(nodes, old(Get(Map(), lp)), Get(Map(), lp))
      decreases PlaceOf(levels, shape, lp).h, 1
    {
      var e := Get(Map(), lp);
      if e.ptr == PHYS_MAP_NODE_NIL {
        return;
      }
      assert Packs(shape, PlaceOf(levels, shape, lp), e);
      var valid, validPtr := CompactChildren(e.ptr);
      assert LocOk(Map(), shape, lp) && Get(Map(), lp) == e;
      // only a single child can be merged, and only while the skip stays small
      if valid == 1 && e.skip + nodes[e.ptr][validPtr].skip < 8 {
        MergedPacks(levels, Map(), shape, lp, validPtr);
        MergeKeepsPacked(levels, Map(), shape, lp, Merged(e, nodes[e.ptr][validPtr]));
        ghost var node := nodes[e.ptr];
        Store(lp, Merged(e, nodes[e.ptr][validPtr]));
        assert nodes[e.ptr] == node && Mergeable(node, e, validPtr);
      }
    }

    /** What becomes of an entry: if its node has one used slot, and the skip stays small, it leads past the node. */
    predicate CompactedTo(nodes: seq<seq<Entry>>, e: Entry, e': Entry) {
      if e.ptr >= |nodes| then e' == e
      else
        && (forall j :: 0 <= j < |nodes[e.ptr]| && Mergeable(nodes[e.ptr], e, j) ==> e' == Merged(e, nodes[e.ptr][j]))
        && ((forall j :: 0 <= j < |nodes[e.ptr]| ==> !Mergeable(nodes[e.ptr], e, j)) ==> e' == e)
    }

    /** The loop of phys_page_compact: compresses below the node and counts its used slots. */
    method CompactChildren(n: nat) returns (valid: nat, validPtr: nat)
      requires Packed(levels, Map(), shape) && n in shape.live
      modifies this`root, this`nodes
      ensures Packed(levels, Map(), shape)
      ensures Kept(levels, shape, shape.at[n].h, Root, old(Map()), Map()) && root == old(root)
      ensures valid == 1 ==> OnlyUsed(nodes[n], P_L2_SIZE, validPtr)
      ensures valid != 1 ==> forall j :: !OnlyUsed(nodes[n], P_L2_SIZE, j)
      decreases shape.at[n].h, 0
    {
      valid, validPtr := 0, P_L2_SIZE;
      for i := 0 to P_L2_SIZE
        invariant Packed(levels, Map(), shape)
        invariant Kept(levels, shape, shape.at[n].h, Root, old(Map()), Map()) && root == old(root)
        invariant valid == 0 ==> forall j :: 0 <= j < i ==> nodes[n][j].ptr == PHYS_MAP_NODE_NIL
        invariant valid == 1 ==> OnlyUsed(nodes[n], i, validPtr)
        invariant valid > 1 ==> TwoUsed(nodes[n], i)
      {
        if nodes[n][i].ptr != PHYS_MAP_NODE_NIL {
          validPtr := i;
          valid := valid + 1;
          if nodes[n][i].skip > 0 {
            ghost var before := Map();
            Compact(Slot(n, i));
            KeptRow(levels, shape, n, i, before, Map());
          }
        }
      }
    }
  }

  /** Of the first `len` entries only the one at `j` is used. */
  predicate OnlyUsed(node: seq<Entry>, len: nat, j: nat) {
    && j < len <= |node| && node[j].ptr != PHYS_MAP_NODE_NIL
    && forall i :: 0 <= i < len && i != j ==> node[i].ptr == PHYS_MAP_NODE_NIL
  }

  predicate TwoUsed(node: seq<Entry>, len: nat) {
    exists i, j :: 0 <= i < j < len <= |node| && node[i].ptr != PHYS_MAP_NODE_NIL && node[j].ptr != PHYS_MAP_NODE_NIL
  }

  /** Slot `j` is the only used one, and skipping to it fits. */
  predicate Mergeable(node: seq<Entry>, e: Entry, j: nat)
    requires j < |node|
  {
    OnlyUsed(node, |node|, j) && e.skip + node[j].skip < 8
  }

  /** Compressing below one slot leaves the node's other slots, and everything above, alone. */
  lemma {:induction false} KeptRow(levels: nat, sh: Shape, n: nat, i: nat, t: Tree, t': Tree)
    requires Shaped(levels, t, sh) && Shaped(levels, t', sh) && n in sh.live && i < P_L2_SIZE
    requires Kept(levels, sh, sh.at[n].h - 1, Slot(n, i), t, t')
    ensures forall j :: 0 <= j < P_L2_SIZE && j != i ==> t'.nodes[n][j] == t.nodes[n][j]
    ensures Kept(levels, sh, sh.at[n].h, Root, t, t') && t'.root == t.root
  {
    forall j | 0 <= j < P_L2_SIZE && j != i
      ensures t'.nodes[n][j] == t.nodes[n][j]
    {
      assert LocOk(t, sh, Slot(n, j)) && Get(t', Slot(n, j)) == Get(t, Slot(n, j));
    }
    assert LocOk(t, sh, Root) && Get(t', Root) == Get(t, Root);
  }

  /** Entries at height `h` and above are as before, except the one at `lp`. */
  ghost predicate Kept(levels: nat, sh: Shape, h: nat, lp: Loc, t: Tree, t': Tree)
    requires Shaped(levels, t, sh) && Shaped(levels, t', sh)
  {
    && |t'.nodes| == |t.nodes|
    && forall loc :: LocOk(t, sh, loc) && loc != lp && PlaceOf(levels, sh, loc).h >= h ==> Get(t', loc) == Get(t, loc)
  }

  lemma {:induction false} TopSlot(levels: nat, p: nat)
    requires p < Step(levels)
    ensures Up(p, levels) == 0
  {
    UpUnique(p, levels, 0);
  }
}
