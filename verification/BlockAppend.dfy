/** Shape and reference counts of the block graph in block.c: bdrv_ref and bdrv_unref with the deletion
    they cause, bdrv_set_backing_hd, bdrv_replace_node and bdrv_append. */
module BlockAppend {
  import opened Options

  /** BdrvChild: the node that owns it (none for a root user such as a BlockBackend), the node it leads
      to, whether it is the backing link, and whether its role stays at the node. */
  datatype Edge = Edge(owner: Option<nat>, bs: nat, isBacking: bool, stay: bool)

  /** BlockDriverState */
  datatype Node = Node(refcnt: nat, backing: Option<nat>)

  type Edges = map<nat, Edge>

  // ---------------------------------------------------------------------------------------------
  // Counting incoming edges
  // ---------------------------------------------------------------------------------------------

  ghost function Incoming(edges: Edges, n: nat): set<nat> {
    set e | e in edges && edges[e].bs == n
  }

  lemma {:induction false} IncomingAdd(edges: Edges, e: nat, x: Edge, n: nat)
    requires e !in edges
    ensures |Incoming(edges[e := x], n)| == |Incoming(edges, n)| + if x.bs == n then 1 else 0
  {
    var i, j := Incoming(edges, n), Incoming(edges[e := x], n);
    assert j == if x.bs == n then i + {e} else i;
  }

  lemma {:induction false} IncomingRemove(edges: Edges, e: nat, n: nat)
    requires e in edges
    ensures |Incoming(edges - {e}, n)| == |Incoming(edges, n)| - if edges[e].bs == n then 1 else 0
  {
    var i, j := Incoming(edges, n), Incoming(edges - {e}, n);
    assert j == if edges[e].bs == n then i - {e} else i;
  }

  lemma {:induction false} IncomingMove(edges: Edges, e: nat, to: nat, n: nat)
    requires e in edges
    ensures |Incoming(edges[e := edges[e].(bs := to)], n)|
            == |Incoming(edges, n)| - (if edges[e].bs == n then 1 else 0) + (if to == n then 1 else 0)
  {
    var rest := edges - {e};
    IncomingRemove(edges, e, n);
    IncomingAdd(rest, e, edges[e].(bs := to), n);
    assert rest[e := edges[e].(bs := to)] == edges[e := edges[e].(bs := to)];
  }

  // ---------------------------------------------------------------------------------------------
  // Invariants
  // ---------------------------------------------------------------------------------------------

  /** The graph with the references that are held from outside and a ranking. */
  datatype State = State(nodes: map<nat, Node>, edges: Edges, ext: map<nat, nat>, rank: map<nat, nat>)

  /** An edge connects nodes, leads from higher to lower rank, and is its owner's backing link if it says
      so. */
  predicate EdgeOk(s: State, e: nat) {
    e in s.edges &&
    var x := s.edges[e];
    && x.bs in s.nodes && x.bs in s.rank && x.bs in s.ext
    && (x.owner.Some? ==>
          && x.owner.value in s.nodes && x.owner.value in s.rank && s.rank[x.bs] < s.rank[x.owner.value]
          && (x.isBacking ==> s.nodes[x.owner.value].backing == Some(e)))
  }

  /** A reference to a node is held by each edge into it and by each external holder; its backing field
      is one of its edges. */
  ghost predicate NodeOk(s: State, n: nat) {
    && n in s.nodes && n in s.ext && n in s.rank && s.nodes[n].refcnt == |Incoming(s.edges, n)| + s.ext[n]
    && (s.nodes[n].backing.Some? ==>
          var b := s.nodes[n].backing.value; b in s.edges && s.edges[b].owner == Some(n) && s.edges[b].isBacking)
  }

  ghost predicate Inv(s: State) {
    match s
    case State(nodes, edges, ext, _) =>
      && ext.Keys == nodes.Keys
      && (forall e {:trigger EdgeOk(s, e)} :: e in edges ==> EdgeOk(s, e))
      && (forall n {:trigger NodeOk(s, n)} :: n in nodes ==> NodeOk(s, n))
  }

  /** No node is left that nobody refers to. */
  ghost predicate AllUsed(nodes: map<nat, Node>) {
    forall n :: n in nodes ==> nodes[n].refcnt > 0
  }

  // ---------------------------------------------------------------------------------------------
  // Steps that keep the invariant
  // ---------------------------------------------------------------------------------------------

  /** One more reference, held from outside. */
  function Reffed(s: State, n: nat): State
    requires n in s.nodes && n in s.ext
  {
    s.(nodes := s.nodes[n := s.nodes[n].(refcnt := s.nodes[n].refcnt + 1)], ext := s.ext[n := s.ext[n] + 1])
  }

  lemma {:induction false} ReffedKeeps(s: State, n: nat)
    requires Inv(s) && n in s.nodes
    ensures NodeOk(s, n) && Inv(Reffed(s, n))
  {
    assert NodeOk(s, n);
    CountKeeps(s, Reffed(s, n), n);
  }

  /** A change in one node's count leaves everything else as it is. */
  lemma {:induction false} CountKeeps(s: State, t: State, n: nat)
    requires Inv(s) && n in s.nodes && t.edges == s.edges && t.rank == s.rank
    requires n in t.nodes && t.nodes == s.nodes[n := t.nodes[n]] && t.nodes[n].backing == s.nodes[n].backing
    requires n in t.ext && t.ext == s.ext[n := t.ext[n]] && NodeOk(s, n)
    requires t.nodes[n].refcnt - t.ext[n] == s.nodes[n].refcnt - s.ext[n]
    ensures Inv(t)
  {
    forall e | e in t.edges
      ensures EdgeOk(t, e)
    {
      assert EdgeOk(s, e);
    }
    forall m | m in t.nodes
      ensures NodeOk(t, m)
    {
      assert NodeOk(s, m);
    }
  }

  function Unreffed(s: State, n: nat): State
    requires n in s.nodes && n in s.ext && s.nodes[n].refcnt > 0 && s.ext[n] > 0
  {
    s.(nodes := s.nodes[n := s.nodes[n].(refcnt := s.nodes[n].refcnt - 1)], ext := s.ext[n := s.ext[n] - 1])
  }

  lemma {:induction false} UnreffedKeeps(s: State, n: nat)
    requires Inv(s) && n in s.nodes && n in s.ext && s.ext[n] > 0
    ensures NodeOk(s, n) && s.nodes[n].refcnt > 0 && Inv(Unreffed(s, n))
  {
    assert NodeOk(s, n);
    CountKeeps(s, Unreffed(s, n), n);
  }

  /** The nodes when edge `e` goes: a backing link is no longer its owner's. */
  function Unbacked(nodes: map<nat, Node>, x: Edge): map<nat, Node> {
    if x.owner.Some? && x.owner.value in nodes && x.isBacking
    then nodes[x.owner.value := nodes[x.owner.value].(backing := None)]
    else nodes
  }

  /** Taking an edge away hands its reference to whoever took it. */
  function Detached(s: State, e: nat): State
    requires e in s.edges && s.edges[e].bs in s.ext
  {
    s.(nodes := Unbacked(s.nodes, s.edges[e]), edges := s.edges - {e},
      ext := s.ext[s.edges[e].bs := s.ext[s.edges[e].bs] + 1])
  }

  lemma {:induction false} DetachedKeeps(s: State, e: nat)
    requires Inv(s) && e in s.edges
    ensures EdgeOk(s, e) && Inv(Detached(s, e))
  {
    assert EdgeOk(s, e);
    var t := Detached(s, e);
    forall f | f in t.edges
      ensures EdgeOk(t, f)
    {
      assert EdgeOk(s, f);
    }
    forall m | m in t.nodes
      ensures NodeOk(t, m)
    {
      assert NodeOk(s, m);
      IncomingRemove(s.edges, e, m);
    }
  }

  /** A new backing link takes over a reference. */
  function Backed(s: State, e: nat, n: nat, bs: nat): State
    requires n in s.nodes && bs in s.ext && s.ext[bs] > 0
  {
    s.(nodes := s.nodes[n := s.nodes[n].(backing := Some(e))],
       edges := s.edges[e := Edge(Some(n), bs, true, false)],
       ext := s.ext[bs := s.ext[bs] - 1])
  }

  lemma {:induction false} BackedKeeps(s: State, e: nat, n: nat, bs: nat)
    requires Inv(s) && e !in s.edges && n in s.nodes && bs in s.nodes && bs in s.ext && s.ext[bs] > 0
    requires n in s.rank && bs in s.rank && s.rank[bs] < s.rank[n] && s.nodes[n].backing == None
    ensures Inv(Backed(s, e, n, bs))
  {
    var t := Backed(s, e, n, bs);
    forall f | f in t.edges
      ensures EdgeOk(t, f)
    {
      assert f != e ==> EdgeOk(s, f);
    }
    forall m | m in t.nodes
      ensures NodeOk(t, m)
    {
      assert NodeOk(s, m);
      IncomingAdd(s.edges, e, Edge(Some(n), bs, true, false), m);
    }
  }

  /** Moving an edge to another node exchanges a reference to the one for a reference to the other. */
  function Moved(s: State, e: nat, to: nat): State
    requires e in s.edges && s.edges[e].bs in s.ext && to in s.ext && s.ext[to] > 0
  {
    s.(edges := s.edges[e := s.edges[e].(bs := to)],
       ext := s.ext[to := s.ext[to] - 1][s.edges[e].bs := s.ext[s.edges[e].bs] + 1])
  }

  lemma {:induction false} MovedKeeps(s: State, e: nat, to: nat)
    requires Inv(s) && e in s.edges && to in s.nodes && to != s.edges[e].bs && to in s.ext && s.ext[to] > 0 &&
             to in s.rank
    requires s.edges[e].owner.Some? && s.edges[e].owner.value in s.rank ==> s.rank[to] < s.rank[s.edges[e].owner.value]
    ensures EdgeOk(s, e) && Inv(Moved(s, e, to))
  {
    assert EdgeOk(s, e);
    var t := Moved(s, e, to);
    forall f | f in t.edges
      ensures EdgeOk(t, f)
    {
      assert EdgeOk(s, f);
    }
    forall m | m in t.nodes
      ensures NodeOk(t, m)
    {
      assert NodeOk(s, m);
      IncomingMove(s.edges, e, to, m);
    }
  }

  /** A node without users and holders may go once it owns no edge. */
  function Dropped(s: State, n: nat): State {
    s.(nodes := s.nodes - {n}, ext := s.ext - {n})
  }

  lemma {:induction false} DroppedKeeps(s: State, n: nat)
    requires Inv(s) && n in s.nodes && s.nodes[n].refcnt == 0 && forall e :: e in s.edges ==>
               s.edges[e].owner != Some(n)
    ensures Inv(Dropped(s, n))
  {
    assert NodeOk(s, n);
    var t := Dropped(s, n);
    forall e | e in t.edges
      ensures EdgeOk(t, e)
    {
      assert EdgeOk(s, e);
      assert e !in Incoming(s.edges, n);
    }
    forall m | m in t.nodes
      ensures NodeOk(t, m)
    {
      assert NodeOk(s, m);
    }
  }

  // ---------------------------------------------------------------------------------------------
  // What deletion leaves
  // ---------------------------------------------------------------------------------------------

  /** An edge is left as it was, or it belonged to a deleted node. */
  predicate EdgeLeft(s: State, t: State, e: nat) {
    && (e in t.edges ==> e in s.edges && t.edges[e] == s.edges[e])
    && (e in s.edges && e !in t.edges ==> s.edges[e].owner.Some? && s.edges[e].owner.value !in t.nodes)
  }

  /** A node that is left has the same external holders, but for `refs` references to `n`; nodes of
      rank above `r` are left as they were; a deleted node had no other external holder; no node has lost
      its last reference and is still there. */
  predicate NodeLeft(s: State, t: State, m: nat, n: nat, refs: nat, r: nat) {
    && (m in t.nodes ==>
          && m in s.nodes && t.nodes[m].backing == s.nodes[m].backing
          && m in s.ext && m in t.ext && t.ext[m] == s.ext[m] - if m == n then refs else 0)
    && (m in s.nodes && m in s.rank && s.rank[m] > r ==> m in t.nodes && t.nodes[m] == s.nodes[m])
    && (m in s.nodes && m in s.ext && m !in t.nodes ==> s.ext[m] == if m == n then refs else 0)
    && (m in s.nodes && m in t.nodes && s.nodes[m].refcnt > 0 ==> t.nodes[m].refcnt > 0)
  }

  /** From `s` to `t` nodes of rank up to `r` have been deleted, with the edges they owned. */
  ghost predicate Shrunk(s: State, t: State, n: nat, refs: nat, r: nat) {
    match s
    case State(_, _, _, rank) =>
      && t.rank == rank
      && (forall e {:trigger EdgeLeft(s, t, e)} :: EdgeLeft(s, t, e))
      && (forall m {:trigger NodeLeft(s, t, m, n, refs, r)} :: NodeLeft(s, t, m, n, refs, r))
  }

  /** Giving up a reference without deletion. */
  lemma {:induction false} ShrunkUnref(s: State, n: nat)
    requires Inv(s) && NodeOk(s, n) && s.nodes[n].refcnt > 1 && s.ext[n] > 0
    ensures Shrunk(s, Unreffed(s, n), n, 1, s.rank[n])
  {
    forall m: nat
      ensures NodeLeft(s, Unreffed(s, n), m, n, 1, s.rank[n])
    {
      assert m in s.nodes ==> NodeOk(s, m);
    }
  }

  /** Deleting a node that has just lost its last reference. */
  lemma {:induction false} ShrunkDelete(s: State, t: State, n: nat)
    requires NodeOk(s, n) && s.nodes[n].refcnt > 0 && s.ext[n] > 0
    requires Shrunk(Unreffed(s, n), t, n, 0, s.rank[n]) && n !in t.nodes
    ensures Shrunk(s, t, n, 1, s.rank[n])
  {
    forall e: nat
      ensures EdgeLeft(s, t, e)
    {
      assert EdgeLeft(Unreffed(s, n), t, e);
    }
    forall m: nat
      ensures NodeLeft(s, t, m, n, 1, s.rank[n])
    {
      assert NodeLeft(Unreffed(s, n), t, m, n, 0, s.rank[n]);
    }
  }

  lemma {:induction false} ShrunkUsed(s: State, t: State, n: nat, refs: nat, r: nat, dying: set<nat>)
    requires Shrunk(s, t, n, refs, r) && AllUsed(s.nodes - dying) && t.nodes.Keys !! dying
    ensures AllUsed(t.nodes)
  {
    forall m | m in t.nodes
      ensures t.nodes[m].refcnt > 0
    {
      assert NodeLeft(s, t, m, n, refs, r);
      assert m in s.nodes - dying;
    }
  }

  lemma {:induction false} StartDelete(s: State, n: nat)
    requires Inv(s) && NodeOk(s, n) && s.nodes[n].refcnt == 0
    ensures Shrunk(s, Dropped(s, n), n, 0, s.rank[n])
  {
    forall m: nat
      ensures NodeLeft(s, Dropped(s, n), m, n, 0, s.rank[n])
    {
      assert m in s.nodes ==> NodeOk(s, m);
    }
  }

  /** One more edge of a node that is being deleted. */
  lemma {:induction false} ShrunkStep(s0: State, s: State, e: nat, t: State, n: nat)
    requires n in s.rank && n in s.nodes && EdgeOk(s, e) && s.edges[e].owner == Some(n)
    requires Shrunk(s0, Dropped(s, n), n, 0, s.rank[n])
    requires Shrunk(Detached(s, e), t, s.edges[e].bs, 1, s.rank[s.edges[e].bs])
    ensures Shrunk(s0, Dropped(t, n), n, 0, s.rank[n]) && n in t.nodes && t.nodes[n].refcnt == s.nodes[n].refcnt
  {
    var d, bs := Detached(s, e), s.edges[e].bs;
    assert NodeLeft(d, t, n, bs, 1, s.rank[bs]);
    forall f: nat
      ensures EdgeLeft(s0, Dropped(t, n), f)
    {
      assert EdgeLeft(s0, Dropped(s, n), f) && EdgeLeft(d, t, f);
      assert f in s.edges && s.edges[f].owner.Some? ==> NodeLeft(d, t, s.edges[f].owner.value, bs, 1, s.rank[bs]);
      if f in s0.edges && f !in s.edges {
        assert NodeLeft(d, t, s0.edges[f].owner.value, bs, 1, s.rank[bs]);
      }
    }
    forall m: nat
      ensures NodeLeft(s0, Dropped(t, n), m, n, 0, s.rank[n])
    {
      assert NodeLeft(s0, Dropped(s, n), m, n, 0, s.rank[n]) && NodeLeft(d, t, m, bs, 1, s.rank[bs]);
    }
  }

  // ---------------------------------------------------------------------------------------------
  // Paths, and a ranking for the appended graph
  // ---------------------------------------------------------------------------------------------

  /** There is an edge from one node to another. */
  ghost predicate Linked(s: State, x: nat, y: nat) {
    exists e :: e in s.edges && s.edges[e].owner == Some(x) && s.edges[e].bs == y
  }

  ghost predicate IsPath(s: State, p: seq<nat>) {
    |p| >= 2 && forall i :: 0 <= i < |p| - 1 ==> Linked(s, p[i], p[i + 1])
  }

  /** A path of at least one edge. */
  ghost predicate Reaches(s: State, x: nat, y: nat) {
    exists p :: IsPath(s, p) && p[0] == x && p[|p| - 1] == y
  }

  lemma {:induction false} ReachesStep(s: State, x: nat, y: nat, z: nat)
    requires Linked(s, x, y) && (y == z || Reaches(s, y, z))
    ensures Reaches(s, x, z)
  {
    if y == z {
      var p := [x, z];
      assert IsPath(s, p);
    } else {
      var p :| IsPath(s, p) && p[0] == y && p[|p| - 1] == z;
      var q := [x] + p;
      forall i | 0 <= i < |q| - 1
        ensures Linked(s, q[i], q[i + 1])
      {
        assert i > 0 ==> Linked(s, p[i - 1], p[i]);
      }
      assert IsPath(s, q);
    }
  }

  predicate Falls(edges: Edges, r: map<nat, nat>, c: nat) {
    c in edges && edges[c].owner.Some? ==>
      edges[c].owner.value in r && edges[c].bs in r && r[edges[c].bs] < r[edges[c].owner.value]
  }

  /** The ranking shows that the edges make no cycle. */
  ghost predicate Ranked(edges: Edges, r: map<nat, nat>) {
    forall c {:trigger Falls(edges, r, c)} :: Falls(edges, r, c)
  }

  lemma {:induction false} InvRanked(s: State)
    requires Inv(s)
    ensures Ranked(s.edges, s.rank)
  {
    forall c: nat
      ensures Falls(s.edges, s.rank, c)
    {
      assert c in s.edges ==> EdgeOk(s, c);
    }
  }

  /** Along a path the rank falls. */
  lemma {:induction false} PathFalls(s: State, p: seq<nat>)
    requires Ranked(s.edges, s.rank) && IsPath(s, p)
    ensures p[0] in s.rank && p[|p| - 1] in s.rank && s.rank[p[|p| - 1]] < s.rank[p[0]]
  {
    assert Linked(s, p[0], p[1]);
    var e :| e in s.edges && s.edges[e].owner == Some(p[0]) && s.edges[e].bs == p[1];
    assert Falls(s.edges, s.rank, e);
    if |p| > 2 {
      var q := p[1..];
      forall i | 0 <= i < |q| - 1
        ensures Linked(s, q[i], q[i + 1])
      {
        assert Linked(s, p[i + 1], p[i + 2]);
      }
      PathFalls(s, q);
    }
  }

  lemma {:induction false} NotSelf(s: State, n: nat)
    requires Ranked(s.edges, s.rank)
    ensures !Reaches(s, n, n)
  {
    if Reaches(s, n, n) {
      var p :| IsPath(s, p) && p[0] == n && p[|p| - 1] == n;
      PathFalls(s, p);
    }
  }

  lemma {:induction false} ReachesEdge(s: State, x: nat, y: nat, z: nat)
    requires Reaches(s, x, y) && Linked(s, y, z)
    ensures Reaches(s, x, z)
  {
    var p :| IsPath(s, p) && p[0] == x && p[|p| - 1] == y;
    var q := p + [z];
    forall i | 0 <= i < |q| - 1
      ensures Linked(s, q[i], q[i + 1])
    {
      assert i < |p| - 1 ==> Linked(s, p[i], p[i + 1]);
    }
    assert IsPath(s, q);
  }

  /** A number above all ranks. */
  ghost function Above(rank: map<nat, nat>, keys: set<nat>): (r: nat)
    requires keys <= rank.Keys
    ensures forall n :: n in keys ==> rank[n] < r
  {
    if keys == {} then 0
    else
      var n :| n in keys;
      var r := Above(rank, keys - {n});
      if rank[n] < r then r else rank[n] + 1
  }

  /** Edge `c` leads into `from`, moves to `to`, and `x` is its owner or reaches it. */
  ghost predicate LeadsBy(s: State, x: nat, from: nat, to: nat, c: nat) {
    && c in s.edges && s.edges[c].bs == from && Movable(s.edges[c], to) && s.edges[c].owner.Some?
    && (x == s.edges[c].owner.value || Reaches(s, x, s.edges[c].owner.value))
  }

  ghost predicate LeadsIn(s: State, x: nat, from: nat, to: nat) {
    exists c :: LeadsBy(s, x, from, to, c)
  }

  lemma {:induction false} LeadsStep(s: State, x: nat, y: nat, from: nat, to: nat)
    requires Linked(s, x, y) && LeadsIn(s, y, from, to)
    ensures LeadsIn(s, x, from, to)
  {
    var c :| LeadsBy(s, y, from, to, c);
    ReachesStep(s, x, y, s.edges[c].owner.value);
    assert LeadsBy(s, x, from, to, c);
  }

  /** Whoever leads into `from` reaches it. */
  lemma {:induction false} LeadsReaches(s: State, x: nat, from: nat, to: nat)
    requires LeadsIn(s, x, from, to)
    ensures Reaches(s, x, from)
  {
    var c :| LeadsBy(s, x, from, to, c);
    var o := s.edges[c].owner.value;
    assert Linked(s, o, from);
    if x == o {
      ReachesStep(s, x, from, from);
    } else {
      ReachesEdge(s, x, o, from);
    }
  }

  /** The ranking with everything that leads to a user of `from` that will move above all other nodes. */
  ghost function Reranked(s: State, from: nat, to: nat): map<nat, nat> {
    var m := Above(s.rank, s.rank.Keys);
    map n | n in s.rank :: if LeadsIn(s, n, from, to) then s.rank[n] + m else s.rank[n]
  }

  /** If `to` does not lead to such a user, the new ranking fits all edges and puts these users above `to`. */
  lemma {:induction false} RerankedKeeps(s: State, from: nat, to: nat)
    requires Inv(s) && NodeOk(s, to) && !LeadsIn(s, to, from, to)
    ensures var r := Reranked(s, from, to);
      && Inv(s.(rank := r)) && to in r
      && forall e :: e in s.edges && s.edges[e].owner.Some? && s.edges[e].bs == from && Movable(s.edges[e], to) ==>
           s.edges[e].owner.value in r && r[to] < r[s.edges[e].owner.value]
  {
    var r := Reranked(s, from, to);
    var t := s.(rank := r);
    forall e | e in s.edges
      ensures EdgeOk(t, e)
      ensures s.edges[e].owner.Some? && s.edges[e].bs == from && Movable(s.edges[e], to) ==>
                s.edges[e].owner.value in r && r[to] < r[s.edges[e].owner.value]
    {
      assert EdgeOk(s, e);
      RankedEdge(s, from, to, e);
    }
    forall n | n in s.nodes
      ensures NodeOk(t, n)
    {
      assert NodeOk(s, n);
    }
  }

  lemma {:induction false} RankedEdge(s: State, from: nat, to: nat, e: nat)
    requires EdgeOk(s, e) && to in s.rank && !LeadsIn(s, to, from, to)
    ensures s.edges[e].owner.Some? ==>
              var r := Reranked(s, from, to);
              var x, y := s.edges[e].owner.value, s.edges[e].bs;
              && x in r && y in r && r[y] < r[x] && (y == from && Movable(s.edges[e], to) ==> r[to] < r[x])
  {
    if s.edges[e].owner.Some? {
      var x, y := s.edges[e].owner.value, s.edges[e].bs;
      assert Linked(s, x, y);
      if LeadsIn(s, y, from, to) {
        LeadsStep(s, x, y, from, to);
      }
      if y == from && Movable(s.edges[e], to) {
        assert LeadsBy(s, x, from, to, e);
      }
    }
  }

  // ---------------------------------------------------------------------------------------------
  // When a backing link may be made
  // ---------------------------------------------------------------------------------------------

  /** The ranking with `n` and everything that reaches it above all other nodes. */
  ghost function Lifted(s: State, n: nat): map<nat, nat> {
    var m := Above(s.rank, s.rank.Keys);
    map x | x in s.rank :: if x == n || Reaches(s, x, n) then s.rank[x] + m else s.rank[x]
  }

  lemma {:induction false} LiftedKeeps(s: State, n: nat)
    requires Inv(s)
    ensures Inv(s.(rank := Lifted(s, n)))
  {
    var t := s.(rank := Lifted(s, n));
    forall e | e in s.edges
      ensures EdgeOk(t, e)
    {
      assert EdgeOk(s, e);
      if s.edges[e].owner.Some? {
        var x, y := s.edges[e].owner.value, s.edges[e].bs;
        assert Linked(s, x, y);
        if y == n || Reaches(s, y, n) {
          ReachesStep(s, x, y, n);
        }
      }
    }
    forall m | m in s.nodes
      ensures NodeOk(t, m)
    {
      assert NodeOk(s, m);
    }
  }

  lemma {:induction false} PathStays(s: State, t: State, p: seq<nat>)
    requires IsPath(s, p) && forall e :: e in s.edges ==> e in t.edges && t.edges[e] == s.edges[e]
    ensures IsPath(t, p)
  {
    forall i | 0 <= i < |p| - 1
      ensures Linked(t, p[i], p[i + 1])
    {
      assert Linked(s, p[i], p[i + 1]);
      var e :| e in s.edges && s.edges[e].owner == Some(p[i]) && s.edges[e].bs == p[i + 1];
      assert e in t.edges && t.edges[e] == s.edges[e];
    }
  }

  lemma {:induction false} SameEdges(s: State, t: State, x: nat, y: nat)
    requires s.edges == t.edges && Reaches(s, x, y)
    ensures Reaches(t, x, y)
  {
    var p :| IsPath(s, p) && p[0] == x && p[|p| - 1] == y;
    PathStays(s, t, p);
  }

  ghost predicate Linkable(s: State, e: nat, n: nat, bs: nat, r: map<nat, nat>)
    requires n in s.nodes && bs in s.ext && s.ext[bs] > 0
  {
    Inv(Backed(s.(rank := r), e, n, bs))
  }

  /** A new backing link leaves the graph acyclic if and only if it does not lead to the node itself or to one that
      reaches it. */
  lemma {:induction false} LinkExact(s: State, e: nat, n: nat, bs: nat)
    requires Inv(s) && e !in s.edges && n in s.nodes && bs in s.nodes && bs in s.ext && s.ext[bs] > 0 &&
             s.nodes[n].backing == None
    ensures (exists r :: Linkable(s, e, n, bs, r)) <==> n != bs && !Reaches(s, bs, n)
  {
    if n != bs && !Reaches(s, bs, n) {
      var r := Lifted(s, n);
      LiftedKeeps(s, n);
      assert NodeOk(s, n) && NodeOk(s, bs);
      BackedKeeps(s.(rank := r), e, n, bs);
      assert Linkable(s, e, n, bs, r);
    }
    if r :| Linkable(s, e, n, bs, r) {
      LinkNeeds(s, e, n, bs, r);
    }
  }

  lemma {:induction false} LinkNeeds(s: State, e: nat, n: nat, bs: nat, r: map<nat, nat>)
    requires e !in s.edges && n in s.nodes && bs in s.ext && s.ext[bs] > 0 && Linkable(s, e, n, bs, r)
    ensures n != bs && !Reaches(s, bs, n)
  {
    var t := Backed(s.(rank := r), e, n, bs);
    assert EdgeOk(t, e);
    if Reaches(s, bs, n) {
      var p :| IsPath(s, p) && p[0] == bs && p[|p| - 1] == n;
      PathStays(s, t, p);
      InvRanked(t);
      PathFalls(t, p);
    }
  }

  /** Two nodes, both held from outside, the first using the second. */
  function Pair(): State {
    State(map[0 := Node(1, None), 1 := Node(2, None)], map[7 := Edge(Some(0), 1, false, false)],
          map[0 := 1, 1 := 1], map[0 := 1, 1 := 0])
  }

  lemma {:induction false} PairOk()
    ensures Inv(Pair()) && AllUsed(Pair().nodes) && NodeOk(Pair(), 0) && NodeOk(Pair(), 1) && Linked(Pair(), 0, 1)
  {
    var s := Pair();
    assert Incoming(s.edges, 0) == {} && Incoming(s.edges, 1) == {7};
    assert EdgeOk(s, 7) && NodeOk(s, 0) && NodeOk(s, 1);
  }

  /** A backing link back makes a cycle. */
  lemma {:induction false} LinkCycle()
    ensures Inv(Pair()) && AllUsed(Pair().nodes) && !exists r :: Linkable(Pair(), 8, 1, 0, r)
  {
    PairOk();
    ReachesStep(Pair(), 0, 1, 1);
    LinkExact(Pair(), 8, 1, 0);
  }

  class NodeGraph {
    var nodes: map<nat, Node>
    var edges: Edges
    ghost var ext: map<nat, nat>    // references held from outside the graph
    ghost var rank: map<nat, nat>

    ghost function Now(): State
      reads this
    {
      State(nodes, edges, ext, rank)
    }

    /** bdrv_ref */
    method Ref(n: nat)
      requires Inv(Now()) && n in nodes
      modifies this`nodes, this`ext
      ensures NodeOk(old(Now()), n) && Inv(Now()) && Now() == Reffed(old(Now()), n)
      ensures AllUsed(old(nodes)) ==> AllUsed(nodes)
    {
      ReffedKeeps(Now(), n);
      nodes := nodes[n := nodes[n].(refcnt := nodes[n].refcnt + 1)];
      ext := ext[n := ext[n] + 1];
    }

    /** bdrv_unref: gives up a reference held from outside, and deletes the node if it was the last. */
    method Unref(n: nat)
      requires Inv(Now()) && n in nodes && n in ext && ext[n] > 0 && n in rank
      modifies this`nodes, this`edges, this`ext
      ensures Inv(Now()) && Shrunk(old(Now()), Now(), n, 1, rank[n])
      ensures n in nodes <==> old(nodes[n].refcnt) > 1
      ensures old(nodes[n].refcnt) > 1 ==> Now() == Unreffed(old(Now()), n)
      ensures AllUsed(old(nodes)) ==> AllUsed(nodes)
      decreases rank[n], 1
    {
      UnreffedKeeps(Now(), n);
      nodes := nodes[n := nodes[n].(refcnt := nodes[n].refcnt - 1)];
      ext := ext[n := ext[n] - 1];
      if nodes[n].refcnt == 0 {
        Delete(n);
        ShrunkDelete(old(Now()), Now(), n);
      } else {
        ShrunkUnref(old(Now()), n);
      }
      if AllUsed(old(nodes)) {
        ShrunkUsed(old(Now()), Now(), n, 1, rank[n], {});
      }
    }

    /** bdrv_delete: the node gives up the references of its edges. */
    method Delete(n: nat)
      requires Inv(Now()) && n in nodes && nodes[n].refcnt == 0 && n in rank
      modifies this`nodes, this`edges, this`ext
      ensures Inv(Now()) && Shrunk(old(Now()), Now(), n, 0, rank[n]) && n !in nodes
      ensures AllUsed(old(nodes) - {n}) ==> AllUsed(nodes)
      decreases rank[n], 0
    {
      ghost var s0 := Now();
      assert NodeOk(s0, n);
      StartDelete(s0, n);
      var owned := set e | e in edges && edges[e].owner == Some(n);
      while owned != {}
        invariant Inv(Now()) && n in nodes && nodes[n].refcnt == 0 && n in rank && rank == old(rank)
        invariant owned == set e | e in edges && edges[e].owner == Some(n)
        invariant Shrunk(s0, Dropped(Now(), n), n, 0, rank[n])
        decreases edges.Keys
      {
        var e :| e in owned;
        ghost var s := Now();
        assert EdgeOk(s, e);
        UnrefChild(e);
        ShrunkStep(s0, s, e, Now(), n);
        owned := set f | f in edges && edges[f].owner == Some(n);
      }
      forall e | e in edges
        ensures edges[e].owner != Some(n)
      {
        assert e !in owned;
      }
      DroppedKeeps(Now(), n);
      nodes := nodes - {n};
      ext := ext - {n};
      if AllUsed(old(nodes) - {n}) {
        ShrunkUsed(s0, Now(), n, 0, rank[n], {n});
      }
    }

    /** bdrv_unref_child: the edge goes, and its reference with it. */
    method UnrefChild(e: nat)
      requires Inv(Now()) && e in edges && edges[e].bs in rank && edges[e].bs in ext
      modifies this`nodes, this`edges, this`ext
      ensures Inv(Now()) && e !in edges && edges.Keys < old(edges).Keys
      ensures Shrunk(Detached(old(Now()), e), Now(), old(edges[e].bs), 1, old(rank[edges[e].bs]))
      ensures AllUsed(old(nodes)) ==> AllUsed(nodes)
      ensures old(edges[e].bs) in nodes <==> old(edges[e].bs in nodes && nodes[edges[e].bs].refcnt > 1)
      decreases rank[edges[e].bs], 2
    {
      var bs := edges[e].bs;
      DetachedKeeps(Now(), e);
      nodes := Unbacked(nodes, edges[e]);
      edges := edges - {e};
      ext := ext[bs := ext[bs] + 1];
      ghost var d := Now();
      Unref(bs);
      forall f | f in edges
        ensures f in d.edges
      {
        assert EdgeLeft(d, Now(), f);
      }
      assert e !in edges;
    }

    /** The body of bdrv_replace_node's loop: one user of `from` becomes a user of `to`. */
    method MoveUser(c: nat, from: nat, to: nat)
      requires Inv(Now()) && c in edges && edges[c].bs == from && from in nodes && to in nodes && from != to
      requires from in ext && ext[from] > 0 && to in rank
      requires edges[c].owner.Some? && edges[c].owner.value in rank ==> rank[to] < rank[edges[c].owner.value]
      modifies this`nodes, this`edges, this`ext
      ensures Inv(Now()) && edges == old(edges)[c := old(edges[c]).(bs := to)] && ext == old(ext) && rank == old(rank)
      ensures SameBacking(old(nodes), nodes) && (AllUsed(old(nodes)) ==> AllUsed(nodes))
    {
      Hold(to);
      Repoint(c, to);
      assert NodeOk(Now(), from);
      UnrefShared(from);
      assert ext == old(ext);
    }

    /** bdrv_replace_child_noperm: the references of the caller change places with the edge's. */
    method Repoint(c: nat, to: nat)
      requires Inv(Now()) && c in edges && to in nodes && to != edges[c].bs && to in ext && ext[to] > 0 && to in rank
      requires edges[c].bs in ext
      requires edges[c].owner.Some? && edges[c].owner.value in rank ==> rank[to] < rank[edges[c].owner.value]
      modifies this`edges, this`ext
      ensures Inv(Now()) && Now() == Moved(old(Now()), c, to)
    {
      MovedKeeps(Now(), c, to);
      ext := ext[to := ext[to] - 1][edges[c].bs := ext[edges[c].bs] + 1];
      edges := edges[c := edges[c].(bs := to)];
    }

    /** The loop of bdrv_replace_node over the movable users. */
    method MoveUsers(from: nat, to: nat)
      requires Inv(Now()) && from in nodes && to in nodes && from != to && to in rank && from in ext && ext[from] > 0
      requires forall c :: c in edges && edges[c].bs == from && Movable(edges[c], to) && edges[c].owner.Some? ==>
                 edges[c].owner.value in rank && rank[to] < rank[edges[c].owner.value]
      modifies this`nodes, this`edges, this`ext
      ensures Inv(Now()) && ext == old(ext) && rank == old(rank) && SameBacking(old(nodes), nodes)
      ensures edges == Repointed(old(edges), from, to) && (AllUsed(old(nodes)) ==> AllUsed(nodes))
    {
      var list := set c | c in edges && edges[c].bs == from && Movable(edges[c], to);
      while list != {}
        invariant Inv(Now()) && ext == old(ext) && rank == old(rank) && SameBacking(old(nodes), nodes)
        invariant edges.Keys == old(edges).Keys && (AllUsed(old(nodes)) ==> AllUsed(nodes))
        invariant forall c :: c in list ==> c in edges && edges[c].bs == from && Movable(edges[c], to)
        invariant forall c :: c in edges ==>
                    edges[c] == if c in list then old(edges)[c] else Repointed(old(edges), from, to)[c]
      {
        var c :| c in list;
        MoveUser(c, from, to);
        list := list - {c};
      }
    }

    /** bdrv_replace_node: all movable users of `from` become users of `to`, or nothing changes.  `mid` is the graph
        before the call gives up its own reference to `from`, which deletes it if nobody else has one. */
    method ReplaceNode(from: nat, to: nat, permitted: bool) returns (ghost mid: State)
      requires Inv(Now()) && NodeOk(Now(), from) && NodeOk(Now(), to) && from != to && !LeadsIn(Now(), to, from, to)
      modifies this
      ensures Inv(Now()) && (AllUsed(old(nodes)) ==> AllUsed(nodes))
      ensures Inv(mid) && NodeOk(mid, from) && mid.ext == old(ext)[from := old(ext)[from] + 1]
      ensures SameBacking(old(nodes), mid.nodes)
      ensures mid.edges == if permitted then Repointed(old(edges), from, to) else old(edges)
      ensures Shrunk(mid, Now(), from, 1, mid.rank[from]) && (from in nodes <==> mid.nodes[from].refcnt > 1)
      ensures old(ext[from] > 0 || KeptUser(edges, from, to)) ==>
                ext == old(ext) && edges == mid.edges && SameBacking(old(nodes), nodes)
    {
      HoldAndMove(from, to, permitted);
      mid := Now();
      assert NodeOk(mid, from);
      Unref(from);
      if mid.nodes[from].refcnt > 1 {
        Restored(old(ext), mid.ext, ext, from);
        SameBackingJoins(old(nodes), mid.nodes, nodes);
      }
    }

    /** bdrv_replace_node up to its last bdrv_unref. */
    method HoldAndMove(from: nat, to: nat, permitted: bool)
      requires Inv(Now()) && NodeOk(Now(), from) && NodeOk(Now(), to) && from != to && !LeadsIn(Now(), to, from, to)
      modifies this
      ensures Inv(Now()) && ext == old(ext)[from := old(ext)[from] + 1] && SameBacking(old(nodes), nodes)
      ensures edges == if permitted then Repointed(old(edges), from, to) else old(edges)
      ensures (AllUsed(old(nodes)) ==> AllUsed(nodes)) && NodeOk(Now(), from)
      ensures old(ext[from] > 0 || KeptUser(edges, from, to)) ==>
                nodes[from].refcnt > 1
    {
      RerankedKeeps(Now(), from, to);
      rank := Reranked(Now(), from, to);
      Hold(from);
      ghost var held := nodes;
      if permitted {
        MoveUsers(from, to);
      }
      SameBackingJoins(old(nodes), held, nodes);
      StillUsed(old(edges), edges, from, to);
      assert NodeOk(Now(), from);
    }

    /** bdrv_ref, as far as the graph goes. */
    method Hold(n: nat)
      requires Inv(Now()) && n in nodes && n in ext
      modifies this`nodes, this`ext
      ensures Inv(Now()) && (AllUsed(old(nodes)) ==> AllUsed(nodes)) && SameBacking(old(nodes), nodes)
      ensures ext == old(ext)[n := old(ext)[n] + 1]
    {
      Ref(n);
    }

    /** bdrv_unref of a node that others still refer to. */
    method UnrefShared(n: nat)
      requires Inv(Now()) && n in nodes && n in ext && ext[n] > 0 && n in rank && nodes[n].refcnt > 1
      modifies this`nodes, this`edges, this`ext
      ensures Inv(Now()) && (AllUsed(old(nodes)) ==> AllUsed(nodes)) && SameBacking(old(nodes), nodes)
      ensures edges == old(edges) && rank == old(rank) && ext == old(ext)[n := old(ext)[n] - 1]
    {
      Unref(n);
    }

    /** bdrv_set_backing_hd with a node: a new reference goes into the new link, or is given back if the
        link is not permitted.  An old backing link is dropped in both cases. */
    method SetBackingHd(bs: nat, backing: nat, e: nat, permitted: bool)
      requires Inv(Now()) && NodeOk(Now(), bs) && NodeOk(Now(), backing) && e !in edges
      requires bs != backing && !Reaches(Unlinked(Now(), bs), backing, bs)
      modifies this
      ensures Inv(Now()) && bs in nodes
      ensures permitted ==> backing in nodes && nodes[bs].backing == Some(e)
      ensures permitted ==> e in edges && edges[e] == Edge(Some(bs), backing, true, false)
      ensures permitted ==> Trimmed(old(Now()), Now().(edges := edges - {e}), old(nodes[bs].backing))
      ensures !permitted ==> nodes[bs].backing == None && Trimmed(old(Now()), Now(), old(nodes[bs].backing))
      ensures AllUsed(old(nodes)) ==> AllUsed(nodes)
      ensures AllUsed(old(nodes)) ==> forall n :: n in old(nodes) && n != bs && !Reaches(old(Now()), bs, n) ==>
                n in nodes
    {
      ghost var s := Now();
      BackingOrUndo(bs, backing, e, permitted);
      if AllUsed(s.nodes) {
        ghost var t := Now();
        TrimKeeps(s, t, if permitted then t.(edges := t.edges - {e}) else t, bs);
      }
    }

    method BackingOrUndo(bs: nat, backing: nat, e: nat, permitted: bool)
      requires Inv(Now()) && NodeOk(Now(), bs) && NodeOk(Now(), backing) && e !in edges
      requires bs != backing && !Reaches(Unlinked(Now(), bs), backing, bs)
      modifies this
      ensures Inv(Now()) && bs in nodes
      ensures permitted ==> backing in nodes && nodes[bs].backing == Some(e)
      ensures permitted ==> e in edges && edges[e] == Edge(Some(bs), backing, true, false)
      ensures permitted ==> Trimmed(old(Now()), Now().(edges := edges - {e}), old(nodes[bs].backing))
      ensures !permitted ==> nodes[bs].backing == None && Trimmed(old(Now()), Now(), old(nodes[bs].backing))
      ensures AllUsed(old(nodes)) ==> AllUsed(nodes)
    {
      ghost var s := Now();
      HoldAndDrop(bs, backing, e);
      ghost var t := Now();
      if permitted {
        TrimBacked(s, t, s.nodes[bs].backing, e, bs, backing);
        AttachBacking(e, bs, backing);
        assert edges - {e} == t.edges;
      } else {
        Unref(backing);
        TrimUnref(s, t, s.nodes[bs].backing, Now(), backing, rank[backing]);
        assert NodeLeft(t, Now(), bs, backing, 1, rank[backing]);
      }
    }

    /** bdrv_set_backing_hd up to the new link: a reference to the new backing node is taken and the old link goes. */
    method HoldAndDrop(bs: nat, backing: nat, ghost e: nat)
      requires Inv(Now()) && NodeOk(Now(), bs) && NodeOk(Now(), backing) && e !in edges
      requires bs != backing && !Reaches(Unlinked(Now(), bs), backing, bs)
      modifies this
      ensures Inv(Now()) && NodeOk(Now(), bs) && NodeOk(Now(), backing) && nodes[bs].backing == None && e !in edges
      ensures rank[backing] < rank[bs] && ext[backing] > 0
      ensures Trimmed(Reffed(old(Now()), backing), Now(), old(nodes[bs].backing)) &&
              (AllUsed(old(nodes)) ==> AllUsed(nodes))
    {
      ghost var s := Now();
      Ref(backing);
      ghost var s1 := Now();
      assert NodeOk(s1, bs) && NodeOk(s1, backing);
      DropBacking(bs);
      ghost var t := Now();
      assert EdgeTrim(s1, t, e, s.nodes[bs].backing);
      assert HolderKept(s1, t, backing) && HolderKept(s1, t, bs);
      assert NodeOk(t, bs) && NodeOk(t, backing);
      LinkGone(s1, t, bs);
      TrimmedReaches(s1, t, bs, backing, bs);
      if Reaches(t, backing, bs) {
        SameEdges(Unlinked(s1, bs), Unlinked(s, bs), backing, bs);
      }
      LiftedKeeps(t, bs);
      TrimmedRank(s1, t, s.nodes[bs].backing, Lifted(t, bs));
      rank := Lifted(t, bs);
      assert NodeOk(Now(), bs) && NodeOk(Now(), backing);
    }

    /** bdrv_attach_child as the backing link; it takes over a reference of the caller. */
    method AttachBacking(e: nat, bs: nat, backing: nat)
      requires Inv(Now()) && e !in edges && bs in nodes && backing in nodes && backing in ext && ext[backing] > 0
      requires bs in rank && backing in rank && rank[backing] < rank[bs] && nodes[bs].backing == None
      modifies this`nodes, this`edges, this`ext
      ensures Inv(Now()) && Now() == Backed(old(Now()), e, bs, backing) && (AllUsed(old(nodes)) ==> AllUsed(nodes))
    {
      BackedKeeps(Now(), e, bs, backing);
      nodes := nodes[bs := nodes[bs].(backing := Some(e))];
      edges := edges[e := Edge(Some(bs), backing, true, false)];
      ext := ext[backing := ext[backing] - 1];
    }

    /** bdrv_append, of a node and on a node for which this makes no cycle.  The graph stays acyclic and every
        reference stays accounted for, on success and on both failure paths: no node that was held, or that `new`
        did not reach, is lost, and no node is left without a reference.  The edges are those that were asked for, as
        far as their owners are left: the old backing link of `new` is gone; on success exactly the movable users of
        `top` are users of `new`, on failure no user has moved. */
    method Append(new_: nat, top: nat, e: nat, linkPermitted: bool, movePermitted: bool) returns (ok: bool)
      requires Inv(Now()) && AllUsed(nodes)
      requires NodeOk(Now(), new_) && NodeOk(Now(), top) && new_ != top && e !in edges && ext[new_] > 0
      requires Appendable(Now(), new_, top)
      modifies this
      ensures ok == (linkPermitted && movePermitted) && Inv(Now()) && AllUsed(nodes)
      ensures Appended(old(Now()), Now(), new_, top, e, ok)
      ensures edges == OwnedBy(nodes, if ok then Spliced(Unlinked(old(Now()), new_).edges, e, new_, top)
                                      else Unlinked(old(Now()), new_).edges)
      ensures new_ in nodes ==> nodes[new_].backing == if ok then Some(e) else None
      ensures ok && new_ in nodes ==> top in nodes && e in edges && edges[e] == Edge(Some(new_), top, true, false)
      ensures forall n :: n in old(nodes) && n != new_ && !Reaches(old(Now()), new_, n) ==> n in nodes
      ensures !Reaches(old(Now()), new_, top) ==> forall c :: c in old(edges) && old(edges)[c].bs == top ==>
                && c in edges
                && edges[c] == if ok && Movable(old(edges)[c], new_) then old(edges)[c].(bs := new_) else old(edges)[c]
      ensures forall c :: ok && c in edges && c in old(edges) && old(edges)[c].bs == top && Movable(old(edges)[c], new_)
                ==> new_ in nodes
    {
      ghost var s := Now();
      SetBackingHd(new_, top, e, linkPermitted);
      if linkPermitted {
        StillAppendable(s, Now(), new_, top, e);
        MoveOrUndo(new_, top, e, movePermitted, s);
      } else {
        AppendedNot(s, Now(), new_, top, e);
      }
      ok := linkPermitted && movePermitted;
      ghost var t := Now();
      assert NodeOk(t, new_) && HolderAfter(s, t, new_, new_, 0);
      Unref(new_);
      AppendedUnref(s, t, Now(), new_, top, e, ok);
      AppendKeeps(s, Now(), new_, top, e, ok);
    }

    /** The rest of bdrv_append once `new` has its backing link: the users of `top` move, or the link is
        dropped again. */
    method MoveOrUndo(new_: nat, top: nat, e: nat, permitted: bool, ghost s: State)
      requires Inv(Now()) && NodeOk(Now(), new_) && NodeOk(Now(), top) && new_ != top
      requires e !in s.edges && e in edges && edges[e] == Edge(Some(new_), top, true, false) &&
               nodes[new_].backing == Some(e)
      requires new_ in s.nodes && Trimmed(s, Now().(edges := edges - {e}), s.nodes[new_].backing)
      requires !LeadsIn(Now(), new_, top, new_)
      modifies this
      ensures Inv(Now()) && new_ in nodes && AppendedBut(s, Now(), new_, top, e, permitted, 0)
      ensures nodes[new_].backing == if permitted then Some(e) else None
      ensures AllUsed(old(nodes)) ==> AllUsed(nodes)
    {
      ghost var t := Now();
      assert !Movable(edges[e], new_);
      ghost var mid := ReplaceNode(top, new_, permitted);
      if permitted {
        AppendedYes(s, t, Now(), new_, top, e);
      } else {
        ghost var t1 := Now();
        assert NodeOk(t1, new_);
        DropBacking(new_);
        AppendedUndone(s, t, t1, Now(), new_, top, e);
      }
    }

    /** The part of bdrv_set_backing_hd that drops an old backing link.  The node is held by the caller. */
    method DropBacking(bs: nat)
      requires Inv(Now()) && bs in nodes && NodeOk(Now(), bs)
      modifies this`nodes, this`edges, this`ext
      ensures Inv(Now()) && bs in nodes && nodes[bs].backing == None && rank == old(rank)
      ensures Trimmed(old(Now()), Now(), old(nodes[bs].backing)) && (AllUsed(old(nodes)) ==> AllUsed(nodes))
    {
      ghost var s := Now();
      if nodes[bs].backing.Some? {
        var e := nodes[bs].backing.value;
        assert EdgeOk(s, e);
        UnrefChild(e);
        DroppedBacking(s, Now(), bs);
      } else {
        TrimmedSame(s);
      }
    }
  }

  /** What bdrv_append does to an edge. */
  predicate EdgeAfter(s: State, t: State, c: nat, new_: nat, top: nat, e: nat, ok: bool) {
    && (c in t.edges ==>
          if c == e then ok && t.edges[c] == Edge(Some(new_), top, true, false)
          else c in s.edges
               && t.edges[c] == if ok && s.edges[c].bs == top && Movable(s.edges[c], new_) then s.edges[c].(bs := new_)
                                else s.edges[c])
    && (c in s.edges && c !in t.edges ==>
          || (new_ in s.nodes && s.nodes[new_].backing == Some(c))
          || (s.edges[c].owner.Some? && s.edges[c].owner.value !in t.nodes))
  }

  /** External holders after bdrv_append: it has taken over `refs` references to the new node.  A deleted
      node had no others. */
  predicate HolderAfter(s: State, t: State, n: nat, new_: nat, refs: nat) {
    && (n in t.nodes ==> n in s.nodes && n in s.ext && n in t.ext)
    && (n in t.nodes ==> t.ext[n] == s.ext[n] - if n == new_ then refs else 0)
    && (n in s.nodes && n in s.ext && n !in t.nodes ==> s.ext[n] == if n == new_ then refs else 0)
  }

  ghost predicate AppendedBut(s: State, t: State, new_: nat, top: nat, e: nat, ok: bool, refs: nat) {
    match s
    case State(_, _, _, _) =>
      && (forall c {:trigger EdgeAfter(s, t, c, new_, top, e, ok)} :: EdgeAfter(s, t, c, new_, top, e, ok))
      && (forall n {:trigger HolderAfter(s, t, n, new_, refs)} :: HolderAfter(s, t, n, new_, refs))
  }

  /** bdrv_append as a whole: the caller's reference to the new node is used up. */
  ghost predicate Appended(s: State, t: State, new_: nat, top: nat, e: nat, ok: bool) {
    AppendedBut(s, t, new_, top, e, ok, 1)
  }

  lemma {:induction false} AppendedNot(s: State, t: State, new_: nat, top: nat, e: nat)
    requires new_ in s.nodes && e !in s.edges && Trimmed(s, t, s.nodes[new_].backing)
    ensures AppendedBut(s, t, new_, top, e, false, 0)
  {
    forall c: nat
      ensures EdgeAfter(s, t, c, new_, top, e, false)
    {
      assert EdgeTrim(s, t, c, s.nodes[new_].backing);
    }
    forall n: nat
      ensures HolderAfter(s, t, n, new_, 0)
    {
      assert HolderKept(s, t, n);
    }
  }

  lemma {:induction false} AppendedYes(s: State, t: State, t': State, new_: nat, top: nat, e: nat)
    requires new_ in s.nodes && e !in s.edges && Trimmed(s, t.(edges := t.edges - {e}), s.nodes[new_].backing)
    requires e in t.edges && t.edges[e] == Edge(Some(new_), top, true, false)
    requires t'.edges == Repointed(t.edges, top, new_) && t'.ext == t.ext && SameBacking(t.nodes, t'.nodes)
    ensures AppendedBut(s, t', new_, top, e, true, 0)
  {
    var b, t0 := s.nodes[new_].backing, t.(edges := t.edges - {e});
    forall c: nat
      ensures EdgeAfter(s, t', c, new_, top, e, true)
    {
      assert EdgeTrim(s, t0, c, b);
    }
    forall n: nat
      ensures HolderAfter(s, t', n, new_, 0)
    {
      assert HolderKept(s, t0, n);
    }
  }

  lemma {:induction false} AppendedUndone(s: State, t: State, t': State, t'': State, new_: nat, top: nat, e: nat)
    requires new_ in s.nodes && e !in s.edges && Trimmed(s, t.(edges := t.edges - {e}), s.nodes[new_].backing)
    requires t'.edges == t.edges && t'.ext == t.ext && SameBacking(t.nodes, t'.nodes) && Trimmed(t', t'', Some(e))
    requires Inv(t'') && new_ in t''.nodes && t''.nodes[new_].backing == None
    requires e in t.edges && t.edges[e] == Edge(Some(new_), top, true, false)
    ensures AppendedBut(s, t'', new_, top, e, false, 0)
  {
    var b, t0 := s.nodes[new_].backing, t.(edges := t.edges - {e});
    forall c: nat
      ensures EdgeAfter(s, t'', c, new_, top, e, false)
    {
      assert EdgeTrim(s, t0, c, b) && EdgeTrim(t', t'', c, Some(e));
      assert c in t''.edges ==> EdgeOk(t'', c);
      if c in s.edges && s.edges[c].owner.Some? {
        assert HolderKept(t', t'', s.edges[c].owner.value);
      }
    }
    forall n: nat
      ensures HolderAfter(s, t'', n, new_, 0)
    {
      assert HolderKept(s, t0, n) && HolderKept(t', t'', n);
    }
  }

  lemma {:induction false} AppendedUnref(s: State, t: State, t': State, new_: nat, top: nat, e: nat, ok: bool)
    requires new_ in t.rank && new_ in t.nodes && e !in s.edges
    requires AppendedBut(s, t, new_, top, e, ok, 0) && Shrunk(t, t', new_, 1, t.rank[new_])
    ensures Appended(s, t', new_, top, e, ok)
  {
    forall c: nat
      ensures EdgeAfter(s, t', c, new_, top, e, ok)
    {
      assert EdgeAfter(s, t, c, new_, top, e, ok) && EdgeLeft(t, t', c);
      if c in s.edges && s.edges[c].owner.Some? {
        assert NodeLeft(t, t', s.edges[c].owner.value, new_, 1, t.rank[new_]);
      }
    }
    forall n: nat
      ensures HolderAfter(s, t', n, new_, 1)
    {
      assert HolderAfter(s, t, n, new_, 0) && NodeLeft(t, t', n, new_, 1, t.rank[new_]);
    }
  }

  // ---------------------------------------------------------------------------------------------
  // What is still in use is not lost
  // ---------------------------------------------------------------------------------------------

  /** An edge that is not one of `from` keeps the node it leads to, as long as its owner is there. */
  predicate UserKeeps(s: State, t: State, from: nat, c: nat) {
    c in s.edges && s.edges[c].owner != Some(from) && (s.edges[c].owner.Some? ==> s.edges[c].owner.value in t.nodes)
    ==> s.edges[c].bs in t.nodes
  }

  predicate HolderKeeps(s: State, t: State, from: nat, n: nat) {
    n in s.nodes && n in s.ext && n != from && s.ext[n] > 0 ==> n in t.nodes
  }

  /** If only edges of `from` are given up, nothing is lost but what `from` reaches: going up from user to
      user ends at an external holder or at a user that is no node. */
  lemma {:induction false} StillThere(s: State, t: State, from: nat, m: nat)
    requires Inv(s) && AllUsed(s.nodes) && m in s.nodes && m != from && !Reaches(s, from, m) && m in s.rank
    requires forall c {:trigger UserKeeps(s, t, from, c)} :: UserKeeps(s, t, from, c)
    requires forall n {:trigger HolderKeeps(s, t, from, n)} :: HolderKeeps(s, t, from, n)
    ensures m in t.nodes
    decreases Above(s.rank, s.rank.Keys) - s.rank[m]
  {
    assert NodeOk(s, m) && HolderKeeps(s, t, from, m);
    if s.ext[m] == 0 {
      assert Incoming(s.edges, m) != {};
      var c :| c in Incoming(s.edges, m);
      assert EdgeOk(s, c) && UserKeeps(s, t, from, c);
      if s.edges[c].owner.Some? {
        var o := s.edges[c].owner.value;
        assert Linked(s, o, m);
        if o == from {
          ReachesStep(s, from, m, m);
        } else if Reaches(s, from, o) {
          ReachesEdge(s, from, o, m);
        } else {
          StillThere(s, t, from, o);
        }
      }
    }
  }

  /** Nodes that `bs` does not reach survive the change of its backing link. */
  lemma {:induction false} TrimKeeps(s: State, t: State, t0: State, bs: nat)
    requires Inv(s) && AllUsed(s.nodes) && Inv(t) && NodeOk(s, bs) && Trimmed(s, t0, s.nodes[bs].backing)
    requires t0.nodes == t.nodes && forall c :: c in t0.edges ==> c in t.edges && t.edges[c] == t0.edges[c]
    ensures forall n :: n in s.nodes && n != bs && !Reaches(s, bs, n) ==> n in t.nodes
  {
    forall c: nat
      ensures UserKeeps(s, t, bs, c)
    {
      assert EdgeTrim(s, t0, c, s.nodes[bs].backing);
      assert c in t.edges ==> EdgeOk(t, c);
    }
    forall n: nat
      ensures HolderKeeps(s, t, bs, n)
    {
      assert HolderKept(s, t0, n);
    }
    forall n | n in s.nodes && n != bs && !Reaches(s, bs, n)
      ensures n in t.nodes
    {
      assert NodeOk(s, n);
      StillThere(s, t, bs, n);
    }
  }

  /** A user that is not the new node keeps what it uses: `top` itself, or the new node and `top` behind it. */
  lemma {:induction false} AppendUser(s: State, t: State, new_: nat, top: nat, e: nat, ok: bool, c: nat)
    requires Inv(s) && Inv(t) && Appended(s, t, new_, top, e, ok) && new_ in s.nodes && e !in s.edges
    requires ok && new_ in t.nodes ==> t.nodes[new_].backing == Some(e)
    ensures UserKeeps(s, t, new_, c)
    ensures c in s.edges && s.edges[c].owner != Some(new_) &&
            (s.edges[c].owner.Some? ==> s.edges[c].owner.value in t.nodes) ==>
              c in t.edges
  {
    if c in s.edges && s.edges[c].owner != Some(new_) &&
      (s.edges[c].owner.Some? ==> s.edges[c].owner.value in t.nodes) {
      assert NodeOk(s, new_) && EdgeAfter(s, t, c, new_, top, e, ok);
      assert EdgeOk(t, c);
      if t.edges[c].bs == new_ {
        AppendLink(s, t, new_, top, e, ok);
      }
    }
  }

  lemma {:induction false} AppendLink(s: State, t: State, new_: nat, top: nat, e: nat, ok: bool)
    requires Inv(t) && Appended(s, t, new_, top, e, ok) && new_ in t.nodes
    requires ok ==> t.nodes[new_].backing == Some(e)
    ensures ok ==> e in t.edges && t.edges[e] == Edge(Some(new_), top, true, false) && top in t.nodes
  {
    if ok {
      assert NodeOk(t, new_) && EdgeAfter(s, t, e, new_, top, e, ok);
      assert EdgeOk(t, e);
    }
  }

  lemma {:induction false} AppendKeeps(s: State, t: State, new_: nat, top: nat, e: nat, ok: bool)
    requires Inv(s) && AllUsed(s.nodes) && Inv(t) && Appended(s, t, new_, top, e, ok)
    requires NodeOk(s, new_) && top in s.nodes && new_ != top && e !in s.edges
    requires new_ in t.nodes ==> t.nodes[new_].backing == if ok then Some(e) else None
    ensures ok && new_ in t.nodes ==> top in t.nodes && e in t.edges && t.edges[e] == Edge(Some(new_), top, true, false)
    ensures forall n :: n in s.nodes && n != new_ && !Reaches(s, new_, n) ==> n in t.nodes
    ensures !Reaches(s, new_, top) ==> forall c :: c in s.edges && s.edges[c].bs == top ==>
              && c in t.edges
              && t.edges[c] == if ok && Movable(s.edges[c], new_) then s.edges[c].(bs := new_) else s.edges[c]
    ensures t.edges == OwnedBy(t.nodes, if ok then Spliced(Unlinked(s, new_).edges, e, new_, top)
                                        else Unlinked(s, new_).edges)
    ensures ok && (exists c :: c in s.edges && s.edges[c].bs == top && Movable(s.edges[c], new_) && c in t.edges) ==>
              new_ in t.nodes
  {
    if c :| ok && c in s.edges && s.edges[c].bs == top && Movable(s.edges[c], new_) && c in t.edges {
      assert EdgeAfter(s, t, c, new_, top, e, ok) && EdgeOk(t, c);
    }
    forall c: nat
      ensures UserKeeps(s, t, new_, c)
    {
      AppendUser(s, t, new_, top, e, ok, c);
    }
    forall n: nat
      ensures HolderKeeps(s, t, new_, n)
    {
      assert HolderAfter(s, t, n, new_, 1);
    }
    forall n | n in s.nodes && n != new_ && !Reaches(s, new_, n)
      ensures n in t.nodes
    {
      assert NodeOk(s, n);
      StillThere(s, t, new_, n);
    }
    if !Reaches(s, new_, top) {
      forall c | c in s.edges && s.edges[c].bs == top
        ensures c in t.edges
        ensures t.edges[c] == if ok && Movable(s.edges[c], new_) then s.edges[c].(bs := new_) else s.edges[c]
      {
        AppendTopUser(s, t, new_, top, e, ok, c);
      }
    }
    if ok && new_ in t.nodes {
      AppendLink(s, t, new_, top, e, ok);
    }
    AppendEdges(s, t, new_, top, e, ok);
  }

  /** A user of the old top is not lost: its owner is not reached from the new node. */
  lemma {:induction false} AppendTopUser(s: State, t: State, new_: nat, top: nat, e: nat, ok: bool, c: nat)
    requires Inv(s) && Inv(t) && Appended(s, t, new_, top, e, ok)
    requires new_ in s.nodes && e !in s.edges && !Reaches(s, new_, top) && c in s.edges && s.edges[c].bs == top
    requires ok && new_ in t.nodes ==> t.nodes[new_].backing == Some(e)
    requires forall n :: n in s.nodes && n != new_ && !Reaches(s, new_, n) ==> n in t.nodes
    ensures c in t.edges
    ensures t.edges[c] == if ok && Movable(s.edges[c], new_) then s.edges[c].(bs := new_) else s.edges[c]
    ensures t.edges[c].bs in t.nodes
  {
    assert EdgeOk(s, c) && EdgeAfter(s, t, c, new_, top, e, ok);
    if s.edges[c].owner.Some? {
      var o := s.edges[c].owner.value;
      assert Linked(s, o, top);
      if o == new_ {
        ReachesStep(s, new_, top, top);
      } else if Reaches(s, new_, o) {
        ReachesEdge(s, new_, o, top);
      }
    }
    AppendUser(s, t, new_, top, e, ok, c);
    assert EdgeOk(t, c);
  }

  /** The edges whose owners are among the nodes, if they have one. */
  function OwnedBy(nodes: map<nat, Node>, edges: Edges): Edges {
    map c | c in edges && (edges[c].owner.Some? ==> edges[c].owner.value in nodes) :: edges[c]
  }

  lemma {:induction false} AppendEdges(s: State, t: State, new_: nat, top: nat, e: nat, ok: bool)
    requires Inv(t) && Appended(s, t, new_, top, e, ok) && NodeOk(s, new_) && e !in s.edges
    requires new_ in t.nodes ==> t.nodes[new_].backing == if ok then Some(e) else None
    ensures t.edges == OwnedBy(t.nodes, if ok then Spliced(Unlinked(s, new_).edges, e, new_, top)
                                        else Unlinked(s, new_).edges)
  {
    var u := Unlinked(s, new_).edges;
    var all := if ok then Spliced(u, e, new_, top) else u;
    forall c: nat
      ensures c in t.edges <==> c in all && (all[c].owner.Some? ==> all[c].owner.value in t.nodes)
      ensures c in t.edges ==> t.edges[c] == all[c]
    {
      assert EdgeAfter(s, t, c, new_, top, e, ok);
      assert c in t.edges ==> EdgeOk(t, c);
      if ok && new_ in t.nodes {
        AppendLink(s, t, new_, top, e, ok);
      }
    }
  }

  /** Once the link to the old top is there, the new node still leads to no user that moves. */
  lemma {:induction false} StillAppendable(s: State, t: State, new_: nat, top: nat, e: nat)
    requires Inv(s) && Inv(t) && NodeOk(s, new_) && e in t.edges && t.edges[e] == Edge(Some(new_), top, true, false)
    requires Trimmed(s, t.(edges := t.edges - {e}), s.nodes[new_].backing) && new_ in t.nodes &&
             t.nodes[new_].backing == Some(e)
    requires Appendable(s, new_, top)
    ensures !LeadsIn(t, new_, top, new_)
  {
    var t0 := t.(edges := t.edges - {e});
    forall c | c in t0.edges
      ensures t0.edges[c].bs in t0.nodes && s.nodes[new_].backing != Some(c)
    {
      assert EdgeTrim(s, t0, c, s.nodes[new_].backing) && EdgeOk(t, c);
    }
    assert LeftWithout(s, t0, new_);
    TrimmedLeads(s, t0, new_, top);
    if c :| LeadsBy(t, new_, top, new_, c) {
      LinkUnused(t, new_, top, e, c);
    }
  }

  /** The link to the old top is not on a path to one of its users. */
  lemma {:induction false} LinkUnused(t: State, new_: nat, top: nat, e: nat, c: nat)
    requires Inv(t) && e in t.edges && t.edges[e] == Edge(Some(new_), top, true, false) &&
             LeadsBy(t, new_, top, new_, c)
    ensures LeadsIn(t.(edges := t.edges - {e}), new_, top, new_)
  {
    var t0, o := t.(edges := t.edges - {e}), t.edges[c].owner.value;
    InvRanked(t);
    NotSelf(t, top);
    assert Linked(t, o, top);
    if o != new_ {
      var p :| IsPath(t, p) && p[0] == new_ && p[|p| - 1] == o;
      forall i | 0 <= i < |p| - 1
        ensures Linked(t0, p[i], p[i + 1])
      {
        assert Linked(t, p[i], p[i + 1]);
        if p[i + 1] == top {
          if i + 1 < |p| - 1 {
            SubPath(t, p, i + 1);
            ReachesEdge(t, top, o, top);
          } else {
            ReachesStep(t, top, top, top);
          }
        }
        var d :| d in t.edges && t.edges[d].owner == Some(p[i]) && t.edges[d].bs == p[i + 1];
        assert d in t0.edges;
      }
      assert IsPath(t0, p);
    }
    assert LeadsBy(t0, new_, top, new_, c);
  }

  // ---------------------------------------------------------------------------------------------
  // When a node may be appended
  // ---------------------------------------------------------------------------------------------

  /** The graph without the backing link of `n`, which bdrv_set_backing_hd drops first. */
  function Unlinked(s: State, n: nat): State {
    if n in s.nodes && s.nodes[n].backing.Some? then s.(edges := s.edges - {s.nodes[n].backing.value}) else s
  }

  /** Without its old backing link the new node does not lead to a user of the old top that will move, and the old
      top does not reach the new node. */
  ghost predicate Appendable(s: State, new_: nat, top: nat) {
    !Reaches(Unlinked(s, new_), top, new_) && !LeadsIn(Unlinked(s, new_), new_, top, new_)
  }

  /** The edges after a permitted bdrv_append of a node whose old backing link is gone from `edges`. */
  function Spliced(edges: Edges, e: nat, new_: nat, top: nat): Edges {
    Repointed(edges, top, new_)[e := Edge(Some(new_), top, true, false)]
  }

  ghost function SplicedRank(s: State, new_: nat, top: nat): map<nat, nat> {
    var m := Above(s.rank, s.rank.Keys);
    map n | n in s.rank :: if Reaches(s, n, new_) || LeadsIn(s, n, top, new_) then s.rank[n] + 2 * m + 2
                           else if n == new_ then s.rank[n] + m + 1
                           else s.rank[n]
  }

  lemma {:induction false} SplicedFits(s: State, e: nat, new_: nat, top: nat, c: nat)
    requires Ranked(s.edges, s.rank) && new_ in s.rank && top in s.rank && new_ != top && e !in s.edges
    requires !Reaches(s, top, new_) && !LeadsIn(s, new_, top, new_)
    ensures Falls(Spliced(s.edges, e, new_, top), SplicedRank(s, new_, top), c)
  {
    NotSelf(s, new_);
    NotSelf(s, top);
    if LeadsIn(s, top, top, new_) {
      LeadsReaches(s, top, top, new_);
    }
    if c in s.edges && s.edges[c].owner.Some? {
      var x, y := s.edges[c].owner.value, s.edges[c].bs;
      assert Falls(s.edges, s.rank, c) && Linked(s, x, y);
      if y == new_ || Reaches(s, y, new_) {
        ReachesStep(s, x, y, new_);
      }
      if LeadsIn(s, y, top, new_) {
        LeadsStep(s, x, y, top, new_);
      }
      if y == top && Movable(s.edges[c], new_) {
        assert LeadsBy(s, x, top, new_, c);
      }
    }
  }

  lemma {:induction false} SubPath(s: State, p: seq<nat>, i: nat)
    requires IsPath(s, p) && i < |p| - 1
    ensures Reaches(s, p[i], p[|p| - 1])
  {
    var q := p[i..];
    forall j | 0 <= j < |q| - 1
      ensures Linked(s, q[j], q[j + 1])
    {
      assert Linked(s, p[i + j], p[i + j + 1]);
    }
    assert IsPath(s, q);
  }

  /** In a graph that has all edges but those into `top`, a path that does not come back to `top` falls. */
  lemma {:induction false} AwayFalls(s: State, edges: Edges, r: map<nat, nat>, top: nat, p: seq<nat>)
    requires IsPath(s, p) && Ranked(edges, r) && forall i :: 0 < i < |p| ==> p[i] != top
    requires forall c :: c in s.edges && s.edges[c].bs != top ==> c in edges && edges[c] == s.edges[c]
    ensures p[0] in r && p[|p| - 1] in r && r[p[|p| - 1]] < r[p[0]]
  {
    assert Linked(s, p[0], p[1]);
    var c :| c in s.edges && s.edges[c].owner == Some(p[0]) && s.edges[c].bs == p[1];
    assert Falls(edges, r, c);
    if |p| > 2 {
      var q := p[1..];
      forall i | 0 <= i < |q| - 1
        ensures Linked(s, q[i], q[i + 1])
      {
        assert Linked(s, p[i + 1], p[i + 2]);
      }
      AwayFalls(s, edges, r, top, q);
    }
  }

  lemma {:induction false} ReachesFalls(s: State, edges: Edges, r: map<nat, nat>, top: nat, x: nat, y: nat)
    requires Ranked(edges, r) && Reaches(s, x, y) && y != top && !Reaches(s, top, y)
    requires forall c :: c in s.edges && s.edges[c].bs != top ==> c in edges && edges[c] == s.edges[c]
    ensures x in r && y in r && r[y] < r[x]
  {
    var p :| IsPath(s, p) && p[0] == x && p[|p| - 1] == y;
    forall i | 0 < i < |p|
      ensures p[i] != top
    {
      if i < |p| - 1 {
        SubPath(s, p, i);
      }
    }
    AwayFalls(s, edges, r, top, p);
  }

  /** What `top` reaches is below it. */
  lemma {:induction false} BelowFalls(s: State, edges: Edges, r: map<nat, nat>, top: nat, y: nat)
    requires Ranked(s.edges, s.rank) && Ranked(edges, r) && Reaches(s, top, y)
    requires forall c :: c in s.edges && s.edges[c].bs != top ==> c in edges && edges[c] == s.edges[c]
    ensures top in r && y in r && r[y] < r[top]
  {
    NotSelf(s, top);
    var p :| IsPath(s, p) && p[0] == top && p[|p| - 1] == y;
    forall i | 0 < i < |p|
      ensures p[i] != top
    {
      if p[i] == top {
        StartPath(s, p, i);
      }
    }
    AwayFalls(s, edges, r, top, p);
  }

  /** A graph with the users of `from` moved to `to` that has a ranking: `to` led to none of them. */
  lemma {:induction false} MovedNeeds(s: State, edges: Edges, r: map<nat, nat>, from: nat, to: nat)
    requires Ranked(s.edges, s.rank) && Ranked(edges, r)
    requires forall c :: c in s.edges && s.edges[c].bs != from ==> c in edges && edges[c] == s.edges[c]
    requires forall c :: c in s.edges && s.edges[c].bs == from && Movable(s.edges[c], to) ==>
               c in edges && edges[c] == s.edges[c].(bs := to)
    ensures !LeadsIn(s, to, from, to)
  {
    if c :| LeadsBy(s, to, from, to, c) {
      var o := s.edges[c].owner.value;
      assert Falls(edges, r, c) && Linked(s, o, from);
      NotSelf(s, from);
      if o == from {
        ReachesStep(s, from, from, from);
      } else if Reaches(s, from, o) {
        ReachesEdge(s, from, o, from);
      }
      if o != to {
        ReachesFalls(s, edges, r, from, to, o);
      }
    }
  }

  /** Moving the users of `from` to `to` leaves a graph acyclic if and only if `to` leads to none of them. */
  lemma {:induction false} ReplaceExact(s: State, from: nat, to: nat)
    requires Inv(s) && NodeOk(s, to)
    ensures (exists r :: Ranked(Repointed(s.edges, from, to), r)) <==> !LeadsIn(s, to, from, to)
  {
    InvRanked(s);
    var edges := Repointed(s.edges, from, to);
    if !LeadsIn(s, to, from, to) {
      var r := Reranked(s, from, to);
      forall c: nat
        ensures Falls(edges, r, c)
      {
        if c in s.edges {
          assert EdgeOk(s, c);
          RankedEdge(s, from, to, c);
        }
      }
      assert Ranked(edges, r);
    }
    if r :| Ranked(edges, r) {
      MovedNeeds(s, edges, r, from, to);
    }
  }

  lemma {:induction false} StartPath(s: State, p: seq<nat>, i: nat)
    requires IsPath(s, p) && 0 < i < |p|
    ensures Reaches(s, p[0], p[i])
  {
    var q := p[..i + 1];
    forall j | 0 <= j < |q| - 1
      ensures Linked(s, q[j], q[j + 1])
    {
      assert Linked(s, p[j], p[j + 1]);
    }
    assert IsPath(s, q);
  }

  /** Linking the new node to the old top and moving its users leaves a graph acyclic if and only if the old top does
      not reach the new node, and the new node does not lead to a user that moves. */
  lemma {:induction false} SpliceExact(s: State, e: nat, new_: nat, top: nat)
    requires Ranked(s.edges, s.rank) && new_ in s.rank && top in s.rank && new_ != top && e !in s.edges
    ensures (exists r :: Ranked(Spliced(s.edges, e, new_, top), r)) <==>
              !Reaches(s, top, new_) && !LeadsIn(s, new_, top, new_)
  {
    if !Reaches(s, top, new_) && !LeadsIn(s, new_, top, new_) {
      var r := SplicedRank(s, new_, top);
      forall c: nat
        ensures Falls(Spliced(s.edges, e, new_, top), r, c)
      {
        SplicedFits(s, e, new_, top, c);
      }
      assert Ranked(Spliced(s.edges, e, new_, top), r);
    }
    if r :| Ranked(Spliced(s.edges, e, new_, top), r) {
      AppendNeeds(s, e, new_, top, r);
    }
  }

  lemma {:induction false} UnlinkedRanked(s: State, n: nat)
    requires Ranked(s.edges, s.rank)
    ensures Ranked(Unlinked(s, n).edges, s.rank)
  {
    forall c: nat
      ensures Falls(Unlinked(s, n).edges, s.rank, c)
    {
      assert Falls(s.edges, s.rank, c);
    }
  }

  /** The graph that a permitted append asks for, with the old backing link of the new node dropped, is acyclic if and
      only if the append is `Appendable`. */
  lemma {:induction false} AppendExact(s: State, e: nat, new_: nat, top: nat)
    requires Inv(s) && NodeOk(s, new_) && NodeOk(s, top) && new_ != top && e !in s.edges
    ensures (exists r :: Ranked(Spliced(Unlinked(s, new_).edges, e, new_, top), r)) <==> Appendable(s, new_, top)
  {
    InvRanked(s);
    UnlinkedRanked(s, new_);
    SpliceExact(Unlinked(s, new_), e, new_, top);
  }

  /** What is left without the old link, and without what only that kept alive. */
  ghost predicate LeftWithout(s: State, t: State, n: nat) {
    && n in s.nodes && n in t.nodes && Trimmed(s, t, s.nodes[n].backing)
    && (s.nodes[n].backing.Some? ==> s.nodes[n].backing.value !in t.edges)
    && forall c :: c in t.edges ==> t.edges[c].bs in t.nodes
  }

  lemma {:induction false} LinkGone(s: State, t: State, n: nat)
    requires NodeOk(s, n) && Inv(t) && n in t.nodes && t.nodes[n].backing == None && Trimmed(s, t, s.nodes[n].backing)
    ensures LeftWithout(s, t, n)
  {
    forall c | c in t.edges
      ensures t.edges[c].bs in t.nodes && s.nodes[n].backing != Some(c)
    {
      assert EdgeTrim(s, t, c, s.nodes[n].backing) && EdgeOk(t, c);
    }
  }

  /** A path from a node that is left is left. */
  lemma {:induction false} TrimmedPath(s: State, t: State, n: nat, p: seq<nat>)
    requires LeftWithout(s, t, n) && IsPath(Unlinked(s, n), p) && p[0] in t.nodes
    ensures IsPath(t, p) && p[|p| - 1] in t.nodes
  {
    var u := Unlinked(s, n);
    assert Linked(u, p[0], p[1]);
    var c :| c in u.edges && u.edges[c].owner == Some(p[0]) && u.edges[c].bs == p[1];
    assert EdgeTrim(s, t, c, s.nodes[n].backing);
    assert Linked(t, p[0], p[1]);
    if |p| > 2 {
      var q := p[1..];
      forall i | 0 <= i < |q| - 1
        ensures Linked(u, q[i], q[i + 1])
      {
        assert Linked(u, p[i + 1], p[i + 2]);
      }
      TrimmedPath(s, t, n, q);
      forall i | 0 <= i < |p| - 1
        ensures Linked(t, p[i], p[i + 1])
      {
        assert i > 0 ==> Linked(t, q[i - 1], q[i]);
      }
    }
  }

  lemma {:induction false} TrimmedReaches(s: State, t: State, n: nat, x: nat, y: nat)
    requires LeftWithout(s, t, n) && x in t.nodes
    ensures Reaches(t, x, y) <==> Reaches(Unlinked(s, n), x, y)
    ensures Reaches(t, x, y) ==> y in t.nodes
  {
    if Reaches(Unlinked(s, n), x, y) {
      var p :| IsPath(Unlinked(s, n), p) && p[0] == x && p[|p| - 1] == y;
      TrimmedPath(s, t, n, p);
    }
    if Reaches(t, x, y) {
      var p :| IsPath(t, p) && p[0] == x && p[|p| - 1] == y;
      forall c | c in t.edges
        ensures c in Unlinked(s, n).edges && Unlinked(s, n).edges[c] == t.edges[c]
      {
        assert EdgeTrim(s, t, c, s.nodes[n].backing);
      }
      PathStays(t, Unlinked(s, n), p);
    }
  }

  lemma {:induction false} TrimmedLeads(s: State, t: State, n: nat, top: nat)
    requires LeftWithout(s, t, n)
    ensures LeadsIn(t, n, top, n) <==> LeadsIn(Unlinked(s, n), n, top, n)
  {
    var u := Unlinked(s, n);
    if c :| LeadsBy(t, n, top, n, c) {
      assert EdgeTrim(s, t, c, s.nodes[n].backing);
      TrimmedReaches(s, t, n, n, t.edges[c].owner.value);
      assert LeadsBy(u, n, top, n, c);
    }
    if c :| LeadsBy(u, n, top, n, c) {
      assert EdgeTrim(s, t, c, s.nodes[n].backing);
      TrimmedReaches(s, t, n, n, u.edges[c].owner.value);
      assert LeadsBy(t, n, top, n, c);
    }
  }

  /** The same for the graph that bdrv_append is left with when the old link, and what only that kept alive, is gone. */
  lemma {:induction false} AppendLeaves(s: State, t: State, e: nat, new_: nat, top: nat)
    requires Inv(s) && Inv(t) && NodeOk(s, new_) && new_ != top && e !in t.edges && NodeOk(t, new_) && NodeOk(t, top)
    requires Trimmed(s, t, s.nodes[new_].backing) && t.nodes[new_].backing == None
    ensures (exists r :: Ranked(Spliced(t.edges, e, new_, top), r)) <==> Appendable(s, new_, top)
  {
    LinkGone(s, t, new_);
    TrimmedReaches(s, t, new_, top, new_);
    TrimmedLeads(s, t, new_, top);
    InvRanked(t);
    SpliceExact(t, e, new_, top);
  }

  /** An append to a node that uses the new one, and one of a node that uses the old top other than as its backing
      node, make a cycle. */
  lemma {:induction false} AppendCycle()
    ensures Inv(Pair()) && AllUsed(Pair().nodes)
    ensures !exists r :: Ranked(Spliced(Unlinked(Pair(), 1).edges, 8, 1, 0), r)
    ensures !exists r :: Ranked(Spliced(Unlinked(Pair(), 0).edges, 8, 0, 1), r)
  {
    var s := Pair();
    PairOk();
    ReachesStep(s, 0, 1, 1);
    AppendExact(s, 8, 1, 0);
    assert LeadsBy(s, 0, 1, 0, 7);
    AppendExact(s, 8, 0, 1);
  }

  /** A new node on a node that uses the old top: the old link is dropped, so that appending it makes no cycle. */
  function Chain(): State {
    State(map[0 := Node(1, Some(5)), 1 := Node(2, None), 2 := Node(2, None)],
          map[5 := Edge(Some(0), 1, true, false), 6 := Edge(Some(1), 2, false, false)],
          map[0 := 1, 1 := 1, 2 := 1], map[0 := 2, 1 := 1, 2 := 0])
  }

  lemma {:induction false} ChainOk()
    ensures Inv(Chain()) && AllUsed(Chain().nodes)
  {
    var s := Chain();
    assert Incoming(s.edges, 0) == {} && Incoming(s.edges, 1) == {5} && Incoming(s.edges, 2) == {6};
    assert EdgeOk(s, 5) && EdgeOk(s, 6) && NodeOk(s, 0) && NodeOk(s, 1) && NodeOk(s, 2);
  }

  lemma {:induction false} ChainSplices()
    ensures exists r :: Ranked(Spliced(Unlinked(Chain(), 0).edges, 8, 0, 2), r)
  {
    var r: map<nat, nat> := map[2 := 0, 0 := 1, 1 := 2];
    var edges := Spliced(Unlinked(Chain(), 0).edges, 8, 0, 2);
    forall c: nat
      ensures Falls(edges, r, c)
    {
      assert c in edges ==> c == 6 || c == 8;
    }
    assert Ranked(edges, r);
  }

  lemma {:induction false} OldLinkDropped()
    ensures Inv(Chain()) && AllUsed(Chain().nodes) && Reaches(Chain(), 0, 2) && Appendable(Chain(), 0, 2)
  {
    var s := Chain();
    ChainOk();
    assert Linked(s, 0, 1) by {
      assert s.edges[5].owner == Some(0);
    }
    assert Linked(s, 1, 2) by {
      assert s.edges[6].owner == Some(1);
    }
    ReachesStep(s, 1, 2, 2);
    ReachesStep(s, 0, 1, 2);
    ChainSplices();
    AppendExact(s, 8, 0, 2);
  }

  lemma {:induction false} AppendNeeds(s: State, e: nat, new_: nat, top: nat, r: map<nat, nat>)
    requires Ranked(s.edges, s.rank) && new_ != top && e !in s.edges && Ranked(Spliced(s.edges, e, new_, top), r)
    ensures !Reaches(s, top, new_) && !LeadsIn(s, new_, top, new_)
  {
    var edges := Spliced(s.edges, e, new_, top);
    assert Falls(edges, r, e);
    if Reaches(s, top, new_) {
      BelowFalls(s, edges, r, top, new_);
    }
    MovedNeeds(s, edges, r, top, new_);
  }

  /** The reference taken for the new link went into it. */
  lemma {:induction false} TrimBacked(s: State, t: State, b: Option<nat>, e: nat, bs: nat, n: nat)
    requires NodeOk(s, n) && Trimmed(Reffed(s, n), t, b) && bs in t.nodes && n in t.nodes && n in t.ext &&
             t.ext[n] > 0 && e !in t.edges
    ensures Trimmed(s, Backed(t, e, bs, n).(edges := t.edges), b)
  {
    var s1, t1 := Reffed(s, n), Backed(t, e, bs, n).(edges := t.edges);
    forall f: nat
      ensures EdgeTrim(s, t1, f, b)
    {
      assert EdgeTrim(s1, t, f, b);
    }
    forall m: nat
      ensures HolderKept(s, t1, m)
    {
      assert HolderKept(s1, t, m);
    }
  }

  /** The reference taken for the new link was given back. */
  lemma {:induction false} TrimUnref(s: State, t: State, b: Option<nat>, t': State, n: nat, r: nat)
    requires NodeOk(s, n) && Trimmed(Reffed(s, n), t, b) && Shrunk(t, t', n, 1, r)
    ensures Trimmed(s, t', b)
  {
    var s1 := Reffed(s, n);
    forall f: nat
      ensures EdgeTrim(s, t', f, b)
    {
      assert EdgeTrim(s1, t, f, b) && EdgeLeft(t, t', f);
      if f in s.edges && f !in t.edges && s.edges[f].owner.Some? {
        assert NodeLeft(t, t', s.edges[f].owner.value, n, 1, r);
      }
    }
    forall m: nat
      ensures HolderKept(s, t', m)
    {
      assert HolderKept(s1, t, m) && NodeLeft(t, t', m, n, 1, r);
    }
  }

  /** An edge is left as it was; or it is the backing link `b` that was dropped, or belonged to a deleted
      node. */
  predicate EdgeTrim(s: State, t: State, e: nat, b: Option<nat>) {
    && (e in t.edges ==> e in s.edges && t.edges[e] == s.edges[e])
    && (e in s.edges && e !in t.edges ==>
          b == Some(e) || (s.edges[e].owner.Some? && s.edges[e].owner.value !in t.nodes))
  }

  /** A node that is left has the same external holders; a deleted one had none. */
  predicate HolderKept(s: State, t: State, n: nat) {
    && (n in t.nodes ==> n in s.nodes && n in s.ext && n in t.ext && t.ext[n] == s.ext[n])
    && (n in s.nodes && n in s.ext && n !in t.nodes ==> s.ext[n] == 0)
  }

  /** From `s` to `t` the backing link `b` has been dropped, and what only it kept in use. */
  ghost predicate Trimmed(s: State, t: State, b: Option<nat>) {
    match s
    case State(_, _, _, _) =>
      && (forall e {:trigger EdgeTrim(s, t, e, b)} :: EdgeTrim(s, t, e, b))
      && (forall n {:trigger HolderKept(s, t, n)} :: HolderKept(s, t, n))
  }

  lemma {:induction false} TrimmedSame(s: State)
    requires Inv(s)
    ensures Trimmed(s, s, None)
  {
    forall n: nat
      ensures HolderKept(s, s, n)
    {
      assert n in s.nodes ==> NodeOk(s, n);
    }
  }

  lemma {:induction false} TrimmedRank(s: State, t: State, b: Option<nat>, r: map<nat, nat>)
    requires Trimmed(s, t, b)
    ensures Trimmed(s, t.(rank := r), b)
  {
    var t' := t.(rank := r);
    forall e: nat
      ensures EdgeTrim(s, t', e, b)
    {
      assert EdgeTrim(s, t, e, b);
    }
    forall n: nat
      ensures HolderKept(s, t', n)
    {
      assert HolderKept(s, t, n);
    }
  }

  /** What dropping the backing link of `bs` leaves. */
  lemma {:induction false} DroppedBacking(s: State, t: State, bs: nat)
    requires Inv(s) && Inv(t) && NodeOk(s, bs) && s.nodes[bs].backing.Some? && EdgeOk(s, s.nodes[bs].backing.value)
    requires var e := s.nodes[bs].backing.value;
      Shrunk(Detached(s, e), t, s.edges[e].bs, 1, s.rank[s.edges[e].bs])
    ensures bs in t.nodes && t.nodes[bs].backing == None && Trimmed(s, t, s.nodes[bs].backing)
  {
    var e := s.nodes[bs].backing.value;
    var d, x, r := Detached(s, e), s.edges[e].bs, s.rank[s.edges[e].bs];
    assert NodeLeft(d, t, bs, x, 1, r);
    forall f: nat
      ensures EdgeTrim(s, t, f, Some(e))
    {
      assert EdgeLeft(d, t, f);
    }
    forall n: nat
      ensures HolderKept(s, t, n)
    {
      assert NodeLeft(d, t, n, x, 1, r);
    }
  }

  /** Some user of the node is not moved. */
  predicate KeptUser(edges: Edges, from: nat, to: nat) {
    exists c :: c in edges && edges[c].bs == from && !Movable(edges[c], to)
  }

  /** A user that is not moved keeps the node in use. */
  lemma {:induction false} StillUsed(edges: Edges, edges': Edges, from: nat, to: nat)
    requires edges' == edges || edges' == Repointed(edges, from, to)
    ensures KeptUser(edges, from, to) ==> |Incoming(edges', from)| > 0
  {
    if c :| c in edges && edges[c].bs == from && !Movable(edges[c], to) {
      assert c in Incoming(edges', from);
    }
  }

  /** should_update_child: an edge follows unless its role stays, or it is the backing link of the new
      node itself. */
  predicate Movable(x: Edge, to: nat) {
    !x.stay && !(x.isBacking && x.owner == Some(to))
  }

  function Repointed(edges: Edges, from: nat, to: nat): Edges {
    map e | e in edges :: if edges[e].bs == from && Movable(edges[e], to) then edges[e].(bs := to) else edges[e]
  }

  /** The same nodes with the same backing links. */
  ghost predicate SameBacking(nodes: map<nat, Node>, nodes': map<nat, Node>) {
    nodes'.Keys == nodes.Keys && forall n :: n in nodes ==> nodes'[n].backing == nodes[n].backing
  }

  lemma {:induction false} SameBackingJoins(a: map<nat, Node>, b: map<nat, Node>, c: map<nat, Node>)
    requires SameBacking(a, b) && SameBacking(b, c)
    ensures SameBacking(a, c)
  {
  }

  lemma {:induction false} Restored(m: map<nat, nat>, m1: map<nat, nat>, m2: map<nat, nat>, k: nat)
    requires k in m && k in m1 && m1[k] > 0 && m1 == m[k := m[k] + 1] && m2 == m1[k := m1[k] - 1]
    ensures m2 == m
  {
  }
}
