/** Permissions in the block graph of block.c: a recursive check that only reads, then a recursive set
    phase that recomputes what the check has approved. */
module BlockPerm {
  datatype Perm = ConsistentRead | Write | WriteUnchanged | Resize | GraphMod

  const ALL: set<Perm> := {ConsistentRead, Write, WriteUnchanged, Resize, GraphMod}
  const PASSTHROUGH: set<Perm> := {ConsistentRead, Write, WriteUnchanged, Resize}

  datatype Role = Backing | File | Root

  /** A node without a driver, a driver that never has children, or one with the default permission
      functions for filters and for image formats. */
  datatype Driver = NoDriver | Leaf | Filter | Format

  /** BlockDriverState: the edges to its children and from its parents. */
  datatype Node = Node(driver: Driver, readOnly: bool, children: seq<nat>, parents: seq<nat>)

  /** BdrvChild, in two parts: what it connects, and what its user takes and shares. */
  datatype Link = Link(bs: nat, role: Role)
  datatype Use = Use(perm: set<Perm>, shared: set<Perm>)

  datatype Graph = Graph(nodes: map<nat, Node>, links: map<nat, Link>)
  type Uses = map<nat, Use>

  predicate NoDup(s: seq<nat>) {
    forall i, j :: 0 <= i < j < |s| ==> s[i] != s[j]
  }

  /** The children that the permission functions visit. */
  function Kids(x: Node): seq<nat> {
    if x.driver.NoDriver? then [] else x.children
  }

  predicate NodeOk(g: Graph, n: nat) {
    n in g.nodes &&
    var x := g.nodes[n];
    && NoDup(x.children) && NoDup(x.parents)
    && (forall i :: 0 <= i < |x.parents| ==> x.parents[i] in g.links && g.links[x.parents[i]].bs == n)
    && (forall i :: 0 <= i < |x.children| ==> x.children[i] in g.links)
    && (x.driver.Leaf? ==> x.children == [])
    && (x.driver.Format? ==> forall i :: 0 <= i < |x.children| ==> !g.links[x.children[i]].role.Root?)
  }

  predicate LinkOk(g: Graph, e: nat) {
    e in g.links && g.links[e].bs in g.nodes && e in g.nodes[g.links[e].bs].parents
  }

  predicate RankOk(g: Graph, rank: map<nat, nat>, n: nat, i: nat) {
    && n in rank && n in g.nodes && i < |g.nodes[n].children| && LinkOk(g, g.nodes[n].children[i])
    && g.links[g.nodes[n].children[i]].bs in rank && rank[g.links[g.nodes[n].children[i]].bs] < rank[n]
  }

  /** Edges and nodes refer to each other, and `rank` shows that there is no cycle. */
  ghost predicate Wf(g: Graph, rank: map<nat, nat>) {
    match g
    case Graph(nodes, links) =>
      && rank.Keys == nodes.Keys
      && (forall n {:trigger NodeOk(g, n)} :: n in nodes ==> NodeOk(g, n))
      && (forall e {:trigger LinkOk(g, e)} :: e in links ==> LinkOk(g, e))
      && (forall n, i {:trigger RankOk(g, rank, n, i)} :: n in nodes && 0 <= i < |nodes[n].children| ==>
           RankOk(g, rank, n, i))
  }

  /** Every edge has a user, who can tolerate that unchanged data is written. */
  ghost predicate UsesOk(g: Graph, u: Uses) {
    match g
    case Graph(_, links) => u.Keys == links.Keys && forall e :: e in u ==> WriteUnchanged in u[e].shared
  }

  // ---------------------------------------------------------------------------------------------
  // Cumulative permissions and the default permission functions
  // ---------------------------------------------------------------------------------------------

  predicate Known(u: Uses, list: seq<nat>) {
    forall i :: 0 <= i < |list| ==> list[i] in u
  }

  /** bdrv_get_cumulative_perm, and the accumulating loop of bdrv_check_update_perm. */
  function CumPerm(u: Uses, list: seq<nat>, ignore: set<nat>): set<Perm>
    requires Known(u, list)
  {
    if list == [] then {}
    else CumPerm(u, list[..|list| - 1], ignore)
         + if list[|list| - 1] in ignore then {} else u[list[|list| - 1]].perm
  }

  function CumShared(u: Uses, list: seq<nat>, ignore: set<nat>): set<Perm>
    requires Known(u, list)
  {
    if list == [] then ALL
    else CumShared(u, list[..|list| - 1], ignore)
         * if list[|list| - 1] in ignore then ALL else u[list[|list| - 1]].shared
  }

  /** bdrv_filter_default_perms for an existing child. */
  function FilterUse(e: Use, perm: set<Perm>, shared: set<Perm>): Use {
    Use((perm * PASSTHROUGH) + (e.perm * (ALL - PASSTHROUGH)),
        (shared * PASSTHROUGH) + (e.shared * (ALL - PASSTHROUGH)))
  }

  /** bdrv_child_perm: what a node takes and shares on a child, given what its parents take and share.
      Filters and formats use the default functions. */
  function ChildUse(x: Node, role: Role, e: Use, perm: set<Perm>, shared: set<Perm>): (r: Use)
    ensures WriteUnchanged in shared ==> WriteUnchanged in r.shared
  {
    var f := FilterUse(e, perm, shared);
    if x.driver.Filter? then f
    else if role.Backing? then
      Use(perm * {ConsistentRead},
          (if Write in shared then {Write, Resize} else {}) + {ConsistentRead, GraphMod, WriteUnchanged})
    else Use(f.perm + (if x.readOnly then {} else {Write, Resize}) + {ConsistentRead}, f.shared - {Write, Resize})
  }

  // ---------------------------------------------------------------------------------------------
  // The check phase
  // ---------------------------------------------------------------------------------------------

  /** A user of a node is compatible with the users in a list: each takes only what the other shares. */
  predicate FitsAll(u: Uses, list: seq<nat>, ignore: set<nat>, w: Use)
    requires Known(u, list)
  {
    forall i :: 0 <= i < |list| && list[i] !in ignore ==> w.perm <= u[list[i]].shared && u[list[i]].perm <= w.shared
  }

  predicate WritesReadOnly(x: Node, perm: set<Perm>) {
    x.readOnly && (Write in perm || WriteUnchanged in perm)
  }

  /** What the parents of a node take and share together, if one of them changes to `w`. */
  ghost function Total(g: Graph, u: Uses, n: nat, w: Use, ignore: set<nat>): Use
    requires NodeOk(g, n) && UsesOk(g, u)
  {
    Use(w.perm + CumPerm(u, g.nodes[n].parents, ignore), w.shared * CumShared(u, g.nodes[n].parents, ignore))
  }

  /** bdrv_check_update_perm */
  ghost predicate CheckUpdate(g: Graph, rank: map<nat, nat>, u: Uses, n: nat, w: Use, ignore: set<nat>)
    requires Wf(g, rank) && UsesOk(g, u) && n in g.nodes
    decreases rank[n], 2, 0
  {
    assert NodeOk(g, n);
    FitsAll(u, g.nodes[n].parents, ignore, w) && CheckPerm(g, rank, u, n, Total(g, u, n, w, ignore), ignore)
  }

  /** bdrv_check_perm */
  ghost predicate CheckPerm(g: Graph, rank: map<nat, nat>, u: Uses, n: nat, t: Use, ignore: set<nat>)
    requires Wf(g, rank) && UsesOk(g, u) && n in g.nodes
    decreases rank[n], 1, 0
  {
    && !WritesReadOnly(g.nodes[n], t.perm)
    && forall i :: 0 <= i < |Kids(g.nodes[n])| ==> CheckKid(g, rank, u, n, i, t, ignore)
  }

  /** bdrv_child_check_perm for child number `i`. */
  ghost predicate CheckKid(g: Graph, rank: map<nat, nat>, u: Uses, n: nat, i: nat, t: Use, ignore: set<nat>)
    requires Wf(g, rank) && UsesOk(g, u) && n in g.nodes && i < |Kids(g.nodes[n])|
    decreases rank[n], 0, 0
  {
    KidRank(g, rank, n, i);
    CheckUpdate(g, rank, u, KidNode(g, n, i), KidUse(g, u, n, i, t), ignore + {Kid(g, n, i)})
  }

  /** Child number `i` of a node: its edge, its node, and the use that the driver asks for. */
  function Kid(g: Graph, n: nat, i: nat): nat
    requires NodeOk(g, n) && i < |Kids(g.nodes[n])|
  {
    Kids(g.nodes[n])[i]
  }

  function KidNode(g: Graph, n: nat, i: nat): nat
    requires NodeOk(g, n) && i < |Kids(g.nodes[n])|
  {
    g.links[Kid(g, n, i)].bs
  }

  ghost function KidUse(g: Graph, u: Uses, n: nat, i: nat, t: Use): Use
    requires NodeOk(g, n) && UsesOk(g, u) && i < |Kids(g.nodes[n])|
  {
    ChildUse(g.nodes[n], g.links[Kid(g, n, i)].role, u[Kid(g, n, i)], t.perm, t.shared)
  }

  lemma {:induction false} KidRank(g: Graph, rank: map<nat, nat>, n: nat, i: nat)
    requires Wf(g, rank) && n in g.nodes && i < |Kids(g.nodes[n])|
    ensures NodeOk(g, n) && KidNode(g, n, i) in g.nodes && rank[KidNode(g, n, i)] < rank[n]
    ensures Kid(g, n, i) in g.links && NodeOk(g, KidNode(g, n, i))
  {
    assert NodeOk(g, n) && RankOk(g, rank, n, i) && LinkOk(g, g.nodes[n].children[i]);
    assert NodeOk(g, KidNode(g, n, i));
  }

  lemma {:induction false} CumSharedUnchanged(g: Graph, u: Uses, list: seq<nat>, ignore: set<nat>)
    requires UsesOk(g, u) && Known(u, list)
    ensures WriteUnchanged in CumShared(u, list, ignore)
  {
    if list != [] {
      CumSharedUnchanged(g, u, list[..|list| - 1], ignore);
    }
  }

  /** bdrv_get_cumulative_perm */
  ghost function Cumulative(g: Graph, u: Uses, n: nat): (t: Use)
    requires NodeOk(g, n) && UsesOk(g, u)
    ensures WriteUnchanged in t.shared
  {
    CumSharedUnchanged(g, u, g.nodes[n].parents, {});
    Use(CumPerm(u, g.nodes[n].parents, {}), CumShared(u, g.nodes[n].parents, {}))
  }

  // ---------------------------------------------------------------------------------------------
  // What lies below a node
  // ---------------------------------------------------------------------------------------------

  /** The node and all nodes below it. */
  ghost function Nodes(g: Graph, rank: map<nat, nat>, n: nat): set<nat>
    requires Wf(g, rank) && n in g.nodes
    decreases rank[n], 1, 0
  {
    {n} + Below(g, rank, n, 0)
  }

  /** The nodes below children `i` and up. */
  ghost function Below(g: Graph, rank: map<nat, nat>, n: nat, i: nat): set<nat>
    requires Wf(g, rank) && n in g.nodes && i <= |Kids(g.nodes[n])|
    decreases rank[n], 0, |Kids(g.nodes[n])| - i
  {
    if i == |Kids(g.nodes[n])| then {}
    else
      KidRank(g, rank, n, i);
      Nodes(g, rank, KidNode(g, n, i)) + Below(g, rank, n, i + 1)
  }

  lemma {:induction false} KidBelow(g: Graph, rank: map<nat, nat>, n: nat, j: nat, i: nat)
    requires Wf(g, rank) && n in g.nodes && j <= i < |Kids(g.nodes[n])| && NodeOk(g, n) && KidNode(g, n, i) in g.nodes
    ensures Nodes(g, rank, KidNode(g, n, i)) <= Below(g, rank, n, j)
    decreases i - j
  {
    KidRank(g, rank, n, j);
    assert Below(g, rank, n, j) == Nodes(g, rank, KidNode(g, n, j)) + Below(g, rank, n, j + 1);
    if j < i {
      KidBelow(g, rank, n, j + 1, i);
    }
  }

  lemma {:induction false} BelowKid(g: Graph, rank: map<nat, nat>, n: nat, j: nat, m: nat) returns (i: nat)
    requires Wf(g, rank) && n in g.nodes && j <= |Kids(g.nodes[n])| && NodeOk(g, n) && m in Below(g, rank, n, j)
    ensures j <= i < |Kids(g.nodes[n])| && KidNode(g, n, i) in g.nodes && m in Nodes(g, rank, KidNode(g, n, i))
    decreases |Kids(g.nodes[n])| - j
  {
    KidRank(g, rank, n, j);
    if m in Nodes(g, rank, KidNode(g, n, j)) {
      i := j;
    } else {
      i := BelowKid(g, rank, n, j + 1, m);
    }
  }

  lemma {:induction false} NodesKnown(g: Graph, rank: map<nat, nat>, n: nat)
    requires Wf(g, rank) && n in g.nodes
    ensures Nodes(g, rank, n) <= g.nodes.Keys
    decreases rank[n], 1
  {
    assert NodeOk(g, n);
    forall m | m in Below(g, rank, n, 0)
      ensures m in g.nodes
    {
      var i := BelowKid(g, rank, n, 0, m);
      KidRank(g, rank, n, i);
      NodesKnown(g, rank, KidNode(g, n, i));
    }
  }

  /** The nodes below child number `i`. */
  ghost function KidNodes(g: Graph, rank: map<nat, nat>, n: nat, i: nat): set<nat>
    requires Wf(g, rank) && n in g.nodes && i < |Kids(g.nodes[n])|
  {
    KidRank(g, rank, n, i);
    Nodes(g, rank, KidNode(g, n, i))
  }

  /** Every node below is reached by one path. */
  ghost predicate Tree(g: Graph, rank: map<nat, nat>, n: nat)
    requires Wf(g, rank) && n in g.nodes
    decreases rank[n]
  {
    && n !in Below(g, rank, n, 0)
    && (forall i :: 0 <= i < |Kids(g.nodes[n])| ==> (KidRank(g, rank, n, i); Tree(g, rank, KidNode(g, n, i))))
    && (forall i, j :: 0 <= i < |Kids(g.nodes[n])| && 0 <= j < |Kids(g.nodes[n])| && i != j ==>
          KidNodes(g, rank, n, i) !! KidNodes(g, rank, n, j))
  }

  /** The same uses on all edges into a set of nodes. */
  ghost predicate Agree(g: Graph, u: Uses, v: Uses, s: set<nat>) {
    forall e :: e in g.links && g.links[e].bs in s ==> e in u && e in v && v[e] == u[e]
  }

  // ---------------------------------------------------------------------------------------------
  // What was checked is what is installed
  // ---------------------------------------------------------------------------------------------

  /** In `v`, every edge below node `n` has the use that bdrv_check_update_perm examined in `u`. */
  ghost predicate Installed(g: Graph, rank: map<nat, nat>, u: Uses, v: Uses, n: nat, w: Use, ignore: set<nat>)
    requires Wf(g, rank) && UsesOk(g, u) && UsesOk(g, v) && n in g.nodes
    decreases rank[n], 1
  {
    assert NodeOk(g, n);
    forall i :: 0 <= i < |Kids(g.nodes[n])| ==> InstalledKid(g, rank, u, v, n, i, Total(g, u, n, w, ignore), ignore)
  }

  ghost predicate InstalledKid(g: Graph, rank: map<nat, nat>, u: Uses, v: Uses, n: nat, i: nat, t: Use,
                               ignore: set<nat>)
    requires Wf(g, rank) && UsesOk(g, u) && UsesOk(g, v) && n in g.nodes && i < |Kids(g.nodes[n])|
    decreases rank[n], 0
  {
    KidRank(g, rank, n, i);
    var c, w := Kid(g, n, i), KidUse(g, u, n, i, t);
    v[c] == w && Installed(g, rank, u, v, KidNode(g, n, i), w, ignore + {c})
  }

  lemma {:induction false} InstalledFrame(g: Graph, rank: map<nat, nat>, u: Uses, v: Uses, v': Uses, n: nat, w: Use,
                                          ignore: set<nat>)
    requires Wf(g, rank) && UsesOk(g, u) && UsesOk(g, v) && UsesOk(g, v') && n in g.nodes
    requires Installed(g, rank, u, v, n, w, ignore) && Agree(g, v, v', Nodes(g, rank, n))
    ensures Installed(g, rank, u, v', n, w, ignore)
    decreases rank[n], 1
  {
    assert NodeOk(g, n);
    var t := Total(g, u, n, w, ignore);
    forall i | 0 <= i < |Kids(g.nodes[n])|
      ensures InstalledKid(g, rank, u, v', n, i, t, ignore)
    {
      KidRank(g, rank, n, i);
      KidBelow(g, rank, n, 0, i);
      AgreePart(g, v, v', Nodes(g, rank, n), KidNodes(g, rank, n, i));
      assert InstalledKid(g, rank, u, v, n, i, t, ignore);
      InstalledKidFrame(g, rank, u, v, v', n, i, t, ignore);
    }
  }

  lemma {:induction false} InstalledKidFrame(g: Graph, rank: map<nat, nat>, u: Uses, v: Uses, v': Uses, n: nat, i: nat,
                                             t: Use, ignore: set<nat>)
    requires Wf(g, rank) && UsesOk(g, u) && UsesOk(g, v) && UsesOk(g, v') && n in g.nodes && i < |Kids(g.nodes[n])|
    requires InstalledKid(g, rank, u, v, n, i, t, ignore) && Agree(g, v, v', KidNodes(g, rank, n, i))
    ensures InstalledKid(g, rank, u, v', n, i, t, ignore)
    decreases rank[n], 0
  {
    KidRank(g, rank, n, i);
    assert KidNode(g, n, i) in KidNodes(g, rank, n, i);
    InstalledFrame(g, rank, u, v, v', KidNode(g, n, i), KidUse(g, u, n, i, t), ignore + {Kid(g, n, i)});
  }

  lemma {:induction false} AgreePart(g: Graph, u: Uses, k: Uses, s: set<nat>, s': set<nat>)
    requires Agree(g, u, k, s) && s' <= s
    ensures Agree(g, u, k, s')
  {
  }

  // ---------------------------------------------------------------------------------------------
  // Compatibility
  // ---------------------------------------------------------------------------------------------

  /** The users of a node are pairwise compatible. */
  ghost predicate Compatible(g: Graph, u: Uses, n: nat)
    requires UsesOk(g, u)
  {
    NodeOk(g, n) &&
    forall e, f :: e in g.nodes[n].parents && f in g.nodes[n].parents && e != f ==> u[e].perm <= u[f].shared
  }

  ghost predicate CompatibleIn(g: Graph, u: Uses, s: set<nat>)
    requires UsesOk(g, u)
  {
    forall n :: n in s ==> Compatible(g, u, n)
  }

  lemma {:induction false} CompatibleFrame(g: Graph, u: Uses, v: Uses, s: set<nat>)
    requires UsesOk(g, u) && UsesOk(g, v) && CompatibleIn(g, u, s) && Agree(g, u, v, s)
    ensures CompatibleIn(g, v, s)
  {
    forall n | n in s
      ensures Compatible(g, v, n)
    {
      assert Compatible(g, u, n);
    }
  }

  lemma {:induction false} AnyPerm(p: Perm)
    ensures p in ALL
  {
    match p
    case ConsistentRead => case Write => case WriteUnchanged => case Resize => case GraphMod =>
  }

  lemma {:induction false} AllPerms(s: set<Perm>)
    ensures s <= ALL
  {
    forall p | p in s
      ensures p in ALL
    {
      AnyPerm(p);
    }
  }

  /** Accumulating over all parents gives what accumulating over the others and adding the changed one
      gives. */
  lemma {:induction false} CumJoins(u: Uses, v: Uses, list: seq<nat>, c: nat, ignore: set<nat>)
    requires Known(u, list) && Known(v, list) && c in ignore && c in v
    requires forall i :: 0 <= i < |list| && list[i] != c ==> list[i] !in ignore && v[list[i]] == u[list[i]]
    ensures v[c].perm + CumPerm(v, list, {}) == v[c].perm + CumPerm(u, list, ignore)
    ensures v[c].shared * CumShared(v, list, {}) == v[c].shared * CumShared(u, list, ignore)
    ensures c in list ==> v[c].perm <= CumPerm(v, list, {}) && CumShared(v, list, {}) <= v[c].shared
  {
    if list != [] {
      var front, last := list[..|list| - 1], list[|list| - 1];
      CumJoins(u, v, front, c, ignore);
      AllPerms(CumShared(u, front, ignore));
      assert list == front + [last];
      var s, fv, fu := v[c].shared, CumShared(v, front, {}), CumShared(u, front, ignore);
      if last == c {
        assert s * (fv * s) == s * fv;
        assert fu * ALL == fu;
      } else {
        assert s * (fv * v[last].shared) == (s * fv) * v[last].shared;
        assert s * (fu * v[last].shared) == (s * fu) * v[last].shared;
      }
    }
  }

  /** The path edges that the check ignores lead to none of the nodes in a set, except `c`. */
  ghost predicate IgnoresOnly(g: Graph, ignore: set<nat>, c: nat, s: set<nat>) {
    c in ignore && forall e :: e in ignore && e in g.links && e != c ==> g.links[e].bs !in s
  }

  /** With the new use on edge `c`, the set phase computes the cumulative permissions of the check. */
  lemma {:induction false} SameTotal(g: Graph, u: Uses, v: Uses, c: nat, w: Use, ignore: set<nat>)
    requires UsesOk(g, u) && UsesOk(g, v) && LinkOk(g, c) && NodeOk(g, g.links[c].bs) && WriteUnchanged in w.shared
    requires Agree(g, u, v, {g.links[c].bs}) && IgnoresOnly(g, ignore, c, {g.links[c].bs})
    ensures Cumulative(g, v[c := w], g.links[c].bs) == Total(g, u, g.links[c].bs, w, ignore)
  {
    CumJoins(u, v[c := w], g.nodes[g.links[c].bs].parents, c, ignore);
  }

  /** After the set phase on the nodes below, the node itself is compatible. */
  lemma {:induction false} TopCompatible(g: Graph, u: Uses, v: Uses, c: nat, w: Use, ignore: set<nat>)
    requires UsesOk(g, u) && UsesOk(g, v) && LinkOk(g, c) && Compatible(g, u, g.links[c].bs)
    requires FitsAll(u, g.nodes[g.links[c].bs].parents, ignore, w) && IgnoresOnly(g, ignore, c, {g.links[c].bs})
    requires v[c] == w && forall e :: e in g.links && g.links[e].bs == g.links[c].bs && e != c ==> v[e] == u[e]
    ensures Compatible(g, v, g.links[c].bs)
  {
  }

  lemma {:induction false} CompatiblePart(g: Graph, u: Uses, s: set<nat>, s': set<nat>)
    requires UsesOk(g, u) && CompatibleIn(g, u, s) && s' <= s
    ensures CompatibleIn(g, u, s')
  {
  }

  /** Edges that do not lead into a set of nodes have the same use. */
  ghost predicate Outside(g: Graph, u: Uses, v: Uses, s: set<nat>) {
    forall e :: e in g.links && g.links[e].bs !in s ==> e in u && e in v && v[e] == u[e]
  }

  /** The subtree below edge `c` was checked in `u` for use `w`, and in `k` it is still the same. */
  ghost predicate Ready(g: Graph, rank: map<nat, nat>, u: Uses, k: Uses, c: nat, w: Use, ignore: set<nat>) {
    match g
    case Graph(_, links) =>
      && Wf(g, rank) && UsesOk(g, u) && LinkOk(g, c) && WriteUnchanged in w.shared && Tree(g, rank, links[c].bs)
      && Agree(g, u, k, Nodes(g, rank, links[c].bs)) && CheckUpdate(g, rank, u, links[c].bs, w, ignore)
      && IgnoresOnly(g, ignore, c, Nodes(g, rank, links[c].bs)) && CompatibleIn(g, u, Nodes(g, rank, links[c].bs))
  }

  /** Below edge `c` the checked uses are installed in `v`, and users are compatible. */
  ghost predicate Done(g: Graph, rank: map<nat, nat>, u: Uses, v: Uses, c: nat, w: Use, ignore: set<nat>) {
    match g
    case Graph(_, links) =>
      && Wf(g, rank) && UsesOk(g, u) && UsesOk(g, v) && LinkOk(g, c)
      && v[c] == w && CompatibleIn(g, v, Nodes(g, rank, links[c].bs))
      && Installed(g, rank, u, v, links[c].bs, w, ignore)
  }

  lemma {:induction false} DoneFrame(g: Graph, rank: map<nat, nat>, u: Uses, v: Uses, v': Uses, c: nat, w: Use,
                                     ignore: set<nat>)
    requires Done(g, rank, u, v, c, w, ignore) && UsesOk(g, v') && Agree(g, v, v', Nodes(g, rank, g.links[c].bs))
    ensures Done(g, rank, u, v', c, w, ignore)
  {
    assert g.links[c].bs in Nodes(g, rank, g.links[c].bs);
    CompatibleFrame(g, v, v', Nodes(g, rank, g.links[c].bs));
    InstalledFrame(g, rank, u, v, v', g.links[c].bs, w, ignore);
  }

  /** Child number `i` of a node, when the node's parents take and share `t`. */
  ghost predicate KidReady(g: Graph, rank: map<nat, nat>, u: Uses, k: Uses, n: nat, i: nat, t: Use, ignore: set<nat>)
    requires Wf(g, rank) && UsesOk(g, u) && n in g.nodes && i < |Kids(g.nodes[n])|
  {
    KidRank(g, rank, n, i);
    Ready(g, rank, u, k, Kid(g, n, i), KidUse(g, u, n, i, t), ignore + {Kid(g, n, i)})
  }

  ghost predicate KidDone(g: Graph, rank: map<nat, nat>, u: Uses, v: Uses, n: nat, i: nat, t: Use, ignore: set<nat>)
    requires Wf(g, rank) && UsesOk(g, u) && n in g.nodes && i < |Kids(g.nodes[n])|
  {
    KidRank(g, rank, n, i);
    Done(g, rank, u, v, Kid(g, n, i), KidUse(g, u, n, i, t), ignore + {Kid(g, n, i)})
  }

  lemma {:induction false} KidChecked(g: Graph, rank: map<nat, nat>, u: Uses, n: nat, w: Use, ignore: set<nat>, i: nat)
    requires Wf(g, rank) && UsesOk(g, u) && n in g.nodes && i < |Kids(g.nodes[n])| &&
             CheckUpdate(g, rank, u, n, w, ignore)
    ensures NodeOk(g, n) && CheckKid(g, rank, u, n, i, Total(g, u, n, w, ignore), ignore)
  {
    assert NodeOk(g, n);
    assert CheckPerm(g, rank, u, n, Total(g, u, n, w, ignore), ignore);
  }

  /** What has to be so for the children when the set phase has changed edge `c`. */
  lemma {:induction false} EnterKid(g: Graph, rank: map<nat, nat>, u: Uses, k: Uses, c: nat, w: Use, ignore: set<nat>,
                                    i: nat)
    requires Ready(g, rank, u, k, c, w, ignore) && UsesOk(g, k) && i < |Kids(g.nodes[g.links[c].bs])|
    ensures NodeOk(g, g.links[c].bs)
    ensures KidReady(g, rank, u, k[c := w], g.links[c].bs, i, Total(g, u, g.links[c].bs, w, ignore), ignore)
  {
    var n := g.links[c].bs;
    KidRank(g, rank, n, i);
    KidBelow(g, rank, n, 0, i);
    KidChecked(g, rank, u, n, w, ignore, i);
    CumSharedUnchanged(g, u, g.nodes[n].parents, ignore);
    assert LinkOk(g, Kid(g, n, i)) && KidNodes(g, rank, n, i) <= Below(g, rank, n, 0) &&
           Tree(g, rank, KidNode(g, n, i));
    assert KidNode(g, n, i) in KidNodes(g, rank, n, i);
    Narrow(g, u, k, c, w, ignore, Kid(g, n, i), Nodes(g, rank, n), KidNodes(g, rank, n, i));
  }

  /** From the nodes below an edge to those below one of its children. */
  lemma {:induction false} Narrow(g: Graph, u: Uses, k: Uses, c: nat, w: Use, ignore: set<nat>, c': nat, s: set<nat>,
                                  s': set<nat>)
    requires UsesOk(g, u) && UsesOk(g, k) && c in g.links && c' in g.links && s' <= s && g.links[c].bs !in s'
    requires Agree(g, u, k, s) && CompatibleIn(g, u, s) && IgnoresOnly(g, ignore, c, s)
    ensures Agree(g, u, k[c := w], s') && CompatibleIn(g, u, s') && IgnoresOnly(g, ignore + {c'}, c', s')
  {
  }

  /** A change below one child leaves the other children as they are. */
  lemma {:induction false} OtherKid(g: Graph, rank: map<nat, nat>, u: Uses, k: Uses, v: Uses, n: nat, i: nat, j: nat,
                                    t: Use, ignore: set<nat>)
    requires Wf(g, rank) && UsesOk(g, u) && UsesOk(g, k) && UsesOk(g, v) && n in g.nodes && Tree(g, rank, n)
    requires i < |Kids(g.nodes[n])| && j < |Kids(g.nodes[n])| && i != j && Outside(g, k, v, KidNodes(g, rank, n, i))
    ensures KidReady(g, rank, u, k, n, j, t, ignore) ==> KidReady(g, rank, u, v, n, j, t, ignore)
    ensures KidDone(g, rank, u, k, n, j, t, ignore) ==> KidDone(g, rank, u, v, n, j, t, ignore)
  {
    KidRank(g, rank, n, j);
    assert KidNodes(g, rank, n, i) !! KidNodes(g, rank, n, j);
    assert Agree(g, k, v, KidNodes(g, rank, n, j));
    if KidDone(g, rank, u, k, n, j, t, ignore) {
      DoneFrame(g, rank, u, k, v, Kid(g, n, j), KidUse(g, u, n, j, t), ignore + {Kid(g, n, j)});
    }
  }

  /** When all children are done, so is the edge. */
  lemma {:induction false} KidsDone(g: Graph, rank: map<nat, nat>, u: Uses, k: Uses, v: Uses, c: nat, w: Use,
                                    ignore: set<nat>)
    requires Ready(g, rank, u, k, c, w, ignore) && UsesOk(g, k) && UsesOk(g, v) && NodeOk(g, g.links[c].bs)
    requires Outside(g, k[c := w], v, Below(g, rank, g.links[c].bs, 0))
    requires forall i :: 0 <= i < |Kids(g.nodes[g.links[c].bs])| ==>
               KidDone(g, rank, u, v, g.links[c].bs, i, Total(g, u, g.links[c].bs, w, ignore), ignore)
    ensures Done(g, rank, u, v, c, w, ignore)
  {
    var n := g.links[c].bs;
    assert n in Nodes(g, rank, n) && n !in Below(g, rank, n, 0) && Compatible(g, u, n);
    TopCompatible(g, u, v, c, w, ignore);
    forall m | m in Below(g, rank, n, 0)
      ensures Compatible(g, v, m)
    {
      var i := BelowKid(g, rank, n, 0, m);
      assert KidDone(g, rank, u, v, n, i, Total(g, u, n, w, ignore), ignore);
    }
    forall i | 0 <= i < |Kids(g.nodes[n])|
      ensures InstalledKid(g, rank, u, v, n, i, Total(g, u, n, w, ignore), ignore)
    {
      assert KidDone(g, rank, u, v, n, i, Total(g, u, n, w, ignore), ignore);
    }
  }

  // ---------------------------------------------------------------------------------------------
  // The operations
  // ---------------------------------------------------------------------------------------------

  class BlockGraph {
    var graph: Graph
    var uses: Uses
    ghost var rank: map<nat, nat>

    ghost predicate Valid()
      reads this
    {
      Wf(graph, rank) && UsesOk(graph, uses)
    }

    /** The users of every node are pairwise compatible. */
    ghost predicate AllCompatible()
      requires Valid()
      reads this
    {
      CompatibleIn(graph, uses, graph.nodes.Keys)
    }

    /** The loop of bdrv_check_update_perm over the parents. */
    method Accumulate(n: nat, w: Use, ignore: set<nat>) returns (ok: bool, t: Use)
      requires Valid() && n in graph.nodes && NodeOk(graph, n)
      ensures ok == FitsAll(uses, graph.nodes[n].parents, ignore, w)
      ensures ok ==> t == Total(graph, uses, n, w, ignore)
    {
      var ps := graph.nodes[n].parents;
      t := w;
      AllPerms(w.shared);
      for i := 0 to |ps|
        invariant Known(uses, ps[..i]) && FitsAll(uses, ps[..i], ignore, w)
        invariant t.perm == w.perm + CumPerm(uses, ps[..i], ignore)
        invariant t.shared == w.shared * CumShared(uses, ps[..i], ignore)
      {
        assert ps[..i + 1][..i] == ps[..i];
        AllPerms(CumShared(uses, ps[..i], ignore));
        if ps[i] !in ignore {
          var c := uses[ps[i]];
          if !(w.perm <= c.shared) || !(c.perm <= w.shared) {
            assert !FitsAll(uses, ps, ignore, w);
            return false, t;
          }
          t := Use(t.perm + c.perm, t.shared * c.shared);
        }
      }
      assert ps[..|ps|] == ps;
      return true, t;
    }

    /** bdrv_check_update_perm: reads only, and agrees with its specification. */
    method CheckUpdatePerm(n: nat, w: Use, ignore: set<nat>) returns (ok: bool)
      requires Valid() && n in graph.nodes && WriteUnchanged in w.shared
      ensures ok == CheckUpdate(graph, rank, uses, n, w, ignore)
      decreases rank[n], 1
    {
      assert NodeOk(graph, n);
      var t;
      ok, t := Accumulate(n, w, ignore);
      if ok {
        CumSharedUnchanged(graph, uses, graph.nodes[n].parents, ignore);
        ok := CheckPermOf(n, t, ignore);
      }
    }

    /** bdrv_check_perm */
    method CheckPermOf(n: nat, t: Use, ignore: set<nat>) returns (ok: bool)
      requires Valid() && n in graph.nodes && WriteUnchanged in t.shared
      ensures ok == CheckPerm(graph, rank, uses, n, t, ignore)
      decreases rank[n], 0
    {
      var x := graph.nodes[n];
      if WritesReadOnly(x, t.perm) {
        return false;
      }
      for i := 0 to |Kids(x)|
        invariant forall j :: 0 <= j < i ==> CheckKid(graph, rank, uses, n, j, t, ignore)
      {
        KidRank(graph, rank, n, i);
        var c := Kids(x)[i];
        var w := ChildUse(x, graph.links[c].role, uses[c], t.perm, t.shared);
        ok := CheckUpdatePerm(graph.links[c].bs, w, ignore + {c});
        if !ok {
          assert !CheckKid(graph, rank, uses, n, i, t, ignore);
          return false;
        }
      }
      return true;
    }

    /** bdrv_get_cumulative_perm */
    method GetCumulativePerm(n: nat) returns (t: Use)
      requires Valid() && n in graph.nodes && NodeOk(graph, n)
      ensures t == Cumulative(graph, uses, n)
    {
      var ps := graph.nodes[n].parents;
      t := Use({}, ALL);
      for i := 0 to |ps|
        invariant Known(uses, ps[..i]) && t == Use(CumPerm(uses, ps[..i], {}), CumShared(uses, ps[..i], {}))
      {
        assert ps[..i + 1][..i] == ps[..i];
        t := Use(t.perm + uses[ps[i]].perm, t.shared * uses[ps[i]].shared);
      }
      assert ps[..|ps|] == ps;
    }

    /** bdrv_child_set_perm */
    method ChildSetPerm(c: nat, w: Use)
      requires Valid() && LinkOk(graph, c) && WriteUnchanged in w.shared
      modifies this`uses
      ensures Valid() && uses == SetEdge(graph, rank, old(uses), c, w)
      decreases rank[graph.links[c].bs], 2
    {
      var n := graph.links[c].bs;
      assert NodeOk(graph, n);
      uses := uses[c := w];
      var t := GetCumulativePerm(n);
      SetPerm(n, t);
    }

    /** bdrv_set_perm */
    method SetPerm(n: nat, t: Use)
      requires Valid() && n in graph.nodes && WriteUnchanged in t.shared
      modifies this`uses
      ensures Valid() && uses == SetKids(graph, rank, old(uses), n, 0, t)
      decreases rank[n], 1
    {
      ghost var goal := SetKids(graph, rank, uses, n, 0, t);
      for i := 0 to |Kids(graph.nodes[n])|
        invariant Valid() && LeadsTo(graph, rank, uses, n, i, t, goal)
      {
        SetKid(n, i, t, goal);
      }
      AllSet(graph, rank, uses, n, t, goal);
    }

    /** One round of the loop of bdrv_set_perm. */
    method SetKid(n: nat, i: nat, t: Use, ghost goal: Uses)
      requires Valid() && n in graph.nodes && i < |Kids(graph.nodes[n])| && WriteUnchanged in t.shared
      requires LeadsTo(graph, rank, uses, n, i, t, goal)
      modifies this`uses
      ensures Valid() && LeadsTo(graph, rank, uses, n, i + 1, t, goal)
      decreases rank[n], 0
    {
      KidRank(graph, rank, n, i);
      var x, c := graph.nodes[n], Kids(graph.nodes[n])[i];
      var w := ChildUse(x, graph.links[c].role, uses[c], t.perm, t.shared);
      ChildSetPerm(c, w);
    }

    /** bdrv_child_try_set_perm: either nothing changes, or the set phase has run.  If every node below the edge is
        reached by one path, exactly the checked permissions are installed then, and all users stay compatible. */
    method ChildTrySetPerm(c: nat, w: Use) returns (ok: bool)
      requires Valid() && c in graph.links && LinkOk(graph, c) && WriteUnchanged in w.shared
      modifies this`uses
      ensures Valid() && ok == CheckUpdate(graph, rank, old(uses), graph.links[c].bs, w, {c})
      ensures uses == if ok then SetEdge(graph, rank, old(uses), c, w) else old(uses)
      ensures Outside(graph, old(uses), uses, Nodes(graph, rank, graph.links[c].bs)) && (ok ==> uses[c] == w)
      ensures ok && old(AllCompatible()) ==> (AllCompatible() <==> ChangedFit(graph, old(uses), uses))
      ensures Tree(graph, rank, graph.links[c].bs) && old(AllCompatible()) ==>
                AllCompatible() && (ok ==> Installed(graph, rank, old(uses), uses, graph.links[c].bs, w, {c}))
    {
      var n := graph.links[c].bs;
      ok := CheckUpdatePerm(n, w, {c});
      if ok {
        SetOutside(graph, rank, uses, c, w);
        if AllCompatible() {
          TryAccepted(graph, rank, uses, c, w);
        }
        ChildSetPerm(c, w);
      }
    }

    /** bdrv_root_attach_child: a new user `c` of node `n`. */
    method RootAttachChild(n: nat, c: nat, role: Role, w: Use) returns (ok: bool)
      requires Valid() && n in graph.nodes && c !in graph.links && WriteUnchanged in w.shared
      modifies this`graph, this`uses
      ensures Valid() && ok == CheckUpdate(old(graph), rank, old(uses), n, w, {})
      ensures !ok ==> graph == old(graph) && uses == old(uses)
      ensures ok ==> graph == Attached(old(graph), n, c, role) && LinkOk(graph, c) && UsesOk(graph, old(uses)[c := w])
      ensures ok ==> uses == SetEdge(graph, rank, old(uses)[c := w], c, w) && uses[c] == w
      ensures ok ==> Outside(graph, old(uses)[c := w], uses, Nodes(graph, rank, n))
      ensures ok && old(AllCompatible()) ==> (AllCompatible() <==> ChangedFit(graph, old(uses)[c := w], uses))
      ensures old(Tree(graph, rank, n) && AllCompatible()) ==>
                AllCompatible() && (ok ==> Installed(graph, rank, old(uses)[c := w], uses, n, w, {c}))
    {
      ok := CheckUpdatePerm(n, w, {});
      if ok {
        ghost var g, u := graph, uses;
        AttachedWf(g, rank, n, c, role);
        graph := Attached(graph, n, c, role);
        uses := uses[c := w];
        ghost var v := uses;
        SetOutside(graph, rank, v, c, w);
        if CompatibleIn(g, u, g.nodes.Keys) {
          AttachExact(g, rank, u, n, c, role, w);
          if Tree(g, rank, n) {
            AttachInstalls(g, rank, u, n, c, role, w);
          }
        }
        ChildSetPerm(c, w);
      }
    }
  }

  // ---------------------------------------------------------------------------------------------
  // The set phase
  // ---------------------------------------------------------------------------------------------

  /** The uses after bdrv_child_set_perm on edge `c`: each node passes on what its parents take and share at the
      time. */
  ghost function SetEdge(g: Graph, rank: map<nat, nat>, k: Uses, c: nat, w: Use): (v: Uses)
    requires Wf(g, rank) && UsesOk(g, k) && LinkOk(g, c) && WriteUnchanged in w.shared
    ensures UsesOk(g, v)
    decreases rank[g.links[c].bs], 1, 0
  {
    assert NodeOk(g, g.links[c].bs);
    SetKids(g, rank, k[c := w], g.links[c].bs, 0, Cumulative(g, k[c := w], g.links[c].bs))
  }

  /** The uses after bdrv_set_perm has gone on with child number `i`. */
  ghost function SetKids(g: Graph, rank: map<nat, nat>, k: Uses, n: nat, i: nat, t: Use): (v: Uses)
    requires Wf(g, rank) && UsesOk(g, k) && n in g.nodes && i <= |Kids(g.nodes[n])| && WriteUnchanged in t.shared
    ensures UsesOk(g, v)
    decreases rank[n], 0, |Kids(g.nodes[n])| - i
  {
    if i == |Kids(g.nodes[n])| then k
    else
      KidRank(g, rank, n, i);
      SetKids(g, rank, SetEdge(g, rank, k, Kid(g, n, i), KidUse(g, k, n, i, t)), n, i + 1, t)
  }

  ghost predicate LeadsTo(g: Graph, rank: map<nat, nat>, k: Uses, n: nat, i: nat, t: Use, v: Uses)
    requires Wf(g, rank) && UsesOk(g, k) && n in g.nodes && i <= |Kids(g.nodes[n])| && WriteUnchanged in t.shared
  {
    SetKids(g, rank, k, n, i, t) == v
  }

  lemma {:induction false} AllSet(g: Graph, rank: map<nat, nat>, k: Uses, n: nat, t: Use, v: Uses)
    requires Wf(g, rank) && UsesOk(g, k) && n in g.nodes && WriteUnchanged in t.shared
    requires LeadsTo(g, rank, k, n, |Kids(g.nodes[n])|, t, v)
    ensures k == v
  {
  }

  /** Below a node the rank is lower. */
  lemma {:induction false} BelowRank(g: Graph, rank: map<nat, nat>, n: nat, m: nat)
    requires Wf(g, rank) && n in g.nodes && m in Below(g, rank, n, 0)
    ensures m in rank && rank[m] < rank[n]
    decreases rank[n]
  {
    assert NodeOk(g, n);
    var i := BelowKid(g, rank, n, 0, m);
    KidRank(g, rank, n, i);
    if m != KidNode(g, n, i) {
      BelowRank(g, rank, KidNode(g, n, i), m);
    }
  }

  /** The set phase changes the edge and edges into nodes below, and nothing else. */
  lemma {:induction false} SetOutside(g: Graph, rank: map<nat, nat>, k: Uses, c: nat, w: Use)
    requires Wf(g, rank) && UsesOk(g, k) && LinkOk(g, c) && WriteUnchanged in w.shared
    ensures var v, n := SetEdge(g, rank, k, c, w), g.links[c].bs;
      v[c] == w && Outside(g, k[c := w], v, Below(g, rank, n, 0)) && Outside(g, k, v, Nodes(g, rank, n))
    decreases rank[g.links[c].bs], 1, 0
  {
    var n := g.links[c].bs;
    assert NodeOk(g, n);
    SetKidsOutside(g, rank, k[c := w], n, 0, Cumulative(g, k[c := w], n), SetEdge(g, rank, k, c, w));
    if n in Below(g, rank, n, 0) {
      BelowRank(g, rank, n, n);
    }
  }

  lemma {:induction false} SetKidsOutside(g: Graph, rank: map<nat, nat>, k: Uses, n: nat, i: nat, t: Use, v: Uses)
    requires Wf(g, rank) && UsesOk(g, k) && n in g.nodes && i <= |Kids(g.nodes[n])| && WriteUnchanged in t.shared
    requires LeadsTo(g, rank, k, n, i, t, v)
    ensures Outside(g, k, v, Below(g, rank, n, i))
    decreases rank[n], 0, |Kids(g.nodes[n])| - i
  {
    if i < |Kids(g.nodes[n])| {
      KidRank(g, rank, n, i);
      var c, w := Kid(g, n, i), KidUse(g, k, n, i, t);
      var k1 := SetEdge(g, rank, k, c, w);
      SetOutside(g, rank, k, c, w);
      SetKidsOutside(g, rank, k1, n, i + 1, t, v);
      OutsideJoins(g, k, k1, v, Nodes(g, rank, KidNode(g, n, i)), Below(g, rank, n, i + 1));
    }
  }

  lemma {:induction false} OutsideJoins(g: Graph, k: Uses, v: Uses, v': Uses, s: set<nat>, s': set<nat>)
    requires Outside(g, k, v, s) && Outside(g, v, v', s')
    ensures Outside(g, k, v', s + s')
  {
  }

  lemma {:induction false} TryInstalls(g: Graph, rank: map<nat, nat>, u: Uses, c: nat, w: Use)
    requires Wf(g, rank) && UsesOk(g, u) && LinkOk(g, c) && WriteUnchanged in w.shared &&
             CompatibleIn(g, u, g.nodes.Keys)
    requires Tree(g, rank, g.links[c].bs) && CheckUpdate(g, rank, u, g.links[c].bs, w, {c})
    ensures CompatibleIn(g, SetEdge(g, rank, u, c, w), g.nodes.Keys)
    ensures Installed(g, rank, u, SetEdge(g, rank, u, c, w), g.links[c].bs, w, {c})
  {
    var n := g.links[c].bs;
    NodesKnown(g, rank, n);
    CompatiblePart(g, u, g.nodes.Keys, Nodes(g, rank, n));
    SetInstalls(g, rank, u, u, c, w, {c});
    SetOutside(g, rank, u, c, w);
    OutsideCompatible(g, u, SetEdge(g, rank, u, c, w), Nodes(g, rank, n), g.nodes.Keys);
  }

  lemma {:induction false} TryAccepted(g: Graph, rank: map<nat, nat>, u: Uses, c: nat, w: Use)
    requires Wf(g, rank) && UsesOk(g, u) && LinkOk(g, c) && WriteUnchanged in w.shared
    requires CompatibleIn(g, u, g.nodes.Keys) && CheckUpdate(g, rank, u, g.links[c].bs, w, {c})
    ensures var v := SetEdge(g, rank, u, c, w);
      && (CompatibleIn(g, v, g.nodes.Keys) <==> ChangedFit(g, u, v))
      && (Tree(g, rank, g.links[c].bs) ==>
            CompatibleIn(g, v, g.nodes.Keys) && Installed(g, rank, u, v, g.links[c].bs, w, {c}))
  {
    AcceptedExact(g, rank, u, c, w);
    if Tree(g, rank, g.links[c].bs) {
      TryInstalls(g, rank, u, c, w);
    }
  }

  /** What was checked is what the set phase installs, if every node below is reached by one path. */
  lemma {:induction false} SetInstalls(g: Graph, rank: map<nat, nat>, u: Uses, k: Uses, c: nat, w: Use,
                                       ignore: set<nat>)
    requires Ready(g, rank, u, k, c, w, ignore) && UsesOk(g, k)
    ensures Done(g, rank, u, SetEdge(g, rank, k, c, w), c, w, ignore)
    decreases rank[g.links[c].bs], 2, 0
  {
    var n := g.links[c].bs;
    assert NodeOk(g, n) && n in Nodes(g, rank, n);
    AgreePart(g, u, k, Nodes(g, rank, n), {n});
    SameTotal(g, u, k, c, w, ignore);
    var k1, t := k[c := w], Total(g, u, n, w, ignore);
    forall i | 0 <= i < |Kids(g.nodes[n])|
      ensures KidReady(g, rank, u, k1, n, i, t, ignore)
    {
      EnterKid(g, rank, u, k, c, w, ignore, i);
    }
    SetKidsInstall(g, rank, u, k1, n, 0, t, ignore);
    SetOutside(g, rank, k, c, w);
    KidsDone(g, rank, u, k, SetEdge(g, rank, k, c, w), c, w, ignore);
  }

  lemma {:induction false} SetKidsInstall(g: Graph, rank: map<nat, nat>, u: Uses, k: Uses, n: nat, i: nat, t: Use,
                                          ignore: set<nat>)
    requires Wf(g, rank) && UsesOk(g, u) && UsesOk(g, k) && n in g.nodes && Tree(g, rank, n) &&
             WriteUnchanged in t.shared
    requires i <= |Kids(g.nodes[n])| && SetUpTo(g, rank, u, k, n, i, t, ignore)
    ensures SetUpTo(g, rank, u, SetKids(g, rank, k, n, i, t), n, |Kids(g.nodes[n])|, t, ignore)
    decreases rank[n], 1, |Kids(g.nodes[n])| - i
  {
    if i < |Kids(g.nodes[n])| {
      KidRank(g, rank, n, i);
      SetKidInstalls(g, rank, u, k, n, i, t, ignore);
      var v := SetEdge(g, rank, k, Kid(g, n, i), KidUse(g, k, n, i, t));
      SetNext(g, rank, u, k, v, n, i, t, ignore);
      SetKidsInstall(g, rank, u, v, n, i + 1, t, ignore);
    }
  }

  lemma {:induction false} SetKidInstalls(g: Graph, rank: map<nat, nat>, u: Uses, k: Uses, n: nat, i: nat, t: Use,
                                          ignore: set<nat>)
    requires Wf(g, rank) && UsesOk(g, u) && UsesOk(g, k) && n in g.nodes && WriteUnchanged in t.shared
    requires i < |Kids(g.nodes[n])| && KidReady(g, rank, u, k, n, i, t, ignore)
    ensures NodeOk(g, n) && LinkOk(g, Kid(g, n, i))
    ensures var v := SetEdge(g, rank, k, Kid(g, n, i), KidUse(g, k, n, i, t));
      KidDone(g, rank, u, v, n, i, t, ignore) && Outside(g, k, v, KidNodes(g, rank, n, i))
    decreases rank[n], 0, 0
  {
    KidRank(g, rank, n, i);
    ReadyUse(g, rank, u, k, n, i, t, ignore);
    var c, w := Kid(g, n, i), KidUse(g, k, n, i, t);
    SetInstalls(g, rank, u, k, c, w, ignore + {c});
    SetOutside(g, rank, k, c, w);
  }

  /** The first `i` children are done and the others are still to be. */
  ghost predicate SetUpTo(g: Graph, rank: map<nat, nat>, u: Uses, k: Uses, n: nat, i: nat, t: Use, ignore: set<nat>)
    requires Wf(g, rank) && UsesOk(g, u) && n in g.nodes && i <= |Kids(g.nodes[n])|
  {
    && (forall j :: 0 <= j < i ==> KidDone(g, rank, u, k, n, j, t, ignore))
    && (forall j :: i <= j < |Kids(g.nodes[n])| ==> KidReady(g, rank, u, k, n, j, t, ignore))
  }

  lemma {:induction false} SetNext(g: Graph, rank: map<nat, nat>, u: Uses, k: Uses, v: Uses, n: nat, i: nat, t: Use,
                                   ignore: set<nat>)
    requires Wf(g, rank) && UsesOk(g, u) && UsesOk(g, k) && UsesOk(g, v) && n in g.nodes && Tree(g, rank, n)
    requires i < |Kids(g.nodes[n])| && SetUpTo(g, rank, u, k, n, i, t, ignore)
    requires KidDone(g, rank, u, v, n, i, t, ignore) && Outside(g, k, v, KidNodes(g, rank, n, i))
    ensures SetUpTo(g, rank, u, v, n, i + 1, t, ignore)
  {
    forall j | 0 <= j < |Kids(g.nodes[n])| && j != i
      ensures j < i ==> KidDone(g, rank, u, v, n, j, t, ignore)
      ensures i < j ==> KidReady(g, rank, u, v, n, j, t, ignore)
    {
      OtherKid(g, rank, u, k, v, n, i, j, t, ignore);
    }
  }

  lemma {:induction false} OutsideCompatible(g: Graph, u: Uses, v: Uses, s: set<nat>, all: set<nat>)
    requires UsesOk(g, u) && UsesOk(g, v) && CompatibleIn(g, u, all) && CompatibleIn(g, v, s) && Outside(g, u, v, s)
    ensures CompatibleIn(g, v, all)
  {
    forall n | n in all
      ensures Compatible(g, v, n)
    {
      assert Compatible(g, u, n);
      if n !in s {
        assert forall e :: e in g.nodes[n].parents ==> v[e] == u[e];
      }
    }
  }

  // ---------------------------------------------------------------------------------------------
  // A new edge
  // ---------------------------------------------------------------------------------------------

  /** The graph with a new edge `c` to node `n`. */
  function Attached(g: Graph, n: nat, c: nat, role: Role): Graph
    requires n in g.nodes
  {
    Graph(g.nodes[n := g.nodes[n].(parents := [c] + g.nodes[n].parents)], g.links[c := Link(n, role)])
  }

  lemma {:induction false} AttachedWf(g: Graph, rank: map<nat, nat>, n: nat, c: nat, role: Role)
    requires Wf(g, rank) && n in g.nodes && c !in g.links
    ensures Wf(Attached(g, n, c, role), rank) && LinkOk(Attached(g, n, c, role), c)
  {
    var h := Attached(g, n, c, role);
    forall m | m in h.nodes
      ensures NodeOk(h, m)
    {
      assert NodeOk(g, m);
    }
    forall e | e in h.links
      ensures LinkOk(h, e)
    {
      if e == c {
        assert h.nodes[n].parents[0] == c;
      } else {
        assert LinkOk(g, e);
      }
    }
    forall m, i | m in h.nodes && 0 <= i < |h.nodes[m].children|
      ensures RankOk(h, rank, m, i)
    {
      assert RankOk(g, rank, m, i) && LinkOk(h, h.nodes[m].children[i]);
    }
  }

  /** Ignoring the new edge, the parents accumulate as before. */
  lemma {:induction false} CumWithout(u: Uses, v: Uses, list: seq<nat>, c: nat, ignore: set<nat>)
    requires Known(u, list) && c in v && Known(v, list) && c !in list
    requires forall i :: 0 <= i < |list| ==> v[list[i]] == u[list[i]]
    ensures CumPerm(v, list, ignore + {c}) == CumPerm(u, list, ignore)
    ensures CumShared(v, list, ignore + {c}) == CumShared(u, list, ignore)
    ensures CumPerm(v, [c] + list, ignore + {c}) == CumPerm(u, list, ignore)
    ensures CumShared(v, [c] + list, ignore + {c}) == CumShared(u, list, ignore)
  {
    if list == [] {
      assert [c] + list == [c] && [c][..0] == [];
    } else {
      var front := list[..|list| - 1];
      CumWithout(u, v, front, c, ignore);
      assert ([c] + list)[..|list|] == [c] + front;
    }
  }

  /** A new edge to a node changes nothing about what lies below nodes. */
  lemma {:induction false} AttachedNodes(g: Graph, rank: map<nat, nat>, n: nat, c: nat, role: Role, m: nat)
    requires Wf(g, rank) && n in g.nodes && c !in g.links && Wf(Attached(g, n, c, role), rank) && m in g.nodes
    ensures Nodes(Attached(g, n, c, role), rank, m) == Nodes(g, rank, m)
    ensures Below(Attached(g, n, c, role), rank, m, 0) == Below(g, rank, m, 0)
    decreases rank[m], 1, 0
  {
    AttachedBelow(g, rank, n, c, role, m, 0);
  }

  lemma {:induction false} AttachedBelow(g: Graph, rank: map<nat, nat>, n: nat, c: nat, role: Role, m: nat, i: nat)
    requires Wf(g, rank) && n in g.nodes && c !in g.links && Wf(Attached(g, n, c, role), rank) && m in g.nodes
    requires i <= |Kids(g.nodes[m])|
    ensures Below(Attached(g, n, c, role), rank, m, i) == Below(g, rank, m, i)
    decreases rank[m], 0, |Kids(g.nodes[m])| - i
  {
    if i < |Kids(g.nodes[m])| {
      var h := Attached(g, n, c, role);
      KidRank(g, rank, m, i);
      KidRank(h, rank, m, i);
      assert KidNode(h, m, i) == KidNode(g, m, i);
      AttachedNodes(g, rank, n, c, role, KidNode(g, m, i));
      AttachedBelow(g, rank, n, c, role, m, i + 1);
    }
  }

  lemma {:induction false} AttachedTree(g: Graph, rank: map<nat, nat>, n: nat, c: nat, role: Role, m: nat)
    requires Wf(g, rank) && n in g.nodes && c !in g.links && Wf(Attached(g, n, c, role), rank) && m in g.nodes &&
             Tree(g, rank, m)
    ensures Tree(Attached(g, n, c, role), rank, m)
    decreases rank[m]
  {
    var h := Attached(g, n, c, role);
    AttachedNodes(g, rank, n, c, role, m);
    forall i | 0 <= i < |Kids(h.nodes[m])|
      ensures KidNodes(h, rank, m, i) == KidNodes(g, rank, m, i)
      ensures (KidRank(h, rank, m, i); Tree(h, rank, KidNode(h, m, i)))
    {
      KidRank(g, rank, m, i);
      KidRank(h, rank, m, i);
      AttachedNodes(g, rank, n, c, role, KidNode(g, m, i));
      AttachedTree(g, rank, n, c, role, KidNode(g, m, i));
    }
  }

  /** A check that passed without the new edge passes with it, if it is ignored. */
  lemma {:induction false} AttachedCheck(g: Graph, rank: map<nat, nat>, u: Uses, n: nat, c: nat, role: Role, new_: Use,
                                         m: nat, w: Use, ignore: set<nat>)
    requires Wf(g, rank) && UsesOk(g, u) && n in g.nodes && c !in g.links && Wf(Attached(g, n, c, role), rank)
    requires UsesOk(Attached(g, n, c, role), u[c := new_]) && m in g.nodes && CheckUpdate(g, rank, u, m, w, ignore)
    ensures CheckUpdate(Attached(g, n, c, role), rank, u[c := new_], m, w, ignore + {c})
    decreases rank[m]
  {
    var h, v := Attached(g, n, c, role), u[c := new_];
    assert NodeOk(g, m) && NodeOk(h, m);
    var ps := g.nodes[m].parents;
    CumWithout(u, v, ps, c, ignore);
    var t := Total(g, u, m, w, ignore);
    assert Total(h, v, m, w, ignore + {c}) == t;
    assert CheckPerm(g, rank, u, m, t, ignore);
    forall i | 0 <= i < |Kids(h.nodes[m])|
      ensures CheckKid(h, rank, v, m, i, t, ignore + {c})
    {
      KidRank(g, rank, m, i);
      KidRank(h, rank, m, i);
      assert CheckKid(g, rank, u, m, i, t, ignore);
      AttachedCheck(g, rank, u, n, c, role, new_, KidNode(g, m, i), KidUse(g, u, m, i, t), ignore + {Kid(g, m, i)});
      assert ignore + {Kid(g, m, i)} + {c} == ignore + {c} + {Kid(h, m, i)};
    }
  }

  /** With a new compatible user, the users of every node are still compatible. */
  lemma {:induction false} AttachedCompatible(g: Graph, u: Uses, n: nat, c: nat, role: Role, w: Use, m: nat)
    requires UsesOk(g, u) && n in g.nodes && c !in g.links && UsesOk(Attached(g, n, c, role), u[c := w]) && m in g.nodes
    requires NodeOk(g, n) && NodeOk(Attached(g, n, c, role), m) && Compatible(g, u, m) &&
             FitsAll(u, g.nodes[n].parents, {}, w)
    ensures Compatible(Attached(g, n, c, role), u[c := w], m)
  {
  }

  /** An accepted edge, once it is there, was checked as if it had been there before, and has compatible users. */
  lemma {:induction false} AttachChecked(g: Graph, rank: map<nat, nat>, u: Uses, n: nat, c: nat, role: Role, w: Use)
    requires Wf(g, rank) && UsesOk(g, u) && n in g.nodes && c !in g.links && WriteUnchanged in w.shared
    requires CheckUpdate(g, rank, u, n, w, {}) && CompatibleIn(g, u, g.nodes.Keys)
    requires Wf(Attached(g, n, c, role), rank) && LinkOk(Attached(g, n, c, role), c)
    ensures UsesOk(Attached(g, n, c, role), u[c := w])
    ensures CheckUpdate(Attached(g, n, c, role), rank, u[c := w], n, w, {c})
    ensures CompatibleIn(Attached(g, n, c, role), u[c := w], g.nodes.Keys)
  {
    var h, v := Attached(g, n, c, role), u[c := w];
    AttachedCheck(g, rank, u, n, c, role, w, n, w, {});
    assert {} + {c} == {c};
    assert NodeOk(g, n);
    forall m | m in g.nodes
      ensures Compatible(h, v, m)
    {
      assert NodeOk(h, m) && Compatible(g, u, m);
      AttachedCompatible(g, u, n, c, role, w, m);
    }
  }

  lemma {:induction false} AttachExact(g: Graph, rank: map<nat, nat>, u: Uses, n: nat, c: nat, role: Role, w: Use)
    requires Wf(g, rank) && UsesOk(g, u) && n in g.nodes && c !in g.links && WriteUnchanged in w.shared
    requires CheckUpdate(g, rank, u, n, w, {}) && CompatibleIn(g, u, g.nodes.Keys)
    requires Wf(Attached(g, n, c, role), rank) && LinkOk(Attached(g, n, c, role), c)
    ensures var h, v := Attached(g, n, c, role), u[c := w];
      && UsesOk(h, v)
      && (CompatibleIn(h, SetEdge(h, rank, v, c, w), h.nodes.Keys) <==> ChangedFit(h, v, SetEdge(h, rank, v, c, w)))
  {
    AttachChecked(g, rank, u, n, c, role, w);
    assert Attached(g, n, c, role).nodes.Keys == g.nodes.Keys;
    AcceptedExact(Attached(g, n, c, role), rank, u[c := w], c, w);
  }

  lemma {:induction false} AttachReady(g: Graph, rank: map<nat, nat>, u: Uses, n: nat, c: nat, role: Role, w: Use)
    requires Wf(g, rank) && UsesOk(g, u) && n in g.nodes && c !in g.links && WriteUnchanged in w.shared
    requires Tree(g, rank, n) && CheckUpdate(g, rank, u, n, w, {}) && CompatibleIn(g, u, g.nodes.Keys)
    requires Wf(Attached(g, n, c, role), rank) && LinkOk(Attached(g, n, c, role), c)
    ensures UsesOk(Attached(g, n, c, role), u[c := w])
    ensures Ready(Attached(g, n, c, role), rank, u[c := w], u[c := w], c, w, {c})
    ensures CompatibleIn(Attached(g, n, c, role), u[c := w], g.nodes.Keys)
  {
    var h, v := Attached(g, n, c, role), u[c := w];
    AttachedTree(g, rank, n, c, role, n);
    AttachChecked(g, rank, u, n, c, role, w);
    NodesKnown(h, rank, n);
    CompatiblePart(h, v, g.nodes.Keys, Nodes(h, rank, n));
  }

  lemma {:induction false} AttachInstalls(g: Graph, rank: map<nat, nat>, u: Uses, n: nat, c: nat, role: Role, w: Use)
    requires Wf(g, rank) && UsesOk(g, u) && n in g.nodes && c !in g.links && WriteUnchanged in w.shared
    requires Tree(g, rank, n) && CheckUpdate(g, rank, u, n, w, {}) && CompatibleIn(g, u, g.nodes.Keys)
    requires Wf(Attached(g, n, c, role), rank) && LinkOk(Attached(g, n, c, role), c)
    ensures var h, v := Attached(g, n, c, role), u[c := w];
      && UsesOk(h, v) && CompatibleIn(h, SetEdge(h, rank, v, c, w), h.nodes.Keys)
      && Installed(h, rank, v, SetEdge(h, rank, v, c, w), n, w, {c})
  {
    var h, v := Attached(g, n, c, role), u[c := w];
    AttachReady(g, rank, u, n, c, role, w);
    SetInstalls(h, rank, v, v, c, w, {c});
    SetOutside(h, rank, v, c, w);
    OutsideCompatible(h, v, SetEdge(h, rank, v, c, w), Nodes(h, rank, n), h.nodes.Keys);
  }

  /** The set phase computes from the current use of the child what the check computed. */
  lemma {:induction false} ReadyUse(g: Graph, rank: map<nat, nat>, u: Uses, k: Uses, n: nat, i: nat, t: Use,
                                    ignore: set<nat>)
    requires Wf(g, rank) && UsesOk(g, u) && UsesOk(g, k) && n in g.nodes && i < |Kids(g.nodes[n])| && NodeOk(g, n)
    requires KidReady(g, rank, u, k, n, i, t, ignore)
    ensures KidUse(g, k, n, i, t) == KidUse(g, u, n, i, t)
  {
    KidRank(g, rank, n, i);
    assert KidNode(g, n, i) in Nodes(g, rank, KidNode(g, n, i));
  }

  // ---------------------------------------------------------------------------------------------
  // Which users can exclude each other after an accepted update
  // ---------------------------------------------------------------------------------------------

  /** Something that a use asks of the other users of the node: a permission it takes or does not share. */
  datatype Mark = Taken(perm: Perm) | Denied(perm: Perm)

  predicate Has(w: Use, b: Mark) {
    if b.Taken? then b.perm in w.perm else b.perm !in w.shared
  }

  /** What parents ask together, one of them asks. */
  lemma {:induction false} CumFrom(u: Uses, list: seq<nat>, b: Mark) returns (f: nat)
    requires Known(u, list) && Has(Use(CumPerm(u, list, {}), CumShared(u, list, {})), b)
    ensures f in list && Has(u[f], b)
  {
    AnyPerm(b.perm);
    if Has(u[list[|list| - 1]], b) {
      f := list[|list| - 1];
    } else {
      f := CumFrom(u, list[..|list| - 1], b);
    }
  }

  lemma {:induction false} CumTo(u: Uses, list: seq<nat>, ignore: set<nat>, f: nat, b: Mark)
    requires Known(u, list) && f in list && f !in ignore && Has(u[f], b)
    ensures Has(Use(CumPerm(u, list, ignore), CumShared(u, list, ignore)), b)
  {
    if f != list[|list| - 1] {
      CumTo(u, list[..|list| - 1], ignore, f, b);
    }
  }

  /** The mark of the parents that a mark on a child comes from, if it comes from the parents. */
  function Source(x: Node, role: Role, b: Mark): Mark {
    if !x.driver.Filter? && role.Backing? && b == Denied(Resize) then Denied(Write) else b
  }

  /** A driver that is asked for more asks for more. */
  lemma {:induction false} ChildMarks(x: Node, role: Role, e: Use, t: Use, e': Use, t': Use, b: Mark)
    requires Has(ChildUse(x, role, e, t.perm, t.shared), b)
    requires Has(t, Source(x, role, b)) ==> Has(t', Source(x, role, b))
    requires Has(e, b) ==> Has(e', b)
    ensures Has(ChildUse(x, role, e', t'.perm, t'.shared), b)
  {
    AnyPerm(b.perm);
  }

  /** A use that the check phase has examined for an edge: it ignores no other edge into the same node. */
  ghost predicate Vetted(g: Graph, rank: map<nat, nat>, u: Uses, e: nat, w: Use, ignore: set<nat>)
    requires Wf(g, rank) && UsesOk(g, u)
  {
    && LinkOk(g, e) && e in ignore && CheckUpdate(g, rank, u, g.links[e].bs, w, ignore)
    && forall f :: f in ignore && f != e && LinkOk(g, f) ==> rank[g.links[e].bs] < rank[g.links[f].bs]
  }

  ghost predicate Marked(g: Graph, rank: map<nat, nat>, u: Uses, e: nat, b: Mark)
    requires Wf(g, rank) && UsesOk(g, u)
  {
    exists w, ignore :: Vetted(g, rank, u, e, w, ignore) && Has(w, b)
  }

  /** All that a use of an edge asks for has been examined, in one or several uses. */
  ghost predicate Covered(g: Graph, rank: map<nat, nat>, u: Uses, e: nat, w: Use)
    requires Wf(g, rank) && UsesOk(g, u)
  {
    forall b :: Has(w, b) ==> Marked(g, rank, u, e, b)
  }

  ghost predicate Within(g: Graph, rank: map<nat, nat>, u: Uses, k: Uses)
    requires Wf(g, rank) && UsesOk(g, u) && UsesOk(g, k)
  {
    forall e :: e in k ==> e in u && (k[e] == u[e] || Covered(g, rank, u, e, k[e]))
  }

  /** What the check phase examines on a child of an edge's node. */
  lemma {:induction false} VettedKid(g: Graph, rank: map<nat, nat>, u: Uses, e: nat, w: Use, ignore: set<nat>, i: nat)
    requires Wf(g, rank) && UsesOk(g, u) && Vetted(g, rank, u, e, w, ignore)
    requires NodeOk(g, g.links[e].bs) && i < |Kids(g.nodes[g.links[e].bs])|
    ensures var n := g.links[e].bs;
      Vetted(g, rank, u, Kid(g, n, i), KidUse(g, u, n, i, Total(g, u, n, w, ignore)), ignore + {Kid(g, n, i)})
  {
    var n := g.links[e].bs;
    KidRank(g, rank, n, i);
    assert LinkOk(g, Kid(g, n, i)) && CheckPerm(g, rank, u, n, Total(g, u, n, w, ignore), ignore);
    assert CheckKid(g, rank, u, n, i, Total(g, u, n, w, ignore), ignore);
  }

  /** What the parents of a node ask together has been examined as the total of some parent's new use. */
  ghost predicate Traced(g: Graph, rank: map<nat, nat>, u: Uses, n: nat, t: Use)
    requires Wf(g, rank) && UsesOk(g, u) && NodeOk(g, n)
  {
    forall b :: Has(t, b) ==> TracedMark(g, rank, u, n, b)
  }

  ghost predicate TracedMark(g: Graph, rank: map<nat, nat>, u: Uses, n: nat, b: Mark)
    requires Wf(g, rank) && UsesOk(g, u) && NodeOk(g, n)
  {
    exists f, w, ignore :: Vetted(g, rank, u, f, w, ignore) && g.links[f].bs == n && Has(Total(g, u, n, w, ignore), b)
  }

  lemma {:induction false} TotalTraced(g: Graph, rank: map<nat, nat>, u: Uses, k: Uses, h: nat, w: Use,
                                       ignore: set<nat>)
    requires Wf(g, rank) && UsesOk(g, u) && UsesOk(g, k) && Within(g, rank, u, k) && Vetted(g, rank, u, h, w, ignore)
    requires NodeOk(g, g.links[h].bs) && h in k && Covered(g, rank, u, h, k[h])
    ensures Traced(g, rank, u, g.links[h].bs, Cumulative(g, k, g.links[h].bs))
  {
    var n := g.links[h].bs;
    forall b | Has(Cumulative(g, k, n), b)
      ensures TracedMark(g, rank, u, n, b)
    {
      var f := CumFrom(k, g.nodes[n].parents, b);
      ParentTraced(g, rank, u, k, h, w, ignore, f, b);
    }
  }

  lemma {:induction false} ParentTraced(g: Graph, rank: map<nat, nat>, u: Uses, k: Uses, h: nat, w: Use,
                                        ignore: set<nat>, f: nat, b: Mark)
    requires Wf(g, rank) && UsesOk(g, u) && UsesOk(g, k) && Within(g, rank, u, k) && Vetted(g, rank, u, h, w, ignore)
    requires NodeOk(g, g.links[h].bs) && h in k && Covered(g, rank, u, h, k[h])
    requires f in g.nodes[g.links[h].bs].parents && f in k && Has(k[f], b)
    ensures TracedMark(g, rank, u, g.links[h].bs, b)
  {
    var n := g.links[h].bs;
    if Covered(g, rank, u, f, k[f]) {
      var w1, ignore1 :| Vetted(g, rank, u, f, w1, ignore1) && Has(w1, b);
      assert Has(Total(g, u, n, w1, ignore1), b);
    } else {
      assert LinkOk(g, f);
      CumTo(u, g.nodes[n].parents, ignore, f, b);
      assert Has(Total(g, u, n, w, ignore), b);
    }
  }

  /** So what the set phase asks for on a child has been examined. */
  lemma {:induction false} KidCovered(g: Graph, rank: map<nat, nat>, u: Uses, k: Uses, h: nat, w: Use,
                                      ignore: set<nat>, i: nat, t: Use)
    requires Wf(g, rank) && UsesOk(g, u) && UsesOk(g, k) && Within(g, rank, u, k) && Vetted(g, rank, u, h, w, ignore)
    requires NodeOk(g, g.links[h].bs) && Traced(g, rank, u, g.links[h].bs, t)
    requires i < |Kids(g.nodes[g.links[h].bs])|
    ensures var n := g.links[h].bs; Covered(g, rank, u, Kid(g, n, i), KidUse(g, k, n, i, t))
  {
    var n := g.links[h].bs;
    forall b | Has(KidUse(g, k, n, i, t), b)
      ensures Marked(g, rank, u, Kid(g, n, i), b)
    {
      KidMarked(g, rank, u, k, h, w, ignore, i, t, b);
    }
  }

  lemma {:induction false} KidMarked(g: Graph, rank: map<nat, nat>, u: Uses, k: Uses, h: nat, w: Use,
                                     ignore: set<nat>, i: nat, t: Use, b: Mark)
    requires Wf(g, rank) && UsesOk(g, u) && UsesOk(g, k) && Within(g, rank, u, k) && Vetted(g, rank, u, h, w, ignore)
    requires NodeOk(g, g.links[h].bs) && Traced(g, rank, u, g.links[h].bs, t)
    requires i < |Kids(g.nodes[g.links[h].bs])| && Has(KidUse(g, k, g.links[h].bs, i, t), b)
    ensures Marked(g, rank, u, Kid(g, g.links[h].bs, i), b)
  {
    var n := g.links[h].bs;
    var c, source := Kid(g, n, i), Source(g.nodes[n], g.links[Kid(g, n, i)].role, b);
    if k[c] == u[c] || !Has(k[c], b) {
      var f, w1, ignore1 := h, w, ignore;
      if Has(t, source) {
        assert TracedMark(g, rank, u, n, source);
        f, w1, ignore1 :| Vetted(g, rank, u, f, w1, ignore1) && g.links[f].bs == n &&
                          Has(Total(g, u, n, w1, ignore1), source);
      }
      KidFrom(g, rank, u, k, f, w1, ignore1, i, t, b);
    }
  }

  lemma {:induction false} KidFrom(g: Graph, rank: map<nat, nat>, u: Uses, k: Uses, f: nat, w: Use, ignore: set<nat>,
                                   i: nat, t: Use, b: Mark)
    requires Wf(g, rank) && UsesOk(g, u) && UsesOk(g, k) && Vetted(g, rank, u, f, w, ignore)
    requires NodeOk(g, g.links[f].bs) && i < |Kids(g.nodes[g.links[f].bs])|
    requires var n := g.links[f].bs;
      var c, source := Kid(g, n, i), Source(g.nodes[n], g.links[Kid(g, n, i)].role, b);
      && Has(KidUse(g, k, n, i, t), b) && (Has(t, source) ==> Has(Total(g, u, n, w, ignore), source))
      && (Has(k[c], b) ==> Has(u[c], b))
    ensures Marked(g, rank, u, Kid(g, g.links[f].bs, i), b)
  {
    var n := g.links[f].bs;
    var c, t1 := Kid(g, n, i), Total(g, u, n, w, ignore);
    ChildMarks(g.nodes[n], g.links[c].role, k[c], t, u[c], t1, b);
    VettedKid(g, rank, u, f, w, ignore, i);
    assert Has(KidUse(g, u, n, i, t1), b);
  }

  lemma {:induction false} SetWithin(g: Graph, rank: map<nat, nat>, u: Uses, k: Uses, c: nat, w: Use, w0: Use,
                                     ignore: set<nat>)
    requires Wf(g, rank) && UsesOk(g, u) && UsesOk(g, k) && Within(g, rank, u, k) && WriteUnchanged in w.shared
    requires Vetted(g, rank, u, c, w0, ignore) && Covered(g, rank, u, c, w)
    ensures Within(g, rank, u, SetEdge(g, rank, k, c, w))
    decreases rank[g.links[c].bs], 1, 0
  {
    var n, k1 := g.links[c].bs, k[c := w];
    assert NodeOk(g, n);
    TotalTraced(g, rank, u, k1, c, w0, ignore);
    SetKidsWithin(g, rank, u, k1, c, 0, Cumulative(g, k1, n), w0, ignore, SetEdge(g, rank, k, c, w));
  }

  lemma {:induction false} SetKidsWithin(g: Graph, rank: map<nat, nat>, u: Uses, k: Uses, h: nat, i: nat, t: Use,
                                         w0: Use, ignore: set<nat>, v: Uses)
    requires Wf(g, rank) && UsesOk(g, u) && UsesOk(g, k) && Within(g, rank, u, k) && WriteUnchanged in t.shared
    requires Vetted(g, rank, u, h, w0, ignore) && NodeOk(g, g.links[h].bs) && Traced(g, rank, u, g.links[h].bs, t)
    requires i <= |Kids(g.nodes[g.links[h].bs])| && LeadsTo(g, rank, k, g.links[h].bs, i, t, v) && UsesOk(g, v)
    ensures Within(g, rank, u, v)
    decreases rank[g.links[h].bs], 0, |Kids(g.nodes[g.links[h].bs])| - i
  {
    var n := g.links[h].bs;
    if i == |Kids(g.nodes[n])| {
      AllSet(g, rank, k, n, t, v);
    } else {
      KidRank(g, rank, n, i);
      SetKidWithin(g, rank, u, k, h, i, t, w0, ignore);
      SetKidsWithin(g, rank, u, SetEdge(g, rank, k, Kid(g, n, i), KidUse(g, k, n, i, t)), h, i + 1, t, w0, ignore, v);
    }
  }

  lemma {:induction false} SetKidWithin(g: Graph, rank: map<nat, nat>, u: Uses, k: Uses, h: nat, i: nat, t: Use,
                                        w0: Use, ignore: set<nat>)
    requires Wf(g, rank) && UsesOk(g, u) && UsesOk(g, k) && Within(g, rank, u, k) && WriteUnchanged in t.shared
    requires Vetted(g, rank, u, h, w0, ignore) && NodeOk(g, g.links[h].bs) && Traced(g, rank, u, g.links[h].bs, t)
    requires i < |Kids(g.nodes[g.links[h].bs])|
    ensures LinkOk(g, Kid(g, g.links[h].bs, i))
    ensures var n := g.links[h].bs; Within(g, rank, u, SetEdge(g, rank, k, Kid(g, n, i), KidUse(g, k, n, i, t)))
    decreases rank[g.links[h].bs], 0, 0
  {
    var n := g.links[h].bs;
    KidRank(g, rank, n, i);
    var c := Kid(g, n, i);
    KidCovered(g, rank, u, k, h, w0, ignore, i, t);
    VettedKid(g, rank, u, h, w0, ignore, i);
    SetWithin(g, rank, u, k, c, KidUse(g, k, n, i, t), KidUse(g, u, n, i, Total(g, u, n, w0, ignore)), ignore + {c});
  }

  /** An edge whose new use was examined fits every other user of the node that has kept its use. */
  lemma {:induction false} CoveredFits(g: Graph, rank: map<nat, nat>, u: Uses, e: nat, w: Use, f: nat)
    requires Wf(g, rank) && UsesOk(g, u) && LinkOk(g, e) && LinkOk(g, f) && e != f && g.links[e].bs == g.links[f].bs
    requires Covered(g, rank, u, e, w)
    ensures w.perm <= u[f].shared && u[f].perm <= w.shared
  {
    forall p
      ensures p in w.perm ==> p in u[f].shared
      ensures p !in w.shared ==> p !in u[f].perm
    {
      if p in w.perm {
        assert Has(w, Taken(p));
        MarkedFits(g, rank, u, e, Taken(p), f);
      }
      if p !in w.shared {
        assert Has(w, Denied(p));
        MarkedFits(g, rank, u, e, Denied(p), f);
      }
    }
  }

  lemma {:induction false} MarkedFits(g: Graph, rank: map<nat, nat>, u: Uses, e: nat, b: Mark, f: nat)
    requires Wf(g, rank) && UsesOk(g, u) && LinkOk(g, e) && LinkOk(g, f) && e != f && g.links[e].bs == g.links[f].bs
    requires Marked(g, rank, u, e, b)
    ensures if b.Taken? then b.perm in u[f].shared else b.perm !in u[f].perm
  {
    var w, ignore :| Vetted(g, rank, u, e, w, ignore) && Has(w, b);
    assert NodeOk(g, g.links[e].bs) && f !in ignore;
  }

  /** No two edges into one node that the update has both changed exclude each other. */
  ghost predicate ChangedFit(g: Graph, u: Uses, v: Uses)
    requires UsesOk(g, u) && UsesOk(g, v)
  {
    forall e, f :: LinkOk(g, e) && LinkOk(g, f) && e != f && g.links[e].bs == g.links[f].bs ==>
      (v[e] != u[e] && v[f] != u[f] ==> v[e].perm <= v[f].shared)
  }

  /** After an accepted update users can exclude each other only if it has changed both. */
  lemma {:induction false} AcceptedExact(g: Graph, rank: map<nat, nat>, u: Uses, c: nat, w: Use)
    requires Wf(g, rank) && UsesOk(g, u) && LinkOk(g, c) && WriteUnchanged in w.shared
    requires CompatibleIn(g, u, g.nodes.Keys) && CheckUpdate(g, rank, u, g.links[c].bs, w, {c})
    ensures CompatibleIn(g, SetEdge(g, rank, u, c, w), g.nodes.Keys) <==> ChangedFit(g, u, SetEdge(g, rank, u, c, w))
  {
    var v := SetEdge(g, rank, u, c, w);
    assert Vetted(g, rank, u, c, w, {c});
    SetWithin(g, rank, u, u, c, w, w, {c});
    if ChangedFit(g, u, v) {
      forall n | n in g.nodes
        ensures Compatible(g, v, n)
      {
        WithinCompatible(g, rank, u, v, n);
      }
    }
    if CompatibleIn(g, v, g.nodes.Keys) {
      forall e, f | LinkOk(g, e) && LinkOk(g, f) && e != f && g.links[e].bs == g.links[f].bs
        ensures v[e].perm <= v[f].shared
      {
        assert Compatible(g, v, g.links[e].bs);
      }
    }
  }

  lemma {:induction false} WithinCompatible(g: Graph, rank: map<nat, nat>, u: Uses, v: Uses, n: nat)
    requires Wf(g, rank) && UsesOk(g, u) && UsesOk(g, v) && Within(g, rank, u, v) && ChangedFit(g, u, v)
    requires n in g.nodes && Compatible(g, u, n)
    ensures Compatible(g, v, n)
  {
    assert NodeOk(g, n);
    forall e, f | e in g.nodes[n].parents && f in g.nodes[n].parents && e != f
      ensures v[e].perm <= v[f].shared
    {
      assert LinkOk(g, e) && LinkOk(g, f);
      if v[f] == u[f] {
        if v[e] != u[e] {
          CoveredFits(g, rank, u, e, v[e], f);
        }
      } else if v[e] == u[e] {
        CoveredFits(g, rank, u, f, v[f], e);
      }
    }
  }

  // ---------------------------------------------------------------------------------------------
  // A node that is reached by two paths
  // ---------------------------------------------------------------------------------------------

  /** A filter over two filters over one leaf, with nobody taking anything. */
  function Diamond(): Graph {
    Graph(map[0 := Node(Filter, false, [10, 11], [20]), 1 := Node(Filter, false, [12], [10]),
              2 := Node(Filter, false, [13], [11]), 3 := Node(Leaf, false, [], [12, 13])],
          map[20 := Link(0, Root), 10 := Link(1, File), 11 := Link(2, File), 12 := Link(3, File), 13 := Link(3, File)])
  }

  const DIAMOND_RANK: map<nat, nat> := map[0 := 2, 1 := 1, 2 := 1, 3 := 0]
  const IDLE: Use := Use({}, ALL)
  const WRITER: Use := Use({Write}, {WriteUnchanged, GraphMod})

  function Idle(): Uses {
    map[20 := IDLE, 10 := IDLE, 11 := IDLE, 12 := IDLE, 13 := IDLE]
  }

  lemma {:induction false} DiamondNodes()
    ensures forall n :: n in Diamond().nodes ==> NodeOk(Diamond(), n)
  {
    var g := Diamond();
    assert NodeOk(g, 0);
    assert NodeOk(g, 1) && NodeOk(g, 2);
    assert NodeOk(g, 3);
  }

  lemma {:induction false} DiamondLinks()
    ensures forall e :: e in Diamond().links ==> LinkOk(Diamond(), e)
  {
    var g := Diamond();
    assert LinkOk(g, 20) && LinkOk(g, 10) && LinkOk(g, 11);
    assert g.nodes[3].parents[0] == 12 && g.nodes[3].parents[1] == 13;
    assert LinkOk(g, 12) && LinkOk(g, 13);
  }

  lemma {:induction false} DiamondRanks()
    ensures forall n, i {:trigger RankOk(Diamond(), DIAMOND_RANK, n, i)} ::
              n in Diamond().nodes && 0 <= i < |Diamond().nodes[n].children| ==> RankOk(Diamond(), DIAMOND_RANK, n, i)
  {
    var g, r := Diamond(), DIAMOND_RANK;
    DiamondLinks();
    assert RankOk(g, r, 0, 0) && RankOk(g, r, 0, 1) && RankOk(g, r, 1, 0) && RankOk(g, r, 2, 0);
  }

  lemma {:induction false} DiamondOk()
    ensures Wf(Diamond(), DIAMOND_RANK) && UsesOk(Diamond(), Idle()) && LinkOk(Diamond(), 20)
  {
    DiamondNodes();
    DiamondLinks();
    DiamondRanks();
  }

  lemma {:induction false} DiamondCompatible()
    ensures UsesOk(Diamond(), Idle()) && CompatibleIn(Diamond(), Idle(), Diamond().nodes.Keys)
  {
    DiamondNodes();
    forall n | n in Diamond().nodes
      ensures Compatible(Diamond(), Idle(), n)
    {
      forall e, f | e in Diamond().nodes[n].parents && f in Diamond().nodes[n].parents && e != f
        ensures Idle()[e].perm <= Idle()[f].shared
      {
      }
    }
  }

  /** A filter passes on what a writer takes and shares. */
  lemma {:induction false} PassesOn(x: Node, role: Role)
    requires x.driver.Filter?
    ensures ChildUse(x, role, IDLE, WRITER.perm, WRITER.shared) == WRITER
  {
  }

  /** With one parent, the node's totals are that parent's. */
  lemma {:induction false} OneParent(g: Graph, u: Uses, n: nat, c: nat, w: Use, ignore: set<nat>)
    requires NodeOk(g, n) && UsesOk(g, u) && g.nodes[n].parents == [c] && c in ignore
    ensures FitsAll(u, g.nodes[n].parents, ignore, w) && Total(g, u, n, w, ignore) == w
    ensures u[c] == w ==> Cumulative(g, u, n) == w
  {
    assert g.nodes[n].parents[0] == c;
    CumOne(u, c, ignore);
    CumOne(u, c, {});
    AllPerms(w.shared);
    assert w.shared * ALL == w.shared;
  }

  lemma {:induction false} CumOne(u: Uses, c: nat, ignore: set<nat>)
    requires c in u
    ensures CumPerm(u, [c], ignore) == if c in ignore then {} else u[c].perm
    ensures CumShared(u, [c], ignore) == if c in ignore then ALL else u[c].shared
  {
    var list := [c];
    assert list[..|list| - 1] == [];
    assert CumShared(u, list[..|list| - 1], ignore) == ALL;
    AllPerms(u[c].shared);
    assert ALL * u[c].shared == u[c].shared;
  }

  lemma {:induction false} LeafChecks(ignore: set<nat>)
    requires Wf(Diamond(), DIAMOND_RANK) && UsesOk(Diamond(), Idle())
    ensures CheckUpdate(Diamond(), DIAMOND_RANK, Idle(), 3, WRITER, ignore)
  {
    AllPerms(WRITER.perm);
    assert FitsAll(Idle(), [12, 13], ignore, WRITER);
  }

  lemma {:induction false} MiddleChecks(n: nat, ignore: set<nat>)
    requires Wf(Diamond(), DIAMOND_RANK) && UsesOk(Diamond(), Idle())
    requires (n == 1 && 10 in ignore) || (n == 2 && 11 in ignore)
    ensures CheckUpdate(Diamond(), DIAMOND_RANK, Idle(), n, WRITER, ignore)
  {
    var g := Diamond();
    assert NodeOk(g, n);
    OneParent(g, Idle(), n, if n == 1 then 10 else 11, WRITER, ignore);
    PassesOn(g.nodes[n], File);
    LeafChecks(ignore + {Kid(g, n, 0)});
    assert CheckKid(g, DIAMOND_RANK, Idle(), n, 0, WRITER, ignore);
  }

  lemma {:induction false} TopChecks()
    requires Wf(Diamond(), DIAMOND_RANK) && UsesOk(Diamond(), Idle())
    ensures CheckUpdate(Diamond(), DIAMOND_RANK, Idle(), 0, WRITER, {20})
  {
    var g := Diamond();
    assert NodeOk(g, 0);
    OneParent(g, Idle(), 0, 20, WRITER, {20});
    PassesOn(g.nodes[0], File);
    MiddleChecks(1, {20} + {10});
    MiddleChecks(2, {20} + {11});
    assert CheckKid(g, DIAMOND_RANK, Idle(), 0, 0, WRITER, {20}) &&
           CheckKid(g, DIAMOND_RANK, Idle(), 0, 1, WRITER, {20});
  }

  /** The set phase on one side of the diamond. */
  lemma {:induction false} SideSets(k: Uses, n: nat, c: nat, d: nat)
    requires Wf(Diamond(), DIAMOND_RANK) && UsesOk(Diamond(), k) && LinkOk(Diamond(), c) && LinkOk(Diamond(), d)
    requires (n == 1 && c == 10 && d == 12) || (n == 2 && c == 11 && d == 13)
    requires k[d] == IDLE
    ensures SetEdge(Diamond(), DIAMOND_RANK, k, c, WRITER) == k[c := WRITER][d := WRITER]
  {
    var g, r, k1 := Diamond(), DIAMOND_RANK, k[c := WRITER];
    assert NodeOk(g, n) && NodeOk(g, 3);
    OneParent(g, k1, n, c, WRITER, {c});
    PassesOn(g.nodes[n], File);
    assert SetEdge(g, r, k1, d, WRITER) == k1[d := WRITER];
    assert SetKids(g, r, k1, n, 0, WRITER) == SetKids(g, r, k1[d := WRITER], n, 1, WRITER);
  }

  /** The check accepts a writer that shares nothing on top of the diamond, since it looks at each of the two edges into
      the leaf while the other one is idle.  Then both are set, and each writes what the other does not share. */
  lemma {:induction false} DiamondBreaks()
    ensures Wf(Diamond(), DIAMOND_RANK) && UsesOk(Diamond(), Idle()) && LinkOk(Diamond(), 20)
    ensures CompatibleIn(Diamond(), Idle(), Diamond().nodes.Keys)
    ensures CheckUpdate(Diamond(), DIAMOND_RANK, Idle(), 0, WRITER, {20})
    ensures !Compatible(Diamond(), SetEdge(Diamond(), DIAMOND_RANK, Idle(), 20, WRITER), 3)
  {
    DiamondOk();
    DiamondCompatible();
    TopChecks();
    TopSets();
    TwoWriters(SetEdge(Diamond(), DIAMOND_RANK, Idle(), 20, WRITER));
  }

  lemma {:induction false} TwoWriters(v: Uses)
    requires UsesOk(Diamond(), v) && v[12] == WRITER && v[13] == WRITER
    ensures !Compatible(Diamond(), v, 3)
  {
    var ps := Diamond().nodes[3].parents;
    assert ps[0] == 12 && ps[1] == 13 && Write in v[12].perm && Write !in v[13].shared;
  }

  lemma {:induction false} TopSets()
    requires Wf(Diamond(), DIAMOND_RANK) && UsesOk(Diamond(), Idle()) && LinkOk(Diamond(), 20)
    ensures var v := SetEdge(Diamond(), DIAMOND_RANK, Idle(), 20, WRITER); v[12] == WRITER && v[13] == WRITER
  {
    var g, r, k := Diamond(), DIAMOND_RANK, Idle()[20 := WRITER];
    assert NodeOk(g, 0) && LinkOk(g, 10) && LinkOk(g, 11) && LinkOk(g, 12) && LinkOk(g, 13);
    OneParent(g, k, 0, 20, WRITER, {20});
    PassesOn(g.nodes[0], File);
    SideSets(k, 1, 10, 12);
    var k1 := k[10 := WRITER][12 := WRITER];
    SideSets(k1, 2, 11, 13);
    var k2 := k1[11 := WRITER][13 := WRITER];
    assert SetKids(g, r, k2, 0, 2, WRITER) == k2;
    assert SetKids(g, r, k1, 0, 1, WRITER) == k2;
    assert SetKids(g, r, k, 0, 0, WRITER) == k2;
  }
}
