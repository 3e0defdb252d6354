/** Address space dispatch of exec.c: sections are cut into pages and subpages, entered into the page
    map, and looked up through a most-recently-used cache.  Everything is related to one flat map that
    says for each address which memory region owns it, and at which offset. */
module Dispatch {
  import opened PhysTree
  import opened PhysMap
  import opened Options

  const TARGET_PAGE_SIZE: nat := 4096
  const P_L2_LEVELS: nat := 6
  const SPACE: nat := 0x1_0000_0000_0000_0000

  /** A memory region: the four built-in ones, a device or RAM region, or a subpage container. */
  datatype Region = Unassigned | NotDirty | Rom | Watch | Device(id: nat, ram: bool) | Subpage(sub: nat)

  /** MemoryRegionSection; `size` is a 128-bit number. */
  datatype Section = Section(mr: Region, offset: nat, size: nat, regionOffset: nat)

  /** Who owns an address: the region, and the region offset minus the address. */
  datatype Owner = Owner(mr: Region, delta: int)

  function OwnerOf(s: Section): Owner {
    Owner(s.mr, s.regionOffset - s.offset)
  }

  predicate InRange(s: Section, a: int) {
    s.offset <= a < s.offset + s.size
  }

  // ---------------------------------------------------------------------------------------------
  // section_covers_addr
  // ---------------------------------------------------------------------------------------------

  /** range_get_last, in 64 bits. */
  function RangeLast(offset: nat, len: nat): nat {
    (offset + len - 1) % SPACE
  }

  predicate Covers(s: Section, addr: nat) {
    s.size / SPACE != 0 || (s.offset <= addr <= RangeLast(s.offset, s.size % SPACE))
  }

  lemma {:induction false} CoversInRange(s: Section, addr: nat)
    requires s.size > 0 && s.offset + s.size <= SPACE && addr < SPACE
    ensures Covers(s, addr) <==> InRange(s, addr)
  {
  }

  // ---------------------------------------------------------------------------------------------
  // The tables behind the map
  // ---------------------------------------------------------------------------------------------

  /** Section table, subpage tables, page view and its leaves, and the flat map they stand for. */
  datatype Tables = Tables(
    sections: seq<Section>,
    subs: seq<seq<nat>>,
    view: seq<nat>,
    leaves: set<nat>,
    who: map<nat, Owner>)

  predicate IsPiece(s: Section) {
    s.mr.Device? && s.size > 0 && s.offset + s.size <= SPACE
  }

  predicate IsContainer(s: Section, subs: nat) {
    && s.mr.Subpage? && s.mr.sub < subs && s.regionOffset == 0
    && s.offset % TARGET_PAGE_SIZE == 0 && s.size == TARGET_PAGE_SIZE && s.offset + s.size <= SPACE
  }

  const DUMMIES: seq<Section> :=
    [Section(Unassigned, 0, SPACE, 0), Section(NotDirty, 0, SPACE, 0),
     Section(Rom, 0, SPACE, 0), Section(Watch, 0, SPACE, 0)]

  predicate SectionsOk(tb: Tables) {
    && DUMMIES <= tb.sections
    && (forall t :: 4 <= t < |tb.sections| ==> IsPiece(tb.sections[t]) || IsContainer(tb.sections[t], |tb.subs|))
    && (forall i :: 0 <= i < |tb.subs| ==> |tb.subs[i]| == TARGET_PAGE_SIZE)
    && (forall t, u ::
          4 <= t < |tb.sections| && 4 <= u < |tb.sections| && tb.sections[t].mr.Subpage?
          && tb.sections[t].mr == tb.sections[u].mr
          ==> t == u)
  }

  /** Section `t` is entered into the page map for exactly the pages it consists of. */
  predicate PageLevel(tb: Tables, t: nat) {
    && 4 <= t < |tb.sections|
    && tb.sections[t].offset % TARGET_PAGE_SIZE == 0 && tb.sections[t].size % TARGET_PAGE_SIZE == 0
    && forall p :: 0 <= p < |tb.view| ==> (tb.view[p] == t <==> InRange(tb.sections[t], p * TARGET_PAGE_SIZE))
  }

  predicate ViewOk(tb: Tables) {
    && SPACE <= |tb.view| * TARGET_PAGE_SIZE
    && (forall p :: 0 <= p < |tb.view| ==> tb.view[p] == PHYS_SECTION_UNASSIGNED || tb.view[p] in tb.leaves)
    && (forall t :: t in tb.leaves ==> PageLevel(tb, t))
    && (forall t :: 4 <= t < |tb.sections| && tb.sections[t].mr.Subpage? ==> t in tb.leaves)
  }

  /** The section index that a subpage-resolving lookup should find. */
  function Target(tb: Tables, a: nat): nat {
    if a / TARGET_PAGE_SIZE >= |tb.view| then PHYS_SECTION_UNASSIGNED
    else Resolved(tb, tb.view[a / TARGET_PAGE_SIZE], a)
  }

  /** Section `s` after resolving a subpage container. */
  function Resolved(tb: Tables, s: nat, a: nat): nat {
    if s < |tb.sections| && tb.sections[s].mr.Subpage? && tb.sections[s].mr.sub < |tb.subs|
       && |tb.subs[tb.sections[s].mr.sub]| == TARGET_PAGE_SIZE
    then tb.subs[tb.sections[s].mr.sub][a % TARGET_PAGE_SIZE]
    else s
  }

  /** An address resolves to the section that owns it, or to the unassigned section if none does. */
  predicate FlatAt(tb: Tables, a: nat) {
    var t := Target(tb, a);
    if t == PHYS_SECTION_UNASSIGNED then a !in tb.who
    else
      && 4 <= t < |tb.sections| && tb.sections[t].mr.Device? && InRange(tb.sections[t], a)
      && a in tb.who && tb.who[a] == OwnerOf(tb.sections[t])
  }

  predicate Flat(tb: Tables) {
    forall a :: 0 <= a < SPACE ==> FlatAt(tb, a)
  }

  /** A piece is what every address in its range resolves to. */
  ghost predicate Exact(tb: Tables) {
    forall t, a: nat :: 4 <= t < |tb.sections| && tb.sections[t].mr.Device? && InRange(tb.sections[t], a)
                       ==> Target(tb, a) == t
  }

  ghost predicate Consistent(tb: Tables) {
    SectionsOk(tb) && ViewOk(tb) && Flat(tb) && Exact(tb)
  }

  /** Some address of the section is owned. */
  predicate Owned(s: Section, who: map<nat, Owner>) {
    exists a :: s.offset <= a < s.offset + s.size && a in who
  }

  /** No subpage container is without an owned address. */
  predicate Inhabited(tb: Tables) {
    forall t :: 4 <= t < |tb.sections| && tb.sections[t].mr.Subpage? ==> Owned(tb.sections[t], tb.who)
  }

  predicate InhabitedBut(tb: Tables, s: nat) {
    forall t :: 4 <= t < |tb.sections| && t != s && tb.sections[t].mr.Subpage? ==> Owned(tb.sections[t], tb.who)
  }

  lemma {:induction false} OwnedMore(s: Section, who: map<nat, Owner>, sec: Section)
    requires Owned(s, who) || (sec.size > 0 && s.offset <= sec.offset < s.offset + s.size)
    ensures Owned(s, Claim(who, sec))
  {
    if Owned(s, who) {
      var a :| s.offset <= a < s.offset + s.size && a in who;
      assert a in Claim(who, sec);
    } else {
      assert sec.offset in Claim(who, sec);
    }
  }

  lemma {:induction false} ClaimInhabits(tb: Tables, s: nat, sec: Section)
    requires InhabitedBut(tb, s) && s < |tb.sections| && sec.size > 0
    requires tb.sections[s].offset <= sec.offset < tb.sections[s].offset + tb.sections[s].size
    requires sec.mr.Device?
    ensures forall t :: 4 <= t < |tb.sections| && tb.sections[t].mr.Subpage? ==>
              Owned(tb.sections[t], Claim(tb.who, sec))
  {
    forall t | 4 <= t < |tb.sections| && tb.sections[t].mr.Subpage?
      ensures Owned(tb.sections[t], Claim(tb.who, sec))
    {
      OwnedMore(tb.sections[t], tb.who, sec);
    }
  }

  lemma {:induction false} MoreInhabited(tb: Tables, sec: Section)
    requires Inhabited(tb)
    ensures forall t :: 4 <= t < |tb.sections| && tb.sections[t].mr.Subpage? ==>
              Owned(tb.sections[t], Claim(tb.who, sec))
  {
    forall t | 4 <= t < |tb.sections| && tb.sections[t].mr.Subpage?
      ensures Owned(tb.sections[t], Claim(tb.who, sec))
    {
      OwnedMore(tb.sections[t], tb.who, sec);
    }
  }

  function Claim(who: map<nat, Owner>, s: Section): map<nat, Owner> {
    who + (map a: nat | s.offset <= a < s.offset + s.size && InRange(s, a) :: OwnerOf(s))
  }

  predicate Unclaimed(who: map<nat, Owner>, s: Section) {
    forall a: nat :: InRange(s, a) ==> a !in who
  }

  // ---------------------------------------------------------------------------------------------
  // How registering a section changes the tables
  // ---------------------------------------------------------------------------------------------

  /** Exactly the addresses of the new piece are redirected, to the new section. */
  ghost predicate Redirected(tb: Tables, tb': Tables, s: Section) {
    forall a :: 0 <= a < SPACE ==> Target(tb', a) == if InRange(s, a) then |tb.sections| else Target(tb, a)
  }

  /** Redirecting unclaimed addresses to a new piece claims them and nothing else. */
  lemma {:induction false} RedirectFlat(tb: Tables, tb': Tables, s: Section)
    requires SectionsOk(tb) && Flat(tb) && Exact(tb)
    requires IsPiece(s) && Unclaimed(tb.who, s) && Redirected(tb, tb', s)
    requires tb'.sections == tb.sections + [s] && tb'.who == Claim(tb.who, s)
    ensures Flat(tb') && Exact(tb')
  {
    forall a | 0 <= a < SPACE
      ensures FlatAt(tb', a)
    {
      assert FlatAt(tb, a);
    }
    forall t, a: nat | 4 <= t < |tb'.sections| && tb'.sections[t].mr.Device? && InRange(tb'.sections[t], a)
      ensures Target(tb', a) == t
    {
      if t < |tb.sections| {
        assert IsPiece(tb.sections[t]) && Target(tb, a) == t;
        assert FlatAt(tb, a);
      }
    }
  }

  function Zeros(): (r: seq<nat>)
    ensures |r| == TARGET_PAGE_SIZE && forall i :: 0 <= i < |r| ==> r[i] == PHYS_SECTION_UNASSIGNED
  {
    seq(TARGET_PAGE_SIZE, _ => PHYS_SECTION_UNASSIGNED)
  }

  /** The tables after an empty subpage container has been entered for the page at `base`. */
  function WithContainer(tb: Tables, base: nat, view': seq<nat>): Tables {
    var c := Section(Subpage(|tb.subs|), base, TARGET_PAGE_SIZE, 0);
    Tables(tb.sections + [c], tb.subs + [Zeros()], view', tb.leaves + {|tb.sections|}, tb.who)
  }

  lemma {:induction false} ContainerTargets(tb: Tables, base: nat, view': seq<nat>, a: nat)
    requires SectionsOk(tb) && ViewOk(tb) && base % TARGET_PAGE_SIZE == 0 && base + TARGET_PAGE_SIZE <= SPACE
    requires tb.view[base / TARGET_PAGE_SIZE] == PHYS_SECTION_UNASSIGNED && a < SPACE
    requires Updated(tb.view, base / TARGET_PAGE_SIZE, base / TARGET_PAGE_SIZE + 1, |tb.sections|, view')
    ensures Target(WithContainer(tb, base, view'), a) == Target(tb, a)
  {
    var p := a / TARGET_PAGE_SIZE;
    if p != base / TARGET_PAGE_SIZE {
      assert tb.view[p] in tb.leaves ==> PageLevel(tb, tb.view[p]);
    }
  }

  lemma {:induction false} ContainerKeeps(tb: Tables, base: nat, view': seq<nat>)
    requires Consistent(tb) && base % TARGET_PAGE_SIZE == 0 && base + TARGET_PAGE_SIZE <= SPACE
    requires tb.view[base / TARGET_PAGE_SIZE] == PHYS_SECTION_UNASSIGNED
    requires Updated(tb.view, base / TARGET_PAGE_SIZE, base / TARGET_PAGE_SIZE + 1, |tb.sections|, view')
    ensures Consistent(WithContainer(tb, base, view'))
  {
    var tb' := WithContainer(tb, base, view');
    forall t | t in tb'.leaves
      ensures PageLevel(tb', t)
    {
      assert t in tb.leaves ==> PageLevel(tb, t);
    }
    forall a | 0 <= a < SPACE
      ensures FlatAt(tb', a) && Target(tb', a) == Target(tb, a)
    {
      ContainerTargets(tb, base, view', a);
      assert FlatAt(tb, a);
    }
  }

  /** The tables after a piece has been entered into container `s`. */
  ghost function WithSubPiece(tb: Tables, s: nat, sec: Section, row: seq<nat>): Tables
    requires s < |tb.sections| && tb.sections[s].mr.Subpage? && tb.sections[s].mr.sub < |tb.subs|
  {
    tb.(sections := tb.sections + [sec], subs := tb.subs[tb.sections[s].mr.sub := row], who := Claim(tb.who, sec))
  }

  /** The row of a container with exactly the piece's bytes changed. */
  predicate RowUpdated(row: seq<nat>, sec: Section, base: nat, n: nat, row': seq<nat>) {
    |row'| == |row| && forall i :: 0 <= i < |row| ==> row'[i] == if InRange(sec, base + i) then n else row[i]
  }

  lemma {:induction false} SubPieceKeeps(tb: Tables, s: nat, sec: Section, row: seq<nat>)
    requires Consistent(tb) && 4 <= s < |tb.sections| && IsContainer(tb.sections[s], |tb.subs|)
    requires IsPiece(sec) && Unclaimed(tb.who, sec)
    requires tb.sections[s].offset <= sec.offset && sec.offset + sec.size <= tb.sections[s].offset + TARGET_PAGE_SIZE
    requires RowUpdated(tb.subs[tb.sections[s].mr.sub], sec, tb.sections[s].offset, |tb.sections|, row)
    ensures Consistent(WithSubPiece(tb, s, sec, row))
  {
    var tb' := WithSubPiece(tb, s, sec, row);
    forall t | t in tb'.leaves
      ensures PageLevel(tb', t)
    {
      assert PageLevel(tb, t);
    }
    forall a | 0 <= a < SPACE
      ensures Target(tb', a) == if InRange(sec, a) then |tb.sections| else Target(tb, a)
    {
      SubPieceTargets(tb, s, sec, row, a);
    }
    RedirectFlat(tb, tb', sec);
  }

  lemma {:induction false} SubPieceTargets(tb: Tables, s: nat, sec: Section, row: seq<nat>, a: nat)
    requires SectionsOk(tb) && ViewOk(tb) && 4 <= s < |tb.sections| && IsContainer(tb.sections[s], |tb.subs|)
    requires tb.sections[s].offset <= sec.offset && sec.offset + sec.size <= tb.sections[s].offset + TARGET_PAGE_SIZE
    requires RowUpdated(tb.subs[tb.sections[s].mr.sub], sec, tb.sections[s].offset, |tb.sections|, row) && a < SPACE
    ensures Target(WithSubPiece(tb, s, sec, row), a) == if InRange(sec, a) then |tb.sections| else Target(tb, a)
  {
    var p := a / TARGET_PAGE_SIZE;
    assert PageLevel(tb, s);
    assert tb.view[p] == s <==> InRange(tb.sections[s], p * TARGET_PAGE_SIZE);
    assert tb.view[p] in tb.leaves ==> PageLevel(tb, tb.view[p]);
  }

  /** The tables after a piece that consists of whole pages has been entered. */
  function WithPages(tb: Tables, sec: Section, view': seq<nat>): Tables {
    Tables(tb.sections + [sec], tb.subs, view', tb.leaves + {|tb.sections|}, Claim(tb.who, sec))
  }

  lemma {:induction false} PagesTargets(tb: Tables, sec: Section, view': seq<nat>, a: nat)
    requires SectionsOk(tb) && ViewOk(tb) && IsPiece(sec) && a < SPACE
    requires sec.offset % TARGET_PAGE_SIZE == 0 && sec.size % TARGET_PAGE_SIZE == 0
    requires Updated(tb.view, sec.offset / TARGET_PAGE_SIZE, (sec.offset + sec.size) / TARGET_PAGE_SIZE, |tb.sections|,
             view')
    ensures Target(WithPages(tb, sec, view'), a) == if InRange(sec, a) then |tb.sections| else Target(tb, a)
  {
    var p := a / TARGET_PAGE_SIZE;
    assert tb.view[p] in tb.leaves ==> PageLevel(tb, tb.view[p]);
  }

  lemma {:induction false} PagesKeep(tb: Tables, sec: Section, view': seq<nat>)
    requires Consistent(tb) && IsPiece(sec) && Unclaimed(tb.who, sec)
    requires sec.offset % TARGET_PAGE_SIZE == 0 && sec.size % TARGET_PAGE_SIZE == 0
    requires forall p :: 0 <= p < |tb.view| && InRange(sec, p * TARGET_PAGE_SIZE) ==>
               tb.view[p] == PHYS_SECTION_UNASSIGNED
    requires Updated(tb.view, sec.offset / TARGET_PAGE_SIZE, (sec.offset + sec.size) / TARGET_PAGE_SIZE, |tb.sections|,
             view')
    ensures Consistent(WithPages(tb, sec, view'))
  {
    var tb' := WithPages(tb, sec, view');
    forall t | t in tb'.leaves
      ensures PageLevel(tb', t)
    {
      assert t in tb.leaves ==> PageLevel(tb, t);
    }
    forall a | 0 <= a < SPACE
      ensures Target(tb', a) == if InRange(sec, a) then |tb.sections| else Target(tb, a)
    {
      PagesTargets(tb, sec, view', a);
    }
    RedirectFlat(tb, tb', sec);
  }

  /** A page that is assigned in the page map has an owned address. */
  lemma {:induction false} AssignedPage(tb: Tables, p: nat) returns (a: nat)
    requires Consistent(tb) && Inhabited(tb) && p < |tb.view| && (p + 1) * TARGET_PAGE_SIZE <= SPACE
    requires tb.view[p] != PHYS_SECTION_UNASSIGNED
    ensures p * TARGET_PAGE_SIZE <= a < (p + 1) * TARGET_PAGE_SIZE && a in tb.who
  {
    var s := tb.view[p];
    assert PageLevel(tb, s);
    a := p * TARGET_PAGE_SIZE;
    assert FlatAt(tb, a);
    if tb.sections[s].mr.Subpage? {
      assert Owned(tb.sections[s], tb.who);
      a :| tb.sections[s].offset <= a < tb.sections[s].offset + tb.sections[s].size && a in tb.who;
    }
  }

  lemma {:induction false} UnclaimedPages(tb: Tables, sec: Section)
    requires Consistent(tb) && Inhabited(tb) && Unclaimed(tb.who, sec) && sec.offset + sec.size <= SPACE
    requires sec.offset % TARGET_PAGE_SIZE == 0 && sec.size % TARGET_PAGE_SIZE == 0
    ensures forall p :: 0 <= p < |tb.view| && InRange(sec, p * TARGET_PAGE_SIZE) ==>
              tb.view[p] == PHYS_SECTION_UNASSIGNED
  {
    forall p | 0 <= p < |tb.view| && InRange(sec, p * TARGET_PAGE_SIZE)
      ensures tb.view[p] == PHYS_SECTION_UNASSIGNED
    {
      if tb.view[p] != PHYS_SECTION_UNASSIGNED {
        var a := AssignedPage(tb, p);
      }
    }
  }

  /** A page with an unclaimed address is unassigned or a subpage container: the assertion of
      register_subpage. */
  lemma {:induction false} PartialPage(tb: Tables, a: nat)
    requires Consistent(tb) && a < SPACE && a !in tb.who
    ensures var s := tb.view[a / TARGET_PAGE_SIZE];
      s < |tb.sections| && (tb.sections[s].mr == Unassigned || tb.sections[s].mr.Subpage?)
  {
    assert FlatAt(tb, a);
  }

  /** The first `len` bytes of a section. */
  function Prefix(s: Section, len: nat): Section {
    s.(size := len)
  }

  /** What is left of a section after its first `len` bytes. */
  function Suffix(s: Section, len: nat): Section
    requires len <= s.size
  {
    Section(s.mr, s.offset + len, s.size - len, s.regionOffset + len)
  }

  // ---------------------------------------------------------------------------------------------
  // How many section numbers are taken
  // ---------------------------------------------------------------------------------------------

  /** The page has a subpage container. */
  predicate IsCut(tb: Tables, p: nat) {
    p < |tb.view| && tb.view[p] < |tb.sections| && tb.sections[tb.view[p]].mr.Subpage?
  }

  /** The set is that of the pages with a subpage container. */
  ghost predicate CutIs(tb: Tables, cut: set<nat>) {
    forall p: nat :: p in cut <==> IsCut(tb, p)
  }

  lemma {:induction false} ContainerCuts(tb: Tables, base: nat, view': seq<nat>, cut: set<nat>)
    requires SectionsOk(tb) && ViewOk(tb) && base / TARGET_PAGE_SIZE < |tb.view| && CutIs(tb, cut)
    requires Updated(tb.view, base / TARGET_PAGE_SIZE, base / TARGET_PAGE_SIZE + 1, |tb.sections|, view')
    ensures CutIs(WithContainer(tb, base, view'), cut + {base / TARGET_PAGE_SIZE})
  {
    var tb' := WithContainer(tb, base, view');
    forall p: nat
      ensures IsCut(tb', p) <==> IsCut(tb, p) || p == base / TARGET_PAGE_SIZE
    {
      assert p < |tb.view| && tb.view[p] in tb.leaves ==> PageLevel(tb, tb.view[p]);
    }
  }

  lemma {:induction false} SubPieceCuts(tb: Tables, s: nat, sec: Section, row: seq<nat>, cut: set<nat>)
    requires SectionsOk(tb) && ViewOk(tb) && s < |tb.sections| && IsContainer(tb.sections[s], |tb.subs|) &&
             CutIs(tb, cut)
    ensures CutIs(WithSubPiece(tb, s, sec, row), cut)
  {
    forall p: nat
      ensures IsCut(WithSubPiece(tb, s, sec, row), p) <==> IsCut(tb, p)
    {
      assert p < |tb.view| && tb.view[p] in tb.leaves ==> PageLevel(tb, tb.view[p]);
    }
  }

  lemma {:induction false} PagesCut(tb: Tables, sec: Section, view': seq<nat>, cut: set<nat>)
    requires SectionsOk(tb) && ViewOk(tb) && sec.mr.Device? && CutIs(tb, cut)
    requires sec.offset % TARGET_PAGE_SIZE == 0 && sec.size % TARGET_PAGE_SIZE == 0
    requires forall p :: 0 <= p < |tb.view| && InRange(sec, p * TARGET_PAGE_SIZE) ==>
               tb.view[p] == PHYS_SECTION_UNASSIGNED
    requires Updated(tb.view, sec.offset / TARGET_PAGE_SIZE, (sec.offset + sec.size) / TARGET_PAGE_SIZE, |tb.sections|,
             view')
    ensures CutIs(WithPages(tb, sec, view'), cut)
  {
    forall p: nat
      ensures IsCut(WithPages(tb, sec, view'), p) <==> IsCut(tb, p)
    {
      assert p < |tb.view| && tb.view[p] in tb.leaves ==> PageLevel(tb, tb.view[p]);
    }
  }

  /** The part of a section before the first page boundary, if it does not start on one. */
  function Head(s: Section): nat {
    var left := TARGET_PAGE_SIZE - s.offset % TARGET_PAGE_SIZE;
    if s.offset % TARGET_PAGE_SIZE == 0 then 0 else if left < s.size then left else s.size
  }

  /** A part at the end that is less than a page is entered into the page it lies in. */
  predicate HasTail(s: Section, done: nat)
    requires done <= s.size
  {
    (s.size - done) % TARGET_PAGE_SIZE != 0
  }

  function TailPages(s: Section, done: nat): set<nat>
    requires done <= s.size
  {
    if HasTail(s, done) then {(s.offset + s.size) / TARGET_PAGE_SIZE} else {}
  }

  /** The pages of which a section has a part. */
  function PartPages(s: Section): set<nat> {
    (if Head(s) == 0 then {} else {s.offset / TARGET_PAGE_SIZE}) + TailPages(s, Head(s))
  }

  /** The pieces into which mem_add cuts a section: its head, its whole pages, and the rest. */
  function PieceCount(s: Section): nat {
    (if Head(s) == 0 then 0 else 1) + (if s.size - Head(s) >= TARGET_PAGE_SIZE then 1 else 0)
    + if HasTail(s, Head(s)) then 1 else 0
  }

  /** A part of a page takes a number, and another one if the page has no subpage container yet. */
  function PartCost(p: nat, cut: set<nat>): nat {
    if p in cut then 1 else 2
  }

  function TailCost(s: Section, done: nat, cut: set<nat>): nat
    requires done <= s.size
  {
    (if s.size - done >= TARGET_PAGE_SIZE then 1 else 0)
    + if HasTail(s, done) then PartCost((s.offset + s.size) / TARGET_PAGE_SIZE, cut) else 0
  }

  /** What a section takes. */
  function Cost(s: Section, cut: set<nat>): nat {
    (if Head(s) == 0 then 0 else PartCost(s.offset / TARGET_PAGE_SIZE, cut)) + TailCost(s, Head(s), cut)
  }

  /** One number for each piece, and one for each page that gets a subpage container. */
  lemma {:induction false} CostIs(s: Section, cut: set<nat>)
    ensures Cost(s, cut) == PieceCount(s) + |PartPages(s) - cut|
  {
    var head, tail := HeadCut(s), TailPages(s, Head(s));
    if Head(s) != 0 && HasTail(s, Head(s)) {
      TailIsLater(s);
    }
    NewPages(head, tail, cut);
    if Head(s) != 0 {
      NewPage(s.offset / TARGET_PAGE_SIZE, cut);
    }
    if HasTail(s, Head(s)) {
      NewPage((s.offset + s.size) / TARGET_PAGE_SIZE, cut);
    }
  }

  lemma {:induction false} TailIsLater(s: Section)
    requires Head(s) != 0 && HasTail(s, Head(s))
    ensures s.offset / TARGET_PAGE_SIZE < (s.offset + s.size) / TARGET_PAGE_SIZE
  {
  }

  lemma {:induction false} NewPages(a: set<nat>, b: set<nat>, cut: set<nat>)
    requires a !! b
    ensures |a + b - cut| == |a - cut| + |b - cut|
  {
    assert a + b - cut == (a - cut) + (b - cut);
  }

  lemma {:induction false} NewPage(p: nat, cut: set<nat>)
    ensures |{p} - cut| == PartCost(p, cut) - 1
  {
    assert {p} - cut == if p in cut then {} else {p};
  }

  /** The pages of which a section has a part are those that it has some but not all addresses of. */
  lemma {:induction false} PartIs(s: Section, p: nat)
    requires s.size > 0
    ensures p in PartPages(s) <==>
              && (exists a :: p * TARGET_PAGE_SIZE <= a < (p + 1) * TARGET_PAGE_SIZE && InRange(s, a))
              && (exists a :: p * TARGET_PAGE_SIZE <= a < (p + 1) * TARGET_PAGE_SIZE && !InRange(s, a))
  {
    var lo, hi, end := p * TARGET_PAGE_SIZE, (p + 1) * TARGET_PAGE_SIZE - 1, s.offset + s.size;
    if s.offset < lo {
      assert InRange(s, lo) <==> lo < end;
    }
    if lo <= s.offset <= hi {
      assert InRange(s, s.offset);
    }
    assert InRange(s, lo) && InRange(s, hi) ==> forall a :: lo <= a <= hi ==> InRange(s, a);
  }

  lemma {:induction false} BasePage(o: nat)
    ensures (o - o % TARGET_PAGE_SIZE) / TARGET_PAGE_SIZE == o / TARGET_PAGE_SIZE
  {
  }

  /** What one round of mem_add's loop enters of `size` bytes, what that takes, and what it cuts. */
  function Chunk(size: nat): nat {
    if size < TARGET_PAGE_SIZE then size else size - size % TARGET_PAGE_SIZE
  }

  function RoundCost(s: Section, cut: set<nat>): nat {
    if s.size < TARGET_PAGE_SIZE then PartCost(s.offset / TARGET_PAGE_SIZE, cut) else 1
  }

  function RoundCut(s: Section): set<nat> {
    if s.size < TARGET_PAGE_SIZE then {s.offset / TARGET_PAGE_SIZE} else {}
  }

  /** The first `done` bytes have been entered: the section numbers and the subpage containers are accounted for. */
  predicate PaidUp(s: Section, done: nat, n: nat, cut: set<nat>, n': nat, cut': set<nat>) {
    && done <= s.size && n' + TailCost(s, done, cut') == n + Cost(s, cut)
    && cut' + TailPages(s, done) == cut + PartPages(s)
  }

  /** What an unaligned start takes. */
  function HeadCost(s: Section, cut: set<nat>): nat {
    if Head(s) == 0 then 0 else PartCost(s.offset / TARGET_PAGE_SIZE, cut)
  }

  function HeadCut(s: Section): set<nat> {
    if Head(s) == 0 then {} else {s.offset / TARGET_PAGE_SIZE}
  }

  lemma {:induction false} PaidFirst(s: Section, n: nat, cut: set<nat>)
    ensures HeadCost(s, cut) <= Cost(s, cut)
    ensures PaidUp(s, Head(s), n, cut, n + HeadCost(s, cut), cut + HeadCut(s))
  {
    if Head(s) != 0 && HasTail(s, Head(s)) {
      TailIsLater(s);
    }
  }

  lemma {:induction false} PaidAll(s: Section, n: nat, cut: set<nat>, n': nat, cut': set<nat>)
    requires PaidUp(s, s.size, n, cut, n', cut')
    ensures n' == n + Cost(s, cut) && cut' == cut + PartPages(s)
  {
  }

  /** Before a round its cost is still covered, and after it the account is right again. */
  lemma {:induction false} PaidRound(s: Section, done: nat, more: nat, n: nat, cut: set<nat>, m: nat, cut1: set<nat>,
                                     m': nat, cut2: set<nat>)
    requires done < s.size && (s.offset + done) % TARGET_PAGE_SIZE == 0 && PaidUp(s, done, n, cut, m, cut1)
    requires more == done + Chunk(s.size - done) && m' == m + RoundCost(Suffix(s, done), cut1)
    requires cut2 == cut1 + RoundCut(Suffix(s, done))
    ensures m' <= n + Cost(s, cut) && PaidUp(s, more, n, cut, m', cut2)
  {
    RoundIs(s, done, cut1);
  }

  lemma {:induction false} RoundIs(s: Section, done: nat, cut: set<nat>)
    requires done < s.size && (s.offset + done) % TARGET_PAGE_SIZE == 0
    ensures var rest, more := Suffix(s, done), done + Chunk(s.size - done);
      && TailCost(s, done, cut) == RoundCost(rest, cut) + TailCost(s, more, cut + RoundCut(rest))
      && TailPages(s, done) == RoundCut(rest) + TailPages(s, more)
  {
    if s.size - done < TARGET_PAGE_SIZE {
      assert (s.offset + s.size) / TARGET_PAGE_SIZE == (s.offset + done) / TARGET_PAGE_SIZE;
    }
  }

  /** Claiming a section piece by piece claims the section. */
  lemma {:induction false} ClaimJoins(who: map<nat, Owner>, mid: map<nat, Owner>, end: map<nat, Owner>,
                   s: Section, from: nat, to: nat, more: Section)
    requires from <= to <= s.size && more == Prefix(Suffix(s, from), to - from)
    requires mid == Claim(who, Prefix(s, from)) && end == Claim(mid, more)
    ensures end == Claim(who, Prefix(s, to))
  {
    var all := Prefix(s, to);
    forall a: nat
      ensures InRange(all, a) <==> InRange(Prefix(s, from), a) || InRange(more, a)
    {
    }
    assert end.Keys == Claim(who, all).Keys;
  }

  lemma {:induction false} StillUnclaimed(who: map<nat, Owner>, s: Section, len: nat)
    requires Unclaimed(who, s) && len <= s.size
    ensures Unclaimed(Claim(who, Prefix(s, len)), Suffix(s, len))
  {
  }

  // ---------------------------------------------------------------------------------------------
  // The dispatch
  // ---------------------------------------------------------------------------------------------

  datatype Stage = Filling | Other

  class AddressSpaceDispatch {
    const pages: PhysPageMap
    var sections: seq<Section>
    var subs: seq<seq<nat>>         // the subpage_t objects' sub_section tables
    var mru: Option<nat>            // mru_section, as an index
    ghost var who: map<nat, Owner>
    ghost var cut: set<nat>         // the pages with a subpage container, until mem_commit

    ghost function Contents(): Tables
      reads this, pages
    {
      Tables(sections, subs, pages.shape.view, pages.shape.leaves, who)
    }

    /** What holds from mem_begin on, whether or not the map has been compressed. */
    ghost predicate Valid()
      reads this, pages
    {
      && pages.levels == P_L2_LEVELS && Packed(pages.levels, pages.Map(), pages.shape)
      && Consistent(Contents()) && Inhabited(Contents()) && |sections| <= TARGET_PAGE_SIZE
    }

    /** How far a transaction has come: sections may be added until mem_commit runs. */
    ghost function Stage(): Stage
      reads this, pages
    {
      if Valid() && pages.Building() && |pages.nodes| <= 11 * |sections| && CutIs(Contents(), cut) then Filling
        else Other
    }

    ghost predicate Open()
      reads this, pages
    {
      Stage() == Filling
    }

    /** Sections may still be added once container `s` has been given an owned address. */
    ghost predicate OpenBut(s: nat)
      reads this, pages
    {
      && pages.levels == P_L2_LEVELS && Packed(pages.levels, pages.Map(), pages.shape) && pages.Building()
      && Consistent(Contents()) && |sections| <= TARGET_PAGE_SIZE && |pages.nodes| <= 11 * |sections|
      && 4 <= s < |sections| && InhabitedBut(Contents(), s) && CutIs(Contents(), cut)
    }

    /** mem_begin */
    constructor ()
      ensures Open() && who == map[] && mru == None && sections == DUMMIES && cut == {} && fresh(pages)
    {
      pages := new PhysPageMap(P_L2_LEVELS);
      sections := DUMMIES;
      subs := [];
      mru := None;
      who := map[];
      cut := {};
      new;
      SpaceFits();
      PlainIsPacked(pages.levels, pages.Map(), pages.shape);
      NothingCut(Contents());
    }

    /** phys_section_add.  The code's assertion is the result `ok`: false is an abort. */
    method SectionAdd(s: Section) returns (ok: bool, n: nat)
      modifies this`sections
      ensures ok == (old(|sections|) < TARGET_PAGE_SIZE)
      ensures n == old(|sections|) && sections == if ok then old(sections) + [s] else old(sections)
    {
      n := |sections|;
      ok := n < TARGET_PAGE_SIZE;
      if ok {
        sections := sections + [s];
      }
    }

    /** phys_page_find: the page map's answer, unless that section does not cover the address. */
    method PageFind(addr: nat) returns (s: nat)
      requires Valid() && addr < SPACE
      ensures s == pages.shape.view[addr / TARGET_PAGE_SIZE]
    {
      SpaceFits();
      s := pages.FindLeaf(addr / TARGET_PAGE_SIZE);
      FoundCovers(Contents(), s, addr);
      if !Covers(sections[s], addr) {
        s := PHYS_SECTION_UNASSIGNED;
      }
    }

    /** phys_page_set on pages that are unassigned so far. */
    method EnterPages(index: nat, nb: nat, n: nat)
      requires pages.Building() && pages.levels == P_L2_LEVELS && nb > 0 && index + nb <= |pages.shape.view|
      requires PHYS_SECTION_UNASSIGNED !in pages.shape.leaves && n != PHYS_MAP_NODE_NIL
      requires forall p :: index <= p < index + nb ==> pages.shape.view[p] == PHYS_SECTION_UNASSIGNED
      requires |pages.nodes| + 11 <= PHYS_MAP_NODE_NIL
      modifies pages
      ensures pages.Building() && |pages.nodes| <= old(|pages.nodes|) + 11
      ensures Packed(pages.levels, pages.Map(), pages.shape)
      ensures Updated(old(pages.shape.view), index, index + nb, n, pages.shape.view)
      ensures pages.shape.leaves == old(pages.shape.leaves) + {n}
    {
      UnassignedClear(pages.levels, pages.Map(), pages.shape, index, nb);
      pages.PageSet(index, nb, n);
      PlainIsPacked(pages.levels, pages.Map(), pages.shape);
    }

    /** register_multipage */
    method RegisterMultipage(sec: Section) returns (ok: bool)
      requires Open() && IsPiece(sec) && Unclaimed(who, sec)
      requires sec.offset % TARGET_PAGE_SIZE == 0 && sec.size % TARGET_PAGE_SIZE == 0
      modifies this, pages
      ensures ok == (old(|sections|) < TARGET_PAGE_SIZE)
      ensures ok ==> |sections| == old(|sections|) + 1 && cut == old(cut)
      ensures ok ==> Open() && who == Claim(old(who), sec) && mru == old(mru)
    {
      ghost var tb := Contents();
      UnclaimedPages(tb, sec);
      var n;
      ok, n := SectionAdd(sec);
      if !ok {
        return;
      }
      EnterPages(sec.offset / TARGET_PAGE_SIZE, sec.size / TARGET_PAGE_SIZE, n);
      who := Claim(who, sec);
      PagesKeep(tb, sec, pages.shape.view);
      PagesCut(tb, sec, pages.shape.view, cut);
      MoreInhabited(tb, sec);
    }

    /** subpage_register: points the bytes `start` to `end` of a subpage to a section. */
    method SubpageRegister(sub: nat, start: nat, end: nat, section: nat) returns (ret: int)
      requires sub < |subs| && |subs[sub]| == TARGET_PAGE_SIZE
      modifies this`subs
      ensures ret == if start >= TARGET_PAGE_SIZE || end >= TARGET_PAGE_SIZE then -1 else 0
      ensures |subs| == old(|subs|) && (forall i :: 0 <= i < |subs| && i != sub ==> subs[i] == old(subs[i]))
      ensures ret != 0 ==> subs == old(subs)
      ensures ret == 0 ==> |subs[sub]| == TARGET_PAGE_SIZE && forall i :: 0 <= i < TARGET_PAGE_SIZE ==>
                subs[sub][i] == if start <= i <= end then section else old(subs[sub][i])
    {
      if start >= TARGET_PAGE_SIZE || end >= TARGET_PAGE_SIZE {
        return -1;
      }
      var idx := start;
      while idx <= end
        invariant start <= idx && |subs| == old(|subs|)
        invariant forall i :: 0 <= i < |subs| && i != sub ==> subs[i] == old(subs[i])
        invariant |subs[sub]| == TARGET_PAGE_SIZE && forall i :: 0 <= i < TARGET_PAGE_SIZE ==>
                    subs[sub][i] == if start <= i <= end && i < idx then section else old(subs[sub][i])
      {
        var row: seq<nat> := subs[sub];
        row := row[idx := section];
        subs := subs[sub := row];
        idx := idx + 1;
      }
      return 0;
    }

    /** subpage_init and its entry into the page map, for a page that is unassigned. */
    method AddContainer(base: nat) returns (ok: bool, s: nat)
      requires Open() && base % TARGET_PAGE_SIZE == 0 && base + TARGET_PAGE_SIZE <= SPACE
      requires pages.shape.view[base / TARGET_PAGE_SIZE] == PHYS_SECTION_UNASSIGNED
      modifies this, pages
      ensures ok == (old(|sections|) < TARGET_PAGE_SIZE)
      ensures ok ==> |sections| == old(|sections|) + 1 && cut == old(cut) + {base / TARGET_PAGE_SIZE}
      ensures ok ==> OpenBut(s) && who == old(who) && mru == old(mru)
      ensures ok ==> IsContainer(sections[s], |subs|) && sections[s].offset == base
    {
      ghost var tb := Contents();
      ok, s := SectionAdd(Section(Subpage(|subs|), base, TARGET_PAGE_SIZE, 0));
      if !ok {
        return;
      }
      subs := subs + [Zeros()];
      EnterPages(base / TARGET_PAGE_SIZE, 1, s);
      ContainerKeeps(tb, base, pages.shape.view);
      ContainerCuts(tb, base, pages.shape.view, cut);
      assert Contents() == WithContainer(tb, base, pages.shape.view);
      cut := cut + {base / TARGET_PAGE_SIZE};
    }

    /** The part of register_subpage that makes sure the page has a subpage container. */
    method EnsureContainer(base: nat) returns (ok: bool, s: nat)
      requires Open() && base % TARGET_PAGE_SIZE == 0 && base + TARGET_PAGE_SIZE <= SPACE
      requires exists a :: base <= a < base + TARGET_PAGE_SIZE && a !in who
      modifies this, pages
      ensures ok <==> old(|sections| + PartCost(base / TARGET_PAGE_SIZE, cut)) - 1 <= TARGET_PAGE_SIZE
      ensures ok ==> |sections| == old(|sections| + PartCost(base / TARGET_PAGE_SIZE, cut)) - 1
      ensures ok ==> cut == old(cut) + {base / TARGET_PAGE_SIZE}
      ensures ok ==> OpenBut(s) && who == old(who) && mru == old(mru)
      ensures ok ==> IsContainer(sections[s], |subs|) && sections[s].offset == base
    {
      ghost var a: nat :| base <= a < base + TARGET_PAGE_SIZE && a !in who;
      PartialPage(Contents(), a);
      s := PageFind(base);
      assert IsCut(Contents(), base / TARGET_PAGE_SIZE) <==> sections[s].mr.Subpage?;
      if sections[s].mr.Subpage? {
        ok := true;
        assert PageLevel(Contents(), s);
      } else {
        ok, s := AddContainer(base);
      }
    }

    /** The part of register_subpage that points the piece's bytes of container `s` to the piece. */
    method EnterContainer(s: nat, sec: Section) returns (ok: bool)
      requires OpenBut(s) && IsContainer(sections[s], |subs|) && IsPiece(sec) && Unclaimed(who, sec)
      requires sections[s].offset == sec.offset - sec.offset % TARGET_PAGE_SIZE
      requires sec.offset % TARGET_PAGE_SIZE + sec.size <= TARGET_PAGE_SIZE
      modifies this
      ensures ok == (old(|sections|) < TARGET_PAGE_SIZE)
      ensures ok ==> |sections| == old(|sections|) + 1 && cut == old(cut)
      ensures ok ==> Open() && who == Claim(old(who), sec) && mru == old(mru)
    {
      ghost var tb := Contents();
      var start, n := sec.offset % TARGET_PAGE_SIZE, 0;
      ok, n := SectionAdd(sec);
      if !ok {
        return;
      }
      var ret := SubpageRegister(sections[s].mr.sub, start, start + sec.size - 1, n);
      who := Claim(who, sec);
      SubPieceKeeps(tb, s, sec, subs[tb.sections[s].mr.sub]);
      SubPieceCuts(tb, s, sec, subs[tb.sections[s].mr.sub], cut);
      assert Contents() == WithSubPiece(tb, s, sec, subs[tb.sections[s].mr.sub]);
      ClaimInhabits(tb, s, sec);
    }

    /** register_subpage: a piece inside one page. */
    method RegisterSubpage(sec: Section) returns (ok: bool)
      requires Open() && IsPiece(sec) && Unclaimed(who, sec)
      requires sec.offset % TARGET_PAGE_SIZE + sec.size <= TARGET_PAGE_SIZE
      modifies this, pages
      ensures ok <==> old(|sections| + PartCost(sec.offset / TARGET_PAGE_SIZE, cut)) <= TARGET_PAGE_SIZE
      ensures ok ==> |sections| == old(|sections| + PartCost(sec.offset / TARGET_PAGE_SIZE, cut))
      ensures ok ==> cut == old(cut) + {sec.offset / TARGET_PAGE_SIZE}
      ensures ok ==> Open() && who == Claim(old(who), sec) && mru == old(mru)
    {
      var s;
      assert sec.offset !in who;
      BasePage(sec.offset);
      ok, s := EnsureContainer(sec.offset - sec.offset % TARGET_PAGE_SIZE);
      if ok {
        ok := EnterContainer(s, sec);
      }
    }

    /** Enters the next part of what remains, as whole pages if it can. */
    method RegisterSome(remain: Section) returns (ok: bool, now: Section)
      requires Open() && IsPiece(remain) && Unclaimed(who, remain) && remain.offset % TARGET_PAGE_SIZE == 0
      modifies this, pages
      ensures now == Prefix(remain, now.size) && 0 < now.size <= remain.size
      ensures now.size < remain.size ==> now.size % TARGET_PAGE_SIZE == 0
      ensures now.size == Chunk(remain.size) && (ok <==> old(|sections| + RoundCost(remain, cut)) <= TARGET_PAGE_SIZE)
      ensures ok ==> |sections| == old(|sections| + RoundCost(remain, cut)) && cut == old(cut) + RoundCut(remain)
      ensures ok ==> Open() && who == Claim(old(who), now) && mru == old(mru)
    {
      now := remain;
      if remain.size < TARGET_PAGE_SIZE {
        ok := RegisterSubpage(now);
      } else {
        // the code's branch for an unaligned offset is never taken: see the precondition
        now := now.(size := now.size - now.size % TARGET_PAGE_SIZE);
        ok := RegisterMultipage(now);
      }
    }

    /** The loop invariant of mem_add: `section` has been entered up to `done`, and `now` is the last
        part of that. */
    ghost predicate Entered(was: map<nat, Owner>, section: Section, done: nat, remain: Section, now: Section)
      reads this, pages
    {
      Entry(was, section, done, remain, now) == Filling
    }

    ghost function Entry(was: map<nat, Owner>, section: Section, done: nat, remain: Section, now: Section): Stage
      reads this, pages
    {
      if && Open() && who == Claim(was, Prefix(section, done))
         && now.size <= done <= section.size && remain == Suffix(section, done - now.size)
         && (done < section.size ==> (section.offset + done) % TARGET_PAGE_SIZE == 0)
      then Filling
      else Other
    }

    /** The body of mem_add's loop. */
    method RegisterNext(before: Section, last: Section, ghost was: map<nat, Owner>, ghost section: Section,
                        ghost done: nat)
      returns (ok: bool, remain: Section, now: Section, ghost more: nat)
      requires IsPiece(section) && Unclaimed(was, section) && done < section.size
      requires Entered(was, section, done, before, last)
      modifies this, pages
      ensures more == done + Chunk(section.size - done)
      ensures ok <==> old(|sections| + RoundCost(Suffix(section, done), cut)) <= TARGET_PAGE_SIZE
      ensures ok ==> |sections| == old(|sections| + RoundCost(Suffix(section, done), cut))
      ensures ok ==> cut == old(cut) + RoundCut(Suffix(section, done))
      ensures ok ==> done < more && Entered(was, section, more, remain, now) && mru == old(mru)
    {
      StillUnclaimed(was, section, done);
      remain := Suffix(before, last.size);
      ok, now := RegisterSome(remain);
      more := done + now.size;
      if ok {
        ClaimJoins(was, old(who), who, section, done, more, now);
      }
    }

    /** The same, with its account. */
    method RegisterMore(before: Section, last: Section, ghost was: map<nat, Owner>, ghost section: Section,
                        ghost done: nat,
                        ghost n: nat, ghost c: set<nat>)
      returns (ok: bool, remain: Section, now: Section, ghost more: nat)
      requires IsPiece(section) && Unclaimed(was, section) && done < section.size
      requires Entered(was, section, done, before, last) && PaidUp(section, done, n, c, |sections|, cut)
      modifies this, pages
      ensures !ok ==> n + Cost(section, c) > TARGET_PAGE_SIZE
      ensures ok ==> done < more && Entered(was, section, more, remain, now) && mru == old(mru)
      ensures ok ==> PaidUp(section, more, n, c, |sections|, cut)
    {
      ghost var rest, m, cut1 := Suffix(section, done), |sections|, cut;
      PaidRound(section, done, done + Chunk(section.size - done), n, c, m, cut1, m + RoundCost(rest, cut1),
        cut1 + RoundCut(rest));
      ok, remain, now, more := RegisterNext(before, last, was, section, done);
      if ok {
        PaidRound(section, done, more, n, c, m, cut1, |sections|, cut);
      }
    }

    /** The start of mem_add: an unaligned start is entered as part of a page. */
    method RegisterFirst(section: Section) returns (ok: bool, now: Section)
      requires Open() && IsPiece(section) && Unclaimed(who, section)
      modifies this, pages
      ensures now.size == Head(section) && (ok <==> old(|sections| + HeadCost(section, cut)) <= TARGET_PAGE_SIZE)
      ensures ok ==> |sections| == old(|sections| + HeadCost(section, cut)) && cut == old(cut) + HeadCut(section)
      ensures ok ==> Entered(old(who), section, now.size, section, now) && mru == old(mru)
    {
      now := section;
      if now.offset % TARGET_PAGE_SIZE != 0 {
        var left := TARGET_PAGE_SIZE - now.offset % TARGET_PAGE_SIZE;
        now := now.(size := if left < now.size then left else now.size);
        ok := RegisterSubpage(now);
      } else {
        now := now.(size := 0);
        ok := true;
        assert who == Claim(old(who), now);
      }
    }

    /** mem_add: enters a section, whatever its alignment.  Afterwards the flat map gives exactly its
        addresses to it. */
    method MemAdd(section: Section) returns (ok: bool)
      requires Open() && IsPiece(section) && Unclaimed(who, section)
      modifies this, pages
      ensures ok <==> old(|sections| + Cost(section, cut)) <= TARGET_PAGE_SIZE
      ensures ok ==> |sections| == old(|sections| + Cost(section, cut))
      ensures ok ==> cut == old(cut) + PartPages(section)
      ensures ok ==> Open() && who == Claim(old(who), section) && mru == old(mru)
    {
      PaidFirst(section, |sections|, cut);
      var now;
      ok, now := RegisterFirst(section);
      if ok {
        ok := RegisterRest(section, now, old(who), old(|sections|), old(cut));
      }
    }

    /** The loop of mem_add.  Before the section was begun, `n` numbers were taken and the pages of `c` were cut. */
    method RegisterRest(section: Section, first: Section, ghost was: map<nat, Owner>, ghost n: nat, ghost c: set<nat>)
      returns (ok: bool)
      requires IsPiece(section) && Unclaimed(was, section)
      requires Entered(was, section, first.size, section, first) && PaidUp(section, first.size, n, c, |sections|, cut)
      modifies this, pages
      ensures ok <==> n + Cost(section, c) <= TARGET_PAGE_SIZE
      ensures ok ==> |sections| == n + Cost(section, c) && cut == c + PartPages(section)
      ensures ok ==> Open() && who == Claim(was, section) && mru == old(mru)
    {
      ok := true;
      var remain, now := section, first;
      ghost var done := now.size;
      while ok && remain.size != now.size
        invariant !ok ==> n + Cost(section, c) > TARGET_PAGE_SIZE
        invariant ok ==> Entered(was, section, done, remain, now) && mru == old(mru)
        invariant ok ==> PaidUp(section, done, n, c, |sections|, cut)
        decreases ok, section.size - done
      {
        ok, remain, now, done := RegisterMore(remain, now, was, section, done, n, c);
      }
      if ok {
        PaidAll(section, n, c, |sections|, cut);
      }
    }

    /** mem_commit compresses the map; what it stands for stays the same. */
    method MemCommit()
      requires Open()
      modifies pages`root, pages`nodes
      ensures Valid() && Contents() == old(Contents())
    {
      if pages.root.skip > 0 {
        pages.Compact(Root);
      }
    }

    /** What the cache may hold: a section that covers an address only if the lookup of the address
        leads to it. */
    ghost predicate MruOk()
      reads this, pages
    {
      mru.Some? ==>
        || mru.value == PHYS_SECTION_UNASSIGNED
        || mru.value in pages.shape.leaves
        || (4 <= mru.value < |sections| && sections[mru.value].mr.Device?)
    }

    /** address_space_lookup_region.  After any history of lookups of both kinds, a lookup that
        resolves subpages finds the section that owns the address, and one that does not finds this
        section or the one of the page. */
    method LookupRegion(addr: nat, resolveSubpage: bool) returns (s: nat)
      requires Valid() && MruOk() && addr < SPACE
      modifies this`mru
      ensures Valid() && MruOk() && s < |sections|
      ensures resolveSubpage ==> s == Target(Contents(), addr)
      ensures !resolveSubpage ==> s == Target(Contents(), addr) || s == pages.shape.view[addr / TARGET_PAGE_SIZE]
    {
      CachedLeads(Contents(), addr);
      var update := true;
      if mru.Some? && mru.value != PHYS_SECTION_UNASSIGNED && Covers(sections[mru.value], addr) {
        s := mru.value;
        update := false;
      } else {
        s := PageFind(addr);
      }
      assert FlatAt(Contents(), addr);
      assert s in pages.shape.leaves ==> PageLevel(Contents(), s);
      if resolveSubpage && sections[s].mr.Subpage? {
        s := subs[sections[s].mr.sub][addr % TARGET_PAGE_SIZE];
      }
      if update {
        mru := Some(s);
      }
    }

    /** address_space_translate_internal: the owner of the address, the offset in its region, and for
        RAM a length that stays with that owner. */
    method Translate(addr: nat, len: nat) returns (mr: Region, xlat: int, plen: nat)
      requires Valid() && MruOk() && addr < SPACE
      modifies this`mru
      ensures Valid() && MruOk()
      ensures addr !in who ==> mr == Unassigned && xlat == addr
      ensures addr in who ==> who[addr] == Owner(mr, xlat - addr)
      ensures plen <= len && (!(mr.Device? && mr.ram) ==> plen == len)
      ensures mr.Device? && mr.ram ==>
                forall a: nat :: addr <= a < addr + plen ==> a in who && who[a] == Owner(mr, xlat - addr)
    {
      var s := LookupRegion(addr, true);
      assert FlatAt(Contents(), addr);
      var section := sections[s];
      xlat := addr - section.offset + section.regionOffset;
      mr := section.mr;
      plen := len;
      if mr.Device? && mr.ram {
        var diff := section.size - (addr - section.offset);
        plen := if diff < plen then diff else plen;
        forall a: nat | addr <= a < addr + plen
          ensures a in who && who[a] == OwnerOf(section)
        {
          assert IsPiece(section) && InRange(section, a);
          assert FlatAt(Contents(), a);
        }
      }
    }
  }

  /** A cached section that covers the address is the one the page map leads to. */
  lemma {:induction false} CachedLeads(tb: Tables, addr: nat)
    requires SectionsOk(tb) && ViewOk(tb) && Exact(tb) && addr < SPACE
    ensures forall s :: s in tb.leaves ==>
              4 <= s < |tb.sections| && (Covers(tb.sections[s], addr) ==> tb.view[addr / TARGET_PAGE_SIZE] == s)
    ensures forall s :: 4 <= s < |tb.sections| && tb.sections[s].mr.Device? && Covers(tb.sections[s], addr) ==>
              Target(tb, addr) == s
  {
    forall s | s in tb.leaves
      ensures 4 <= s < |tb.sections| && (Covers(tb.sections[s], addr) ==> tb.view[addr / TARGET_PAGE_SIZE] == s)
    {
      assert PageLevel(tb, s);
      CoversInRange(tb.sections[s], addr);
    }
    forall s | 4 <= s < |tb.sections| && tb.sections[s].mr.Device? && Covers(tb.sections[s], addr)
      ensures Target(tb, addr) == s
    {
      CoversInRange(tb.sections[s], addr);
    }
  }

  /** Pages that the view leaves unassigned are not under a superpage leaf. */
  lemma {:induction false} UnassignedClear(levels: nat, t: Tree, sh: Shape, index: nat, nb: nat)
    requires Plain(levels, t, sh) && PHYS_SECTION_UNASSIGNED !in sh.leaves && index + nb <= |sh.view|
    requires forall p :: index <= p < index + nb ==> sh.view[p] == PHYS_SECTION_UNASSIGNED
    ensures Clear(levels, t, sh, index, nb)
  {
    forall loc | LocOk(t, sh, loc) && Get(t, loc).skip == 0 && PlaceOf(levels, sh, loc).h >= 1
      ensures Misses(PlaceOf(levels, sh, loc), index, nb)
    {
      assert Fits(sh, PlaceOf(levels, sh, loc), Get(t, loc));
    }
  }

  lemma {:induction false} SpaceFits()
    ensures Step(P_L2_LEVELS) == 0x40_0000_0000_0000 && SPACE <= Step(P_L2_LEVELS) * TARGET_PAGE_SIZE
  {
    assert Step(0) == 1;
    assert Step(1) == 512;
    assert Step(2) == 512 * 512;
    assert Step(3) == 512 * 512 * 512;
    assert Step(4) == 512 * 512 * 512 * 512;
    assert Step(5) == 512 * 512 * 512 * 512 * 512;
  }

  /** section_covers_addr recovers the index bits that compression does not look at. */
  lemma {:induction false} FoundCovers(tb: Tables, s: nat, addr: nat)
    requires SectionsOk(tb) && ViewOk(tb) && addr < SPACE
    requires s in tb.leaves || s == PHYS_SECTION_UNASSIGNED
    requires tb.view[addr / TARGET_PAGE_SIZE] == s || tb.view[addr / TARGET_PAGE_SIZE] == PHYS_SECTION_UNASSIGNED
    ensures s < |tb.sections|
    ensures (if Covers(tb.sections[s], addr) then s else PHYS_SECTION_UNASSIGNED) == tb.view[addr / TARGET_PAGE_SIZE]
  {
    if s != PHYS_SECTION_UNASSIGNED {
      assert PageLevel(tb, s);
      CoversInRange(tb.sections[s], addr);
    }
  }

  // ---------------------------------------------------------------------------------------------
  // From a list of sections to the answers
  // ---------------------------------------------------------------------------------------------

  ghost predicate Disjoint(list: seq<Section>) {
    forall i, j, a: nat :: 0 <= i < j < |list| && InRange(list[i], a) ==> !InRange(list[j], a)
  }

  predicate Pieces(list: seq<Section>) {
    forall i :: 0 <= i < |list| ==> IsPiece(list[i])
  }

  /** The flat map of a list of sections. */
  function FlatMap(list: seq<Section>): map<nat, Owner> {
    if list == [] then map[] else Claim(FlatMap(list[..|list| - 1]), list[|list| - 1])
  }

  /** The flat map of disjoint sections is defined where a section lies, and there by that section. */
  lemma {:induction false} FlatMapAt(list: seq<Section>, a: nat)
    requires Disjoint(list)
    ensures a in FlatMap(list) <==> exists i :: 0 <= i < |list| && InRange(list[i], a)
    ensures forall i :: 0 <= i < |list| && InRange(list[i], a) ==>
              a in FlatMap(list) && FlatMap(list)[a] == OwnerOf(list[i])
  {
    if list != [] {
      var front := list[..|list| - 1];
      FlatMapAt(front, a);
      assert forall i :: 0 <= i < |front| ==> front[i] == list[i];
    }
  }

  lemma {:induction false} NextUnclaimed(list: seq<Section>, k: nat)
    requires Disjoint(list) && k < |list|
    ensures Unclaimed(FlatMap(list[..k]), list[k])
  {
    forall a: nat | InRange(list[k], a)
      ensures a !in FlatMap(list[..k])
    {
      FlatMapAt(list[..k], a);
    }
  }

  /** The section numbers that a list takes: the four of mem_begin, one for each piece, and one for each page of which
      some section has a part. */
  function AllParts(list: seq<Section>): set<nat> {
    if list == [] then {} else AllParts(list[..|list| - 1]) + PartPages(list[|list| - 1])
  }

  function AllPieces(list: seq<Section>): nat {
    if list == [] then 0 else AllPieces(list[..|list| - 1]) + PieceCount(list[|list| - 1])
  }

  function Numbers(list: seq<Section>): nat {
    4 + AllPieces(list) + |AllParts(list)|
  }

  lemma {:induction false} NumbersNext(list: seq<Section>, k: nat)
    requires k < |list|
    ensures Numbers(list[..k + 1]) == Numbers(list[..k]) + Cost(list[k], AllParts(list[..k]))
    ensures AllParts(list[..k + 1]) == AllParts(list[..k]) + PartPages(list[k])
  {
    var front, all := list[..k], list[..k + 1];
    assert all[..k] == front;
    var parts, more := AllParts(front), PartPages(list[k]);
    CostIs(list[k], parts);
    assert parts + more == parts + (more - parts);
  }

  /** More sections take more numbers. */
  lemma {:induction false} NumbersGrow(list: seq<Section>, k: nat)
    requires k <= |list|
    ensures Numbers(list[..k]) <= Numbers(list)
    decreases |list| - k
  {
    if k < |list| {
      NumbersNext(list, k);
      NumbersGrow(list, k + 1);
    } else {
      assert list[..k] == list;
    }
  }

  /** Five numbers are enough for any section, so that up to 818 never reach the assertion of phys_section_add. */
  lemma {:induction false} NumbersBound(list: seq<Section>)
    ensures Numbers(list) <= 4 + 5 * |list|
    decreases |list|
  {
    if list != [] {
      var n := |list| - 1;
      NumbersBound(list[..n]);
      NumbersNext(list, n);
      assert list[..n + 1] == list;
      CostBound(list[n], AllParts(list[..n]));
    }
  }

  lemma {:induction false} CostBound(s: Section, cut: set<nat>)
    ensures Cost(s, cut) <= 5
  {
  }

  /** Devices of one page each. */
  function OnePages(n: nat): (r: seq<Section>)
    ensures |r| == n
  {
    seq(n, i requires 0 <= i < n => Section(Device(i, false), i * TARGET_PAGE_SIZE, TARGET_PAGE_SIZE, 0))
  }

  /** They take one number each, so that 4093 of them are too many. */
  lemma {:induction false} OnePagesTake(n: nat)
    requires n * TARGET_PAGE_SIZE <= SPACE
    ensures Pieces(OnePages(n)) && Disjoint(OnePages(n)) && Numbers(OnePages(n)) == 4 + n
  {
    OnePagesCount(n);
  }

  lemma {:induction false} OnePagesCount(n: nat)
    ensures AllPieces(OnePages(n)) == n && AllParts(OnePages(n)) == {}
  {
    if n > 0 {
      assert OnePages(n)[..n - 1] == OnePages(n - 1);
      OnePagesCount(n - 1);
    }
  }

  /** A whole memory transaction: mem_begin, mem_add for each section, mem_commit.  It reaches the assertion of
      phys_section_add exactly if the list takes more section numbers than fit a page offset. */
  method Commit(list: seq<Section>) returns (ok: bool, d: AddressSpaceDispatch)
    requires Pieces(list) && Disjoint(list)
    ensures fresh(d) && fresh(d.pages)
    ensures ok <==> Numbers(list) <= TARGET_PAGE_SIZE
    ensures ok ==> d.Valid() && d.MruOk() && d.who == FlatMap(list) && |d.sections| == Numbers(list)
  {
    d := new AddressSpaceDispatch();
    ok := true;
    var i := 0;
    while ok && i < |list|
      invariant 0 <= i <= |list| && fresh(d) && fresh(d.pages)
      invariant if ok then Added(d, list, i) else Numbers(list) > TARGET_PAGE_SIZE
      decreases ok, |list| - i
    {
      ok := AddNext(d, list, i);
      i := i + 1;
    }
    if ok {
      assert list[..i] == list;
      d.MemCommit();
    }
  }

  /** The first `k` sections of the list have been added. */
  ghost predicate Added(d: AddressSpaceDispatch, list: seq<Section>, k: nat)
    requires k <= |list|
    reads d, d.pages
  {
    Progress(d, list[..k]) == Filling
  }

  ghost function Progress(d: AddressSpaceDispatch, list: seq<Section>): Stage
    reads d, d.pages
  {
    if d.Open() && d.mru == None && d.who == FlatMap(list) && |d.sections| == Numbers(list) && d.cut == AllParts(list)
    then Filling
    else Other
  }

  method AddNext(d: AddressSpaceDispatch, list: seq<Section>, k: nat) returns (ok: bool)
    requires Pieces(list) && Disjoint(list) && k < |list| && Added(d, list, k)
    modifies d, d.pages
    ensures if ok then Added(d, list, k + 1) else Numbers(list) > TARGET_PAGE_SIZE
  {
    NextUnclaimed(list, k);
    NumbersNext(list, k);
    NumbersGrow(list, k + 1);
    ok := d.MemAdd(list[k]);
    assert list[..k + 1][..k] == list[..k];
  }

  lemma {:induction false} NothingCut(tb: Tables)
    requires ViewOk(tb) && tb.sections == DUMMIES
    ensures CutIs(tb, {})
  {
    forall p: nat
      ensures !IsCut(tb, p)
    {
      assert p < |tb.view| && tb.view[p] in tb.leaves ==> PageLevel(tb, tb.view[p]);
    }
  }

  /** End to end: after any history of lookups, resolving or not, every address is answered with the
      one section that contains it and the original offset in its region, or with the unassigned
      region if there is none. */
  method LookupAfter(list: seq<Section>, history: seq<(nat, bool)>, addr: nat) returns (ok: bool, mr: Region, xlat: int)
    requires Pieces(list) && Disjoint(list) && addr < SPACE
    requires forall i :: 0 <= i < |history| ==> history[i].0 < SPACE
    ensures ok <==> Numbers(list) <= TARGET_PAGE_SIZE
    ensures |list| <= 818 ==> ok
    ensures ok ==> forall i :: 0 <= i < |list| && InRange(list[i], addr) ==>
              mr == list[i].mr && xlat == list[i].regionOffset + (addr - list[i].offset)
    ensures ok && (forall i :: 0 <= i < |list| ==> !InRange(list[i], addr)) ==> mr == Unassigned && xlat == addr
  {
    var d;
    NumbersBound(list);
    ok, d := Commit(list);
    mr, xlat := Unassigned, 0;
    if ok {
      for k := 0 to |history|
        invariant d.Valid() && d.MruOk() && d.who == FlatMap(list)
      {
        var s := d.LookupRegion(history[k].0, history[k].1);
      }
      var plen;
      mr, xlat, plen := d.Translate(addr, 1);
      FlatMapAt(list, addr);
    }
  }
}
