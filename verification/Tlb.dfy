/** The software TLB of cputlb.c: direct-mapped tables with a victim table behind them, one coarse
    region that stands for all large pages, and the flushes.  A ghost history records installs and
    flushes; the invariant says that no entry outlives a flush that names its guest page. */
module Tlb {
  import opened Arithmetic

  const ADDRESS_BITS: nat := 64
  const TARGET_PAGE_BITS: nat := 12
  const TARGET_PAGE_SIZE: nat := 0x1000
  const CPU_TLB_SIZE: nat := 256
  const CPU_VTLB_SIZE: nat := 8

  type address = a: nat | a < Pow2(ADDRESS_BITS)

  /** `a` shifted right by `k`.  Masking with the mask that clears the low `k` bits is the same as
      comparing what is left after the shift. */
  function Up(a: nat, k: nat): nat {
    if k == 0 then a else Up(a, k - 1) / 2
  }

  function PageOf(a: address): address {
    a - a % TARGET_PAGE_SIZE
  }

  function Index(a: address): (r: nat)
    ensures r < CPU_TLB_SIZE
  {
    a / TARGET_PAGE_SIZE % CPU_TLB_SIZE
  }

  lemma {:induction false} PageIndex(a: address)
    ensures Index(PageOf(a)) == Index(a)
  {
  }

  lemma {:induction false} PageBits()
    ensures Pow2(TARGET_PAGE_BITS) == TARGET_PAGE_SIZE
  {
    assert Pow2(4) == 16;
    assert Pow2(8) == 256;
  }

  lemma {:induction false} Halves(a: nat, p: nat)
    requires p > 0
    ensures a / p / 2 == a / (2 * p)
  {
    var q, r := a / p / 2, a - 2 * p * (a / p / 2);
    assert a / p == 2 * q + a / p % 2;
    assert a == p * (a / p) + a % p;
    assert p * (a / p) == 2 * p * q + p * (a / p % 2);
    assert 0 <= r < 2 * p;
    assert a == q * (2 * p) + r;
    DivOf(q, 2 * p, r);
  }

  lemma {:induction false} UpDiv(a: nat, k: nat)
    ensures Up(a, k) == a / Pow2(k)
  {
    if k > 0 {
      UpDiv(a, k - 1);
      Halves(a, Pow2(k - 1));
    }
  }

  lemma {:induction false} UpPage(a: nat)
    ensures Up(a, TARGET_PAGE_BITS) == a / TARGET_PAGE_SIZE
  {
    UpDiv(a, TARGET_PAGE_BITS);
    PageBits();
  }

  /** Addresses that agree above `k` agree above any larger shift. */
  lemma {:induction false} UpAgree(a: nat, b: nat, k: nat, l: nat)
    requires Up(a, k) == Up(b, k) && k <= l
    ensures Up(a, l) == Up(b, l)
    decreases l
  {
    if k < l {
      UpAgree(a, b, k, l - 1);
    }
  }

  lemma {:induction false} UpZero(a: nat, k: nat)
    requires a < Pow2(k)
    ensures Up(a, k) == 0
  {
    UpDiv(a, k);
    DivOf(0, Pow2(k), a);
  }

  // ---------------------------------------------------------------------------------------------
  // Entries
  // ---------------------------------------------------------------------------------------------

  /** A comparator word: all ones, or a page address with flags in the bits below the page. */
  datatype Cmp = Never | For(page: address, notDirty: bool, mmio: bool)

  /** CPUTLBEntry and CPUIOTLBEntry */
  datatype Entry = Entry(read: Cmp, write: Cmp, code: Cmp, addend: int)
  datatype Io = Io(addr: int, attrs: nat)

  const DEAD: Entry := Entry(Never, Never, Never, -1)

  predicate Live(e: Entry) {
    e.read.For? || e.write.For? || e.code.For?
  }

  predicate Matches(c: Cmp, page: address) {
    c.For? && c.page == page
  }

  /** One of the comparators matches the page: the test of tlb_flush_entry and of every lookup. */
  predicate Hit(e: Entry, page: address) {
    Matches(e.read, page) || Matches(e.write, page) || Matches(e.code, page)
  }

  // ---------------------------------------------------------------------------------------------
  // History
  // ---------------------------------------------------------------------------------------------

  /** What happened: an install for a guest page of 2^shift bytes, or a flush. */
  datatype Event =
    | Install(mode: nat, vaddr: address, shift: nat, entry: Entry, io: Io)
    | FlushAll
    | FlushModes(modes: set<nat>)
    | FlushPage(addr: address)
    | FlushPageModes(addr: address, modes: set<nat>)

  /** An address lies in the guest page that an install belongs to. */
  predicate InPage(x: address, vaddr: address, shift: nat) {
    Up(x, shift) == Up(vaddr, shift)
  }

  /** A flush names the translation that an install made. */
  predicate Names(f: Event, i: Event)
    requires i.Install?
  {
    match f
    case Install(_, _, _, _, _) => false
    case FlushAll => true
    case FlushModes(modes) => i.mode in modes
    case FlushPage(addr) => InPage(addr, i.vaddr, i.shift)
    case FlushPageModes(addr, modes) => i.mode in modes && InPage(addr, i.vaddr, i.shift)
  }

  /** A comparator is for the page or can never match. */
  predicate ForPage(c: Cmp, page: address) {
    c.For? ==> c.page == page
  }

  predicate WellFormed(i: Event) {
    && i.Install? && PageOf(i.vaddr) == i.vaddr && TARGET_PAGE_BITS <= i.shift
    && ForPage(i.entry.read, i.vaddr) && ForPage(i.entry.write, i.vaddr) && ForPage(i.entry.code, i.vaddr)
  }

  /** The same comparator; setting or clearing the not-dirty flag does not matter. */
  predicate Alike(c: Cmp, d: Cmp) {
    c == d || (c.For? && d.For? && c.page == d.page && c.mmio == d.mmio)
  }

  /** The same translation. */
  predicate Same(e: Entry, i: Entry) {
    e.read == i.read && Alike(e.write, i.write) && e.code == i.code && e.addend == i.addend
  }

  /** tlb_flush_addr and tlb_flush_mask: no region, or all addresses that agree with `addr` above
      `shift`. */
  datatype Region = NoRegion | Region(addr: address, shift: nat)

  predicate Inside(r: Region, x: address) {
    r.Region? && Up(x, r.shift) == Up(r.addr, r.shift)
  }

  /** The region contains all of an install's guest page. */
  ghost predicate Covered(r: Region, i: Event)
    requires i.Install?
  {
    forall x: address :: InPage(x, i.vaddr, i.shift) ==> Inside(r, x)
  }

  /** The history and the large-page region. */
  datatype Past = Past(h: seq<Event>, region: Region)

  /** An entry comes from install number `t`, which no later flush names. */
  ghost predicate Backed(p: Past, t: nat, m: nat, e: Entry, io: Io) {
    && t < |p.h| && WellFormed(p.h[t]) && p.h[t].mode == m && Same(e, p.h[t].entry) && p.h[t].io == io
    && (forall u :: t < u < |p.h| ==> !Names(p.h[u], p.h[t]))
    && (p.h[t].shift != TARGET_PAGE_BITS ==> Covered(p.region, p.h[t]))
  }

  ghost predicate SlotOk(p: Past, m: nat, e: Entry, io: Io) {
    Live(e) ==> exists t :: Backed(p, t, m, e, io)
  }

  /** A main-table entry is where a lookup of its page looks. */
  predicate Placed(e: Entry, i: nat) {
    && (e.read.For? ==> Index(e.read.page) == i)
    && (e.write.For? ==> Index(e.write.page) == i)
    && (e.code.For? ==> Index(e.code.page) == i)
  }

  /** One region contains another. */
  ghost predicate Contains(r: Region, r': Region) {
    forall x: address :: Inside(r, x) ==> Inside(r', x)
  }

  // ---------------------------------------------------------------------------------------------
  // What the events do to an entry
  // ---------------------------------------------------------------------------------------------

  lemma {:induction false} BackedNext(p: Past, f: Event, t: nat, m: nat, e: Entry, io: Io)
    requires Backed(p, t, m, e, io) && !Names(f, p.h[t])
    ensures Backed(Past(p.h + [f], p.region), t, m, e, io)
  {
  }

  /** An install elsewhere leaves an entry as good as it was. */
  lemma {:induction false} SlotInstall(p: Past, i: Event, r: Region, m: nat, e: Entry, io: Io)
    requires SlotOk(p, m, e, io) && i.Install? && Contains(p.region, r)
    ensures SlotOk(Past(p.h + [i], r), m, e, io)
  {
    if Live(e) {
      var t: nat :| Backed(p, t, m, e, io);
      assert Backed(Past(p.h + [i], r), t, m, e, io);
    }
  }

  /** The entry that an install makes is good. */
  lemma {:induction false} SlotInstalled(p: Past, i: Event, r: Region)
    requires WellFormed(i) && (i.shift != TARGET_PAGE_BITS ==> Covered(r, i))
    ensures SlotOk(Past(p.h + [i], r), i.mode, i.entry, i.io)
  {
    assert Backed(Past(p.h + [i], r), |p.h|, i.mode, i.entry, i.io);
  }

  /** A flush of other modes leaves an entry as good as it was. */
  lemma {:induction false} SlotOtherMode(p: Past, f: Event, m: nat, e: Entry, io: Io)
    requires SlotOk(p, m, e, io) && (f.FlushModes? || f.FlushPageModes?) && m !in f.modes
    ensures SlotOk(Past(p.h + [f], p.region), m, e, io)
  {
    if Live(e) {
      var t: nat :| Backed(p, t, m, e, io);
      BackedNext(p, f, t, m, e, io);
    }
  }

  lemma {:induction false} SmallPage(addr: address, vaddr: address)
    requires PageOf(vaddr) == vaddr && InPage(addr, vaddr, TARGET_PAGE_BITS)
    ensures PageOf(addr) == vaddr
  {
    UpPage(addr);
    UpPage(vaddr);
  }

  /** A page flush outside the large-page region that does not hit an entry does not name it. */
  lemma {:induction false} NotNamed(p: Past, f: Event, t: nat, m: nat, e: Entry, io: Io)
    requires Backed(p, t, m, e, io) && Live(e) && (f.FlushPage? || f.FlushPageModes?)
    requires !Inside(p.region, f.addr) && !Hit(e, PageOf(f.addr))
    ensures !Names(f, p.h[t])
  {
    var i := p.h[t];
    if InPage(f.addr, i.vaddr, i.shift) && i.shift == TARGET_PAGE_BITS {
      SmallPage(f.addr, i.vaddr);
    }
  }

  /** Such a flush leaves the entry as good as it was. */
  lemma {:induction false} SlotMissed(p: Past, f: Event, m: nat, e: Entry, io: Io)
    requires SlotOk(p, m, e, io) && (f.FlushPage? || f.FlushPageModes?)
    requires !Inside(p.region, f.addr) && !Hit(e, PageOf(f.addr))
    ensures SlotOk(Past(p.h + [f], p.region), m, e, io)
  {
    if Live(e) {
      var t: nat :| Backed(p, t, m, e, io);
      NotNamed(p, f, t, m, e, io);
      BackedNext(p, f, t, m, e, io);
    }
  }

  /** An entry in another place of the main table is not hit. */
  lemma {:induction false} PlacedMissed(e: Entry, i: nat, addr: address)
    requires Placed(e, i) && Index(addr) != i
    ensures !Hit(e, PageOf(addr))
  {
    PageIndex(addr);
  }

  /** tlb_flush_entry */
  function FlushEntry(e: Entry, page: address): Entry {
    if Hit(e, page) then DEAD else e
  }

  /** A flushed slot is good after a page flush. */
  lemma {:induction false} SlotFlushed(p: Past, f: Event, m: nat, e: Entry, io: Io)
    requires SlotOk(p, m, e, io) && (f.FlushPage? || f.FlushPageModes?) && !Inside(p.region, f.addr)
    ensures SlotOk(Past(p.h + [f], p.region), m, FlushEntry(e, PageOf(f.addr)), io)
  {
    if !Hit(e, PageOf(f.addr)) {
      SlotMissed(p, f, m, e, io);
    }
  }

  // ---------------------------------------------------------------------------------------------
  // The TLB of one CPU
  // ---------------------------------------------------------------------------------------------

  datatype Access = Load | Store | Fetch

  function Comparator(e: Entry, a: Access): Cmp {
    match a
    case Load => e.read
    case Store => e.write
    case Fetch => e.code
  }

  /** The TLB part of CPUArchState. */
  class CpuTlb {
    const modes: nat                  // NB_MMU_MODES
    const table: array2<Entry>
    const iotlb: array2<Io>
    const vtable: array2<Entry>
    const iotlbV: array2<Io>
    var vtlbIndex: nat
    var region: Region                // tlb_flush_addr and tlb_flush_mask
    ghost var history: seq<Event>

    ghost predicate Shape() {
      && table.Length0 == iotlb.Length0 == vtable.Length0 == iotlbV.Length0 == modes
      && table.Length1 == iotlb.Length1 == CPU_TLB_SIZE && vtable.Length1 == iotlbV.Length1 == CPU_VTLB_SIZE
      && table != vtable && iotlb != iotlbV
    }

    ghost predicate MainOk(p: Past)
      requires Shape()
      reads table, iotlb
    {
      forall m, i :: 0 <= m < modes && 0 <= i < CPU_TLB_SIZE ==>
                       SlotOk(p, m, table[m, i], iotlb[m, i]) && Placed(table[m, i], i)
    }

    ghost predicate VictimsOk(p: Past)
      requires Shape()
      reads vtable, iotlbV
    {
      forall m, k :: 0 <= m < modes && 0 <= k < CPU_VTLB_SIZE ==> SlotOk(p, m, vtable[m, k], iotlbV[m, k])
    }

    predicate RegionOk()
      reads this
    {
      region.Region? ==> region.shift <= ADDRESS_BITS
    }

    /** Every entry that can be hit, in the main table or the victim table, has its own I/O entry and
        comes from an install that no later flush names. */
    ghost predicate Valid()
      reads this, table, iotlb, vtable, iotlbV
    {
      Shape() && RegionOk() && MainOk(Past(history, region)) && VictimsOk(Past(history, region))
    }

    constructor (modes: nat)
      ensures Valid() && history == [] && this.modes == modes
      ensures fresh(table) && fresh(iotlb) && fresh(vtable) && fresh(iotlbV)
    {
      this.modes := modes;
      table := new Entry[modes, CPU_TLB_SIZE]((_, _) => DEAD);
      iotlb := new Io[modes, CPU_TLB_SIZE]((_, _) => Io(0, 0));
      vtable := new Entry[modes, CPU_VTLB_SIZE]((_, _) => DEAD);
      iotlbV := new Io[modes, CPU_VTLB_SIZE]((_, _) => Io(0, 0));
      vtlbIndex, region := 0, NoRegion;
      history := [];
    }

    /** tlb_add_large_page: the region grows to contain the new page. */
    method AddLargePage(vaddr: address, shift: nat)
      requires RegionOk() && shift <= ADDRESS_BITS
      modifies this`region
      ensures RegionOk() && Contains(old(region), region) && Contains(Region(vaddr, shift), region)
      ensures old(region).NoRegion? ==> region == Region(vaddr, shift)
      ensures old(region).Region? ==>
                && region.Region? && region.addr == old(region).addr
                && Up(region.addr, region.shift) == Up(vaddr, region.shift)
      ensures old(region).Region? ==> forall k :: shift <= k < region.shift && old(region).shift <= k ==>
                Up(region.addr, k) != Up(vaddr, k)
    {
      if region.NoRegion? {
        region := Region(vaddr, shift);
        return;
      }
      var was := region;
      var k := if shift < was.shift then was.shift else shift;
      while Up(was.addr, k) != Up(vaddr, k)
        invariant shift <= k <= ADDRESS_BITS && was.shift <= k
        invariant forall j :: shift <= j < k && was.shift <= j ==> Up(was.addr, j) != Up(vaddr, j)
        decreases ADDRESS_BITS - k
      {
        if k == ADDRESS_BITS {
          UpZero(was.addr, k);
          UpZero(vaddr, k);
        }
        k := k + 1;
      }
      region := Region(was.addr, k);
      RegionJoins(was, vaddr, shift, k);
    }

    /** tlb_flush_nocheck */
    method Clear()
      requires Shape()
      modifies this`vtlbIndex, this`region, table, vtable
      ensures region == NoRegion && vtlbIndex == 0 && forall h :: MainOk(Past(h, region)) && VictimsOk(Past(h, region))
      ensures forall m, i :: 0 <= m < modes && 0 <= i < CPU_TLB_SIZE ==> table[m, i] == DEAD
      ensures forall m, k :: 0 <= m < modes && 0 <= k < CPU_VTLB_SIZE ==> vtable[m, k] == DEAD
    {
      forall m, i | 0 <= m < modes && 0 <= i < CPU_TLB_SIZE {
        table[m, i] := DEAD;
      }
      forall m, k | 0 <= m < modes && 0 <= k < CPU_VTLB_SIZE {
        vtable[m, k] := DEAD;
      }
      vtlbIndex, region := 0, NoRegion;
    }

    /** tlb_flush on the CPU's own thread. */
    method Flush()
      requires Valid()
      modifies this`vtlbIndex, this`region, this`history, table, vtable
      ensures Valid() && history == old(history) + [FlushAll] && region == NoRegion && vtlbIndex == 0
      ensures forall m, i :: 0 <= m < modes && 0 <= i < CPU_TLB_SIZE ==> table[m, i] == DEAD
      ensures forall m, k :: 0 <= m < modes && 0 <= k < CPU_VTLB_SIZE ==> vtable[m, k] == DEAD
    {
      Clear();
      history := history + [FlushAll];
    }

    /** tlb_flush_by_mmuidx_async_work without the history. */
    method ClearModes(which: set<nat>)
      requires Shape()
      modifies table, vtable
      ensures forall m, i :: 0 <= m < modes && 0 <= i < CPU_TLB_SIZE ==>
                table[m, i] == if m in which then DEAD else old(table[m, i])
      ensures forall m, k :: 0 <= m < modes && 0 <= k < CPU_VTLB_SIZE ==>
                vtable[m, k] == if m in which then DEAD else old(vtable[m, k])
    {
      for m := 0 to modes
        invariant forall n, i :: 0 <= n < modes && 0 <= i < CPU_TLB_SIZE ==>
                    table[n, i] == if n < m && n in which then DEAD else old(table[n, i])
        invariant forall n, k :: 0 <= n < modes && 0 <= k < CPU_VTLB_SIZE ==>
                    vtable[n, k] == if n < m && n in which then DEAD else old(vtable[n, k])
      {
        if m in which {
          forall i | 0 <= i < CPU_TLB_SIZE {
            table[m, i] := DEAD;
          }
          forall k | 0 <= k < CPU_VTLB_SIZE {
            vtable[m, k] := DEAD;
          }
        }
      }
    }

    /** tlb_flush_by_mmuidx_async_work; `f` is what was asked for. */
    method FlushByModes(which: set<nat>, ghost f: Event)
      requires Valid() && (f.FlushModes? || f.FlushPageModes?) && f.modes == which
      modifies this`history, table, vtable
      ensures Valid() && history == old(history) + [f]
      ensures forall m, i :: 0 <= m < modes && 0 <= i < CPU_TLB_SIZE ==>
                table[m, i] == if m in which then DEAD else old(table[m, i])
      ensures forall m, k :: 0 <= m < modes && 0 <= k < CPU_VTLB_SIZE ==>
                vtable[m, k] == if m in which then DEAD else old(vtable[m, k])
    {
      ghost var p := Past(history, region);
      ClearModes(which);
      history := history + [f];
      forall m, i | 0 <= m < modes && 0 <= i < CPU_TLB_SIZE
        ensures SlotOk(Past(history, region), m, table[m, i], iotlb[m, i])
      {
        if m !in which {
          SlotOtherMode(p, f, m, table[m, i], iotlb[m, i]);
        }
      }
      forall m, k | 0 <= m < modes && 0 <= k < CPU_VTLB_SIZE
        ensures SlotOk(Past(history, region), m, vtable[m, k], iotlbV[m, k])
      {
        if m !in which {
          SlotOtherMode(p, f, m, vtable[m, k], iotlbV[m, k]);
        }
      }
    }

    /** The two loops of the page flushes, over the main and the victim table. */
    method FlushEntries(page: address, which: set<nat>)
      requires Shape()
      modifies table, vtable
      ensures forall m, i :: 0 <= m < modes && 0 <= i < CPU_TLB_SIZE ==>
                table[m, i] == if m in which && i == Index(page) then FlushEntry(old(table[m, i]), page)
                  else old(table[m, i])
      ensures forall m, k :: 0 <= m < modes && 0 <= k < CPU_VTLB_SIZE ==>
                vtable[m, k] == if m in which then FlushEntry(old(vtable[m, k]), page) else old(vtable[m, k])
    {
      for m := 0 to modes
        invariant forall n, i :: 0 <= n < modes && 0 <= i < CPU_TLB_SIZE ==>
                    table[n, i] == if n < m && n in which && i == Index(page) then FlushEntry(old(table[n, i]), page)
                                   else old(table[n, i])
        invariant forall n, k :: 0 <= n < modes && 0 <= k < CPU_VTLB_SIZE ==>
                    vtable[n, k] == if n < m && n in which then FlushEntry(old(vtable[n, k]), page)
                      else old(vtable[n, k])
      {
        if m in which {
          table[m, Index(page)] := FlushEntry(table[m, Index(page)], page);
          FlushVictims(page, m);
        }
      }
    }

    method FlushVictims(page: address, m: nat)
      requires Shape() && m < modes
      modifies vtable
      ensures forall n, k :: 0 <= n < modes && 0 <= k < CPU_VTLB_SIZE ==>
                vtable[n, k] == if n == m then FlushEntry(old(vtable[n, k]), page) else old(vtable[n, k])
    {
      for i := 0 to CPU_VTLB_SIZE
        invariant forall n, k :: 0 <= n < modes && 0 <= k < CPU_VTLB_SIZE ==>
                    vtable[n, k] == if n == m && k < i then FlushEntry(old(vtable[n, k]), page) else old(vtable[n, k])
      {
        vtable[m, i] := FlushEntry(vtable[m, i], page);
      }
    }

    /** A page flush outside the large-page region; `f` is what was asked for. */
    method FlushSmall(addr: address, which: set<nat>, ghost f: Event)
      requires Valid() && (f.FlushPage? || f.FlushPageModes?) && f.addr == addr && !Inside(region, addr)
      requires f.FlushPage? ==> forall m :: 0 <= m < modes ==> m in which
      requires f.FlushPageModes? ==> f.modes == which
      modifies this`history, table, vtable
      ensures Valid() && history == old(history) + [f]
      ensures forall m, i :: 0 <= m < modes && 0 <= i < CPU_TLB_SIZE ==>
                table[m, i] == if m in which && i == Index(addr) then FlushEntry(old(table[m, i]), PageOf(addr))
                  else old(table[m, i])
      ensures forall m, k :: 0 <= m < modes && 0 <= k < CPU_VTLB_SIZE ==>
                vtable[m, k] == if m in which then FlushEntry(old(vtable[m, k]), PageOf(addr)) else old(vtable[m, k])
    {
      ghost var p := Past(history, region);
      PageIndex(addr);
      FlushEntries(PageOf(addr), which);
      history := history + [f];
      forall m, i | 0 <= m < modes && 0 <= i < CPU_TLB_SIZE
        ensures SlotOk(Past(history, region), m, table[m, i], iotlb[m, i]) && Placed(table[m, i], i)
      {
        MainFlushed(p, f, m, i, old(table[m, i]), iotlb[m, i], m in which);
      }
      forall m, k | 0 <= m < modes && 0 <= k < CPU_VTLB_SIZE
        ensures SlotOk(Past(history, region), m, vtable[m, k], iotlbV[m, k])
      {
        if m in which {
          SlotFlushed(p, f, m, old(vtable[m, k]), iotlbV[m, k]);
        } else {
          SlotOtherMode(p, f, m, vtable[m, k], iotlbV[m, k]);
        }
      }
    }

    /** tlb_flush_page on the CPU's own thread. */
    method FlushThePage(addr: address)
      requires Valid()
      modifies this`vtlbIndex, this`region, this`history, table, vtable
      ensures Valid() && history == old(history) + [FlushPage(addr)]
      ensures region == if old(Inside(region, addr)) then NoRegion else old(region)
      ensures forall m, i :: 0 <= m < modes && 0 <= i < CPU_TLB_SIZE ==>
                table[m, i] == if old(Inside(region, addr)) then DEAD
                               else if i == Index(addr) then FlushEntry(old(table[m, i]), PageOf(addr))
                               else old(table[m, i])
      ensures forall m, k :: 0 <= m < modes && 0 <= k < CPU_VTLB_SIZE ==>
                vtable[m, k] == if old(Inside(region, addr)) then DEAD else FlushEntry(old(vtable[m, k]), PageOf(addr))
    {
      if Inside(region, addr) {
        Clear();
        history := history + [FlushPage(addr)];
      } else {
        FlushSmall(addr, AllModes(modes), FlushPage(addr));
      }
    }

    /** tlb_check_page_and_flush_by_mmuidx_async_work; the address comes without its low bits. */
    method FlushPageByModes(addr: address, which: set<nat>)
      requires Valid() && PageOf(addr) == addr
      modifies this`history, table, vtable
      ensures Valid() && history == old(history) + [FlushPageModes(addr, which)]
      ensures forall m, i :: 0 <= m < modes && 0 <= i < CPU_TLB_SIZE ==>
                table[m, i] == if m !in which then old(table[m, i])
                               else if Inside(region, addr) then DEAD
                               else if i == Index(addr) then FlushEntry(old(table[m, i]), addr)
                               else old(table[m, i])
      ensures forall m, k :: 0 <= m < modes && 0 <= k < CPU_VTLB_SIZE ==>
                vtable[m, k] == if m !in which then old(vtable[m, k])
                                else if Inside(region, addr) then DEAD
                                else FlushEntry(old(vtable[m, k]), addr)
    {
      if Inside(region, addr) {
        FlushByModes(which, FlushPageModes(addr, which));
      } else {
        FlushSmall(addr, which, FlushPageModes(addr, which));
      }
    }

    /** tlb_set_page_with_attrs: installs an entry for a page of 2^shift bytes and evicts the old one into
        the victim table.  What the memory map says about the page is given: whether it is I/O, is
        watched, is to be written through the I/O path, or is clean. */
    method SetPage(mode: nat, vaddr: address, shift: nat, read: bool, write: bool, exec: bool,
                   io: bool, watched: bool, rom: bool, clean: bool, addend: int, iotlbAddr: int, attrs: nat)
      requires Valid() && mode < modes && PageOf(vaddr) == vaddr && TARGET_PAGE_BITS <= shift <= ADDRESS_BITS
      modifies this, table, vtable, iotlb, iotlbV
      ensures Valid() && |history| == |old(history)| + 1 && history[..|old(history)|] == old(history)
      ensures var i := history[|old(history)|];
        && i.Install? && i.mode == mode && i.vaddr == vaddr && i.shift == shift
        && i.io == Io(iotlbAddr - vaddr, attrs) && i.entry.addend == addend - vaddr
        && i.entry.read == (if read then For(vaddr, false, io || watched) else Never)
        && i.entry.write == (if !write then Never else For(vaddr, clean && !rom, io || watched || rom))
        && i.entry.code == (if exec then For(vaddr, false, io) else Never)
        && Swapped(mode, Index(vaddr), old(vtlbIndex) % CPU_VTLB_SIZE, i.entry, i.io)
    {
      ghost var was := region;
      var vidx := vtlbIndex % CPU_VTLB_SIZE;
      vtlbIndex := vtlbIndex + 1;
      if shift != TARGET_PAGE_BITS {
        AddLargePage(vaddr, shift);
      }
      var address_ := For(vaddr, false, io || watched);
      var tn := Entry(if read then address_ else Never,
                      if !write then Never
                      else if rom then address_.(mmio := true)
                      else if clean then address_.(notDirty := true)
                      else address_,
                      if exec then For(vaddr, false, io) else Never,
                      addend - vaddr);
      Refill(mode, vaddr, shift, vidx, tn, Io(iotlbAddr - vaddr, attrs), was);
    }

    /** The new entry is in the main table, the one it replaces is victim number `vidx` with its own I/O entry, and no
        other entry has changed. */
    twostate predicate Swapped(mode: nat, index: nat, vidx: nat, tn: Entry, io: Io)
      requires Shape() && mode < modes && index < CPU_TLB_SIZE && vidx < CPU_VTLB_SIZE
      reads table, vtable, iotlb, iotlbV
    {
      && (forall m, i :: 0 <= m < modes && 0 <= i < CPU_TLB_SIZE ==>
            if m == mode && i == index then table[m, i] == tn && iotlb[m, i] == io
            else table[m, i] == old(table[m, i]) && iotlb[m, i] == old(iotlb[m, i]))
      && (forall m, k :: 0 <= m < modes && 0 <= k < CPU_VTLB_SIZE ==>
            if m == mode && k == vidx then vtable[m, k] == old(table[mode, index]) &&
              iotlbV[m, k] == old(iotlb[mode, index])
            else vtable[m, k] == old(vtable[m, k]) && iotlbV[m, k] == old(iotlbV[m, k]))
    }

    /** The table part of tlb_set_page_with_attrs. */
    method Refill(mode: nat, vaddr: address, shift: nat, vidx: nat, tn: Entry, io: Io, ghost was: Region)
      requires Shape() && RegionOk() && MainOk(Past(history, was)) && VictimsOk(Past(history, was)) &&
               Contains(was, region)
      requires mode < modes && vidx < CPU_VTLB_SIZE && WellFormed(Install(mode, vaddr, shift, tn, io))
      requires shift != TARGET_PAGE_BITS ==> Contains(Region(vaddr, shift), region)
      modifies this`history, table, vtable, iotlb, iotlbV
      ensures Valid() && history == old(history) + [Install(mode, vaddr, shift, tn, io)]
      ensures Swapped(mode, Index(vaddr), vidx, tn, io)
    {
      ghost var p, i := Past(history, was), Install(mode, vaddr, shift, tn, io);
      var index := Index(vaddr);
      vtable[mode, vidx] := table[mode, index];
      iotlbV[mode, vidx] := iotlb[mode, index];
      iotlb[mode, index] := io;
      table[mode, index] := tn;
      history := history + [i];
      PageCovered(i, region);
      SlotInstalled(p, i, region);
      forall m, j | 0 <= m < modes && 0 <= j < CPU_TLB_SIZE
        ensures SlotOk(Past(history, region), m, table[m, j], iotlb[m, j]) && Placed(table[m, j], j)
      {
        if m != mode || j != index {
          SlotInstall(p, i, region, m, table[m, j], iotlb[m, j]);
        }
      }
      forall m, k | 0 <= m < modes && 0 <= k < CPU_VTLB_SIZE
        ensures SlotOk(Past(history, region), m, vtable[m, k], iotlbV[m, k])
      {
        SlotInstall(p, i, region, m, vtable[m, k], iotlbV[m, k]);
      }
    }

    /** The search of victim_tlb_hit, for a comparator that is exactly the page. */
    method FindVictim(mode: nat, access: Access, page: address) returns (vidx: nat)
      requires Shape() && mode < modes
      ensures vidx <= CPU_VTLB_SIZE
      ensures vidx < CPU_VTLB_SIZE ==> Comparator(vtable[mode, vidx], access) == For(page, false, false)
      ensures forall k :: 0 <= k < vidx ==> Comparator(vtable[mode, k], access) != For(page, false, false)
    {
      vidx := 0;
      while vidx < CPU_VTLB_SIZE
        invariant 0 <= vidx <= CPU_VTLB_SIZE
        invariant forall k :: 0 <= k < vidx ==> Comparator(vtable[mode, k], access) != For(page, false, false)
      {
        if Comparator(vtable[mode, vidx], access) == For(page, false, false) {
          return;
        }
        vidx := vidx + 1;
      }
    }

    /** victim_tlb_hit: a victim for the page is swapped into the main table with its I/O entry. */
    method VictimHit(mode: nat, index: nat, access: Access, page: address) returns (hit: bool, ghost vidx: nat)
      requires Valid() && mode < modes && index == Index(page)
      modifies table, vtable, iotlb, iotlbV
      ensures Valid()
      ensures hit <==>
                exists k :: && 0 <= k < CPU_VTLB_SIZE
                            && old(Comparator(vtable[mode, k], access)) == For(page, false, false)
      ensures hit ==> vidx < CPU_VTLB_SIZE && Comparator(table[mode, index], access) == For(page, false, false)
      ensures hit ==> table[mode, index] == old(vtable[mode, vidx]) && iotlb[mode, index] == old(iotlbV[mode, vidx])
      ensures hit ==> vtable[mode, vidx] == old(table[mode, index]) && iotlbV[mode, vidx] == old(iotlb[mode, index])
      ensures forall m, i :: 0 <= m < modes && 0 <= i < CPU_TLB_SIZE && !(hit && m == mode && i == index) ==>
                table[m, i] == old(table[m, i]) && iotlb[m, i] == old(iotlb[m, i])
      ensures forall m, k :: 0 <= m < modes && 0 <= k < CPU_VTLB_SIZE && !(hit && m == mode && k == vidx) ==>
                vtable[m, k] == old(vtable[m, k]) && iotlbV[m, k] == old(iotlbV[m, k])
    {
      var v := FindVictim(mode, access, page);
      vidx := v;
      hit := v < CPU_VTLB_SIZE;
      if hit {
        ghost var p := Past(history, region);
        assert SlotOk(p, mode, vtable[mode, v], iotlbV[mode, v]);
        assert SlotOk(p, mode, table[mode, index], iotlb[mode, index]);
        SlotPlaced(p, mode, vtable[mode, v], iotlbV[mode, v], access, page);
        table[mode, index], vtable[mode, v] := vtable[mode, v], table[mode, index];
        iotlb[mode, index], iotlbV[mode, v] := iotlbV[mode, v], iotlb[mode, index];
      }
    }

    /** What a memory access does: the main table, then the victim table.  A hit is a translation for
        the page that was installed for this mode and that no flush since has named. */
    method Lookup(mode: nat, access: Access, addr: address) returns (hit: bool, entry: Entry, io: Io, ghost t: nat)
      requires Valid() && mode < modes
      modifies table, vtable, iotlb, iotlbV
      ensures Valid()
      ensures hit ==> Backed(Past(history, region), t, mode, entry, io) && history[t].vaddr == PageOf(addr)
      ensures hit ==> Comparator(entry, access).For?
      ensures hit <==> old(Matches(Comparator(table[mode, Index(addr)], access), PageOf(addr)))
                       || exists k :: && 0 <= k < CPU_VTLB_SIZE
                                      && old(Comparator(vtable[mode, k], access)) == For(PageOf(addr), false, false)
    {
      var index, page := Index(addr), PageOf(addr);
      PageIndex(addr);
      t := 0;
      hit := Matches(Comparator(table[mode, index], access), page);
      if !hit {
        ghost var k;
        hit, k := VictimHit(mode, index, access, page);
      }
      entry, io := table[mode, index], iotlb[mode, index];
      if hit {
        assert SlotOk(Past(history, region), mode, entry, io);
        t :| Backed(Past(history, region), t, mode, entry, io);
      }
    }

    /** tlb_set_dirty: the not-dirty flag is cleared where the comparator is exactly the page with the
        flag; translations stay what they were. */
    method SetDirty(addr: address)
      requires Valid()
      modifies table, vtable
      ensures Valid()
      ensures forall m, i :: 0 <= m < modes && 0 <= i < CPU_TLB_SIZE ==>
                table[m, i] == if i == Index(addr) then Dirtied(old(table[m, i]), PageOf(addr)) else old(table[m, i])
      ensures forall m, k :: 0 <= m < modes && 0 <= k < CPU_VTLB_SIZE ==>
                vtable[m, k] == Dirtied(old(vtable[m, k]), PageOf(addr))
    {
      DirtyTable(PageOf(addr), Index(addr));
      DirtyVictims(PageOf(addr));
    }

    /** The loop of tlb_set_dirty over the table. */
    method DirtyTable(page: address, index: nat)
      requires Valid() && index < CPU_TLB_SIZE
      modifies table
      ensures Valid()
      ensures forall m, i :: 0 <= m < modes && 0 <= i < CPU_TLB_SIZE ==>
                table[m, i] == if i == index then Dirtied(old(table[m, i]), page) else old(table[m, i])
    {
      ghost var p := Past(history, region);
      forall m | 0 <= m < modes {
        table[m, index] := Dirtied(table[m, index], page);
      }
      forall m, i | 0 <= m < modes && 0 <= i < CPU_TLB_SIZE
        ensures SlotOk(p, m, table[m, i], iotlb[m, i]) && Placed(table[m, i], i)
      {
        SlotDirtied(p, m, old(table[m, i]), iotlb[m, i], page);
      }
    }

    /** The loop of tlb_set_dirty over the victim table. */
    method DirtyVictims(page: address)
      requires Valid()
      modifies vtable
      ensures Valid()
      ensures forall m, k :: 0 <= m < modes && 0 <= k < CPU_VTLB_SIZE ==>
                vtable[m, k] == Dirtied(old(vtable[m, k]), page)
    {
      ghost var p := Past(history, region);
      forall m, k | 0 <= m < modes && 0 <= k < CPU_VTLB_SIZE {
        vtable[m, k] := Dirtied(vtable[m, k], page);
      }
      forall m, k | 0 <= m < modes && 0 <= k < CPU_VTLB_SIZE
        ensures SlotOk(p, m, vtable[m, k], iotlbV[m, k])
      {
        SlotDirtied(p, m, old(vtable[m, k]), iotlbV[m, k], page);
      }
    }
  }

  function AllModes(n: nat): (r: set<nat>)
    ensures forall m :: 0 <= m < n ==> m in r
  {
    if n == 0 then {} else AllModes(n - 1) + {n - 1}
  }

  /** tlb_set_dirty1 */
  function Dirtied(e: Entry, page: address): Entry {
    if e.write == For(page, true, false) then e.(write := For(page, false, false)) else e
  }

  lemma {:induction false} SlotDirtied(p: Past, m: nat, e: Entry, io: Io, page: address)
    requires SlotOk(p, m, e, io)
    ensures SlotOk(p, m, Dirtied(e, page), io)
  {
    if Live(Dirtied(e, page)) {
      var t: nat :| Backed(p, t, m, e, io);
      assert Backed(p, t, m, Dirtied(e, page), io);
    }
  }

  /** All comparators of an entry are for one page, so that it may go where lookups of the page look. */
  lemma {:induction false} SlotPlaced(p: Past, m: nat, e: Entry, io: Io, access: Access, page: address)
    requires SlotOk(p, m, e, io) && Comparator(e, access) == For(page, false, false)
    ensures Placed(e, Index(page))
  {
    var t: nat :| Backed(p, t, m, e, io);
    assert p.h[t].vaddr == page;
  }

  /** A slot of the main table after a page flush. */
  lemma {:induction false} MainFlushed(p: Past, f: Event, m: nat, i: nat, e: Entry, io: Io, asked: bool)
    requires SlotOk(p, m, e, io) && Placed(e, i) && (f.FlushPage? || f.FlushPageModes?) && !Inside(p.region, f.addr)
    requires !asked ==> f.FlushPageModes? && m !in f.modes
    ensures var e' := if asked && i == Index(f.addr) then FlushEntry(e, PageOf(f.addr)) else e;
      SlotOk(Past(p.h + [f], p.region), m, e', io) && Placed(e', i)
  {
    if !asked {
      SlotOtherMode(p, f, m, e, io);
    } else if i == Index(f.addr) {
      SlotFlushed(p, f, m, e, io);
    } else {
      PlacedMissed(e, i, f.addr);
      SlotMissed(p, f, m, e, io);
    }
  }

  lemma {:induction false} PageCovered(i: Event, r: Region)
    requires i.Install? && (i.shift != TARGET_PAGE_BITS ==> Contains(Region(i.vaddr, i.shift), r))
    ensures i.shift != TARGET_PAGE_BITS ==> Covered(r, i)
  {
    if i.shift != TARGET_PAGE_BITS {
      var page := Region(i.vaddr, i.shift);
      forall x: address | InPage(x, i.vaddr, i.shift)
        ensures Inside(r, x)
      {
        assert Inside(page, x);
      }
    }
  }

  lemma {:induction false} RegionJoins(r: Region, vaddr: address, shift: nat, k: nat)
    requires r.Region? && r.shift <= k && shift <= k && Up(r.addr, k) == Up(vaddr, k)
    ensures Contains(r, Region(r.addr, k)) && Contains(Region(vaddr, shift), Region(r.addr, k))
  {
    var r', page := Region(r.addr, k), Region(vaddr, shift);
    forall x: address | Inside(r, x)
      ensures Inside(r', x)
    {
      UpAgree(x, r.addr, r.shift, k);
    }
    forall x: address | Inside(page, x)
      ensures Inside(r', x)
    {
      UpAgree(x, vaddr, shift, k);
    }
  }
}
