/** RAM blocks of exec.c: best-fit placement in the ram_addr_t space, the list sorted by size with its
    most-recently-used lookup, host pointers, and the chunked dirty bitmaps. */
module RamList {
  import opened Arithmetic
  import opened Options

  const RAM_ADDR_MAX: nat := 0xFFFF_FFFF_FFFF_FFFF
  const TARGET_PAGE_SIZE: nat := 4096
  const DIRTY_MEMORY_BLOCK_SIZE: nat := 2097152
  const DIRTY_MEMORY_NUM: nat := 3
  const DIRTY_CLIENTS_ALL: set<nat> := {0, 1, 2}

  /** RAMBlock; `host` is empty for memory that is not mapped. */
  datatype Block = Block(offset: nat, maxLength: nat, usedLength: nat, host: Option<nat>)

  function End(b: Block): nat {
    b.offset + b.maxLength
  }

  predicate InBlock(b: Block, a: nat) {
    b.offset <= a < End(b)
  }

  /** Lengths are whole pages: qemu_ram_alloc rounds them up. */
  predicate BlockOk(b: Block) {
    && 0 < b.maxLength && b.usedLength <= b.maxLength && End(b) <= RAM_ADDR_MAX
    && b.offset % TARGET_PAGE_SIZE == 0 && b.maxLength % TARGET_PAGE_SIZE == 0
  }

  predicate Apart(b: Block, c: Block) {
    End(b) <= c.offset || End(c) <= b.offset
  }

  predicate Disjoint(blocks: seq<Block>) {
    forall i, j :: 0 <= i < j < |blocks| ==> Apart(blocks[i], blocks[j])
  }

  predicate Sorted(blocks: seq<Block>) {
    forall i, j :: 0 <= i < j < |blocks| ==> blocks[i].maxLength >= blocks[j].maxLength
  }

  predicate AllOk(blocks: seq<Block>) {
    forall i :: 0 <= i < |blocks| ==> BlockOk(blocks[i])
  }

  // ---------------------------------------------------------------------------------------------
  // find_ram_offset
  // ---------------------------------------------------------------------------------------------

  /** The first block at or after `end` starts at `next`, or there is none before the maximum. */
  ghost predicate IsNext(blocks: seq<Block>, end: nat, next: int) {
    && end <= next <= RAM_ADDR_MAX
    && (next == RAM_ADDR_MAX || exists i :: 0 <= i < |blocks| && blocks[i].offset == next)
    && forall i :: 0 <= i < |blocks| && blocks[i].offset >= end ==> next <= blocks[i].offset
  }

  /** The free space that follows block `i`. */
  ghost predicate IsGap(blocks: seq<Block>, i: int, gap: int) {
    0 <= i < |blocks| && IsNext(blocks, End(blocks[i]), End(blocks[i]) + gap)
  }

  lemma {:induction false} GapUnique(blocks: seq<Block>, i: int, g: int, h: int)
    requires AllOk(blocks) && IsGap(blocks, i, g) && IsGap(blocks, i, h)
    ensures g == h
  {
  }

  /** The inner loop of find_ram_offset. */
  method NextAfter(blocks: seq<Block>, end: nat) returns (next: nat)
    requires AllOk(blocks) && end <= RAM_ADDR_MAX
    ensures IsNext(blocks, end, next)
  {
    next := RAM_ADDR_MAX;
    for i := 0 to |blocks|
      invariant end <= next <= RAM_ADDR_MAX
      invariant next == RAM_ADDR_MAX || exists j :: 0 <= j < i && blocks[j].offset == next
      invariant forall j :: 0 <= j < i && blocks[j].offset >= end ==> next <= blocks[j].offset
    {
      if blocks[i].offset >= end && blocks[i].offset < next {
        next := blocks[i].offset;
      }
    }
  }

  /** A smallest gap that is large enough follows block `i`. */
  ghost predicate BestGap(blocks: seq<Block>, size: nat, i: int, gap: int) {
    && IsGap(blocks, i, gap) && gap >= size
    && forall j, g :: IsGap(blocks, j, g) && g >= size ==> gap <= g
  }

  /** find_ram_offset: the start of the smallest sufficient gap that follows a block, or an abort if
      there is none.  Space in front of all blocks is not considered. */
  method FindRamOffset(blocks: seq<Block>, size: nat) returns (offset: Option<nat>)
    requires AllOk(blocks) && size != 0
    ensures blocks == [] ==> offset == Some(0)
    ensures blocks != [] && offset.Some? ==>
              exists i, gap :: BestGap(blocks, size, i, gap) && offset.value == End(blocks[i])
    ensures blocks != [] && offset.None? ==> forall i, gap :: IsGap(blocks, i, gap) ==> gap < size
  {
    if blocks == [] {
      return Some(0);
    }
    var off, mingap := RAM_ADDR_MAX, RAM_ADDR_MAX;
    ghost var best: int := |blocks|;
    for i := 0 to |blocks|
      invariant best == |blocks| ==> off == RAM_ADDR_MAX && mingap == RAM_ADDR_MAX
      invariant best == |blocks| ==> forall j, g :: 0 <= j < i && IsGap(blocks, j, g) ==> g < size
      invariant best < |blocks| ==> IsGap(blocks, best, mingap) && mingap >= size && off == End(blocks[best])
      invariant best < |blocks| ==> forall j, g :: 0 <= j < i && IsGap(blocks, j, g) && g >= size ==> mingap <= g
      invariant 0 <= best <= |blocks|
    {
      var end := End(blocks[i]);
      var next := NextAfter(blocks, end);
      assert IsGap(blocks, i, next - end);
      forall g | IsGap(blocks, i, g)
        ensures g == next - end
      {
        GapUnique(blocks, i, g, next - end);
      }
      if next - end >= size && next - end < mingap {
        off, mingap := end, next - end;
        best := i;
      }
    }
    if off == RAM_ADDR_MAX {
      return None;
    }
    assert BestGap(blocks, size, best, mingap);
    return Some(off);
  }

  /** A block placed at the start of a sufficient gap overlaps no other. */
  lemma {:induction false} GapIsFree(blocks: seq<Block>, i: int, gap: int, b: Block)
    requires AllOk(blocks) && Disjoint(blocks) && IsGap(blocks, i, gap)
    requires b.offset == End(blocks[i]) && b.maxLength <= gap
    ensures forall j :: 0 <= j < |blocks| ==> Apart(blocks[j], b)
  {
    forall j | 0 <= j < |blocks|
      ensures Apart(blocks[j], b)
    {
      if j != i && blocks[j].offset < b.offset {
        assert Apart(blocks[if i < j then i else j], blocks[if i < j then j else i]);
      }
    }
  }

  // ---------------------------------------------------------------------------------------------
  // The dirty bitmap of one client
  // ---------------------------------------------------------------------------------------------

  /** DirtyMemoryBlocks: bitmaps of DIRTY_MEMORY_BLOCK_SIZE pages each. */
  type Chunks = seq<seq<bool>>

  predicate ChunksOk(c: Chunks) {
    forall i :: 0 <= i < |c| ==> |c[i]| == DIRTY_MEMORY_BLOCK_SIZE
  }

  /** The bit of a page. */
  predicate Bit(c: Chunks, page: nat) {
    && page / DIRTY_MEMORY_BLOCK_SIZE < |c| && |c[page / DIRTY_MEMORY_BLOCK_SIZE]| == DIRTY_MEMORY_BLOCK_SIZE
    && c[page / DIRTY_MEMORY_BLOCK_SIZE][page % DIRTY_MEMORY_BLOCK_SIZE]
  }

  /** The chunked bitmap `d` is `c` with the pages from `lo` up to `hi` given the value `v`. */
  ghost predicate Filled(c: Chunks, d: Chunks, lo: nat, hi: nat, v: bool) {
    && |d| == |c| && ChunksOk(d)
    && forall p: nat :: p < |c| * DIRTY_MEMORY_BLOCK_SIZE ==> Bit(d, p) == if lo <= p < hi then v else Bit(c, p)
  }

  /** bitmap_set_atomic and bitmap_test_and_clear_atomic on one bitmap. */
  method FillBits(bits: seq<bool>, offset: nat, num: nat, v: bool) returns (out: seq<bool>, any: bool)
    requires offset + num <= |bits|
    ensures |out| == |bits| && forall i :: 0 <= i < |bits| ==> out[i] == if offset <= i < offset + num then v
            else bits[i]
    ensures any == exists i :: offset <= i < offset + num && bits[i]
  {
    out, any := bits, false;
    for k := 0 to num
      invariant |out| == |bits|
      invariant forall i :: 0 <= i < |bits| ==> out[i] == if offset <= i < offset + k then v else bits[i]
      invariant any == exists i :: offset <= i < offset + k && bits[i]
    {
      any := any || bits[offset + k];
      out := out[offset + k := v];
    }
  }

  lemma {:induction false} FilledChunk(c: Chunks, lo: nat, page: nat, num: nat, v: bool, d: Chunks, bits: seq<bool>)
    requires ChunksOk(c) && Filled(c, d, lo, page, v) && lo <= page < |c| * DIRTY_MEMORY_BLOCK_SIZE
    requires page % DIRTY_MEMORY_BLOCK_SIZE + num <= DIRTY_MEMORY_BLOCK_SIZE == |bits|
    requires var idx, offset := page / DIRTY_MEMORY_BLOCK_SIZE, page % DIRTY_MEMORY_BLOCK_SIZE;
      forall i :: 0 <= i < |bits| ==> bits[i] == if offset <= i < offset + num then v else d[idx][i]
    ensures Filled(c, d[page / DIRTY_MEMORY_BLOCK_SIZE := bits], lo, page + num, v)
  {
    var idx, offset := page / DIRTY_MEMORY_BLOCK_SIZE, page % DIRTY_MEMORY_BLOCK_SIZE;
    var e := d[idx := bits];
    forall p: nat | p < |c| * DIRTY_MEMORY_BLOCK_SIZE
      ensures Bit(e, p) == if lo <= p < page + num then v else Bit(c, p)
    {
      assert Bit(d, p) == if lo <= p < page then v else Bit(c, p);
      if p / DIRTY_MEMORY_BLOCK_SIZE == idx {
        assert e[idx][p % DIRTY_MEMORY_BLOCK_SIZE] == bits[p % DIRTY_MEMORY_BLOCK_SIZE];
      }
    }
  }

  /** The loop shared by cpu_physical_memory_test_and_clear_dirty and cpu_physical_memory_set_dirty_range:
      pages `lo` to `hi` are given the value `v`; tells whether one of them was set. */
  method FillPages(c: Chunks, lo: nat, hi: nat, v: bool) returns (d: Chunks, any: bool)
    requires ChunksOk(c) && lo <= hi <= |c| * DIRTY_MEMORY_BLOCK_SIZE
    ensures Filled(c, d, lo, hi, v)
    ensures any == exists p :: lo <= p < hi && Bit(c, p)
  {
    d, any := c, false;
    var page := lo;
    while page < hi
      invariant lo <= page <= hi && Filled(c, d, lo, page, v)
      invariant any == exists p :: lo <= p < page && Bit(c, p)
    {
      var idx, offset := page / DIRTY_MEMORY_BLOCK_SIZE, page % DIRTY_MEMORY_BLOCK_SIZE;
      var num := if hi - page < DIRTY_MEMORY_BLOCK_SIZE - offset then hi - page else DIRTY_MEMORY_BLOCK_SIZE - offset;
      var bits, some := FillBits(d[idx], offset, num, v);
      FilledChunk(c, lo, page, num, v, d, bits);
      SomeBit(c, lo, page, num, d, some, v);
      d := d[idx := bits];
      any := any || some;
      page := page + num;
    }
  }

  lemma {:induction false} SomeBit(c: Chunks, lo: nat, page: nat, num: nat, d: Chunks, some: bool, v: bool)
    requires ChunksOk(c) && Filled(c, d, lo, page, v) && page < |c| * DIRTY_MEMORY_BLOCK_SIZE
    requires page % DIRTY_MEMORY_BLOCK_SIZE + num <= DIRTY_MEMORY_BLOCK_SIZE
    requires var offset := page % DIRTY_MEMORY_BLOCK_SIZE;
      some == exists i :: offset <= i < offset + num && d[page / DIRTY_MEMORY_BLOCK_SIZE][i]
    ensures some == exists p :: page <= p < page + num && Bit(c, p)
  {
    var idx, offset := page / DIRTY_MEMORY_BLOCK_SIZE, page % DIRTY_MEMORY_BLOCK_SIZE;
    forall i | offset <= i < offset + num
      ensures d[idx][i] == Bit(c, page - offset + i)
    {
      assert Bit(d, page - offset + i) == Bit(c, page - offset + i);
    }
    forall p | page <= p < page + num
      ensures Bit(c, p) == d[idx][p - page + offset]
    {
      assert Bit(d, p) == Bit(c, p);
    }
  }

  // ---------------------------------------------------------------------------------------------
  // Lookup
  // ---------------------------------------------------------------------------------------------

  /** Subtraction in 64 bits, and the test `a - base < length` that the lookups make with it. */
  predicate Reaches(a: nat, base: nat, length: nat)
    requires a <= RAM_ADDR_MAX && base <= RAM_ADDR_MAX
  {
    (a - base) % (RAM_ADDR_MAX + 1) < length
  }

  lemma {:induction false} ReachesIs(a: nat, base: nat, length: nat)
    requires a <= RAM_ADDR_MAX && base + length <= RAM_ADDR_MAX + 1 && base <= RAM_ADDR_MAX
    ensures Reaches(a, base, length) <==> base <= a < base + length
  {
    if a < base {
      assert (a - base) % (RAM_ADDR_MAX + 1) == a - base + RAM_ADDR_MAX + 1;
    }
  }

  /** Searching the list from its head. */
  function Linear(blocks: seq<Block>, a: nat): Option<Block> {
    if blocks == [] then None
    else if InBlock(blocks[0], a) then Some(blocks[0])
    else Linear(blocks[1..], a)
  }

  lemma {:induction false} LinearIs(blocks: seq<Block>, a: nat, i: nat)
    requires Disjoint(blocks) && i < |blocks| && InBlock(blocks[i], a)
    ensures Linear(blocks, a) == Some(blocks[i])
  {
    if i > 0 {
      assert Apart(blocks[0], blocks[i]);
      LinearIs(blocks[1..], a, i - 1);
    }
  }

  lemma {:induction false} LinearNone(blocks: seq<Block>, a: nat)
    requires forall i :: 0 <= i < |blocks| ==> !InBlock(blocks[i], a)
    ensures Linear(blocks, a) == None
  {
    if blocks != [] {
      LinearNone(blocks[1..], a);
    }
  }

  predicate InHost(b: Block, ptr: nat) {
    b.host.Some? && b.host.value <= ptr < b.host.value + b.maxLength
  }

  /** Mapped blocks lie in the address space of the host. */
  predicate HostsFit(blocks: seq<Block>) {
    forall i :: 0 <= i < |blocks| && blocks[i].host.Some? ==> blocks[i].host.value + blocks[i].maxLength <= RAM_ADDR_MAX
  }

  /** They do not share host memory. */
  ghost predicate HostsApart(blocks: seq<Block>) {
    HostsFit(blocks) && forall i, j, ptr: nat :: 0 <= i < j < |blocks| && InHost(blocks[i], ptr) ==>
        !InHost(blocks[j], ptr)
  }

  /** Block `i` is the first one in the list that has the pointer. */
  predicate FirstWith(blocks: seq<Block>, ptr: nat, i: int) {
    0 <= i < |blocks| && InHost(blocks[i], ptr) && forall j :: 0 <= j < i ==> !InHost(blocks[j], ptr)
  }

  // ---------------------------------------------------------------------------------------------
  // The list
  // ---------------------------------------------------------------------------------------------

  /** Where ram_block_add puts a block: in front of the first smaller one. */
  function Position(blocks: seq<Block>, length: nat): (r: nat)
    ensures r <= |blocks| && (r < |blocks| ==> blocks[r].maxLength < length)
    ensures forall i :: 0 <= i < r ==> blocks[i].maxLength >= length
  {
    if blocks == [] || blocks[0].maxLength < length then 0 else 1 + Position(blocks[1..], length)
  }

  function Inserted(blocks: seq<Block>, i: nat, b: Block): seq<Block>
    requires i <= |blocks|
  {
    blocks[..i] + [b] + blocks[i..]
  }

  /** The old index of element `k` after an insertion at `p`. */
  lemma {:induction false} InsertedAt(blocks: seq<Block>, p: nat, b: Block, k: nat)
    requires p <= |blocks| && k <= |blocks|
    ensures Inserted(blocks, p, b)[k] == if k < p then blocks[k] else if k == p then b else blocks[k - 1]
  {
  }

  lemma {:induction false} InsertDisjoint(blocks: seq<Block>, p: nat, b: Block)
    requires p <= |blocks| && AllOk(blocks) && Disjoint(blocks) && BlockOk(b)
    requires forall j :: 0 <= j < |blocks| ==> Apart(blocks[j], b)
    ensures AllOk(Inserted(blocks, p, b)) && Disjoint(Inserted(blocks, p, b))
  {
    var r := Inserted(blocks, p, b);
    forall i, j | 0 <= i < j < |r|
      ensures Apart(r[i], r[j])
    {
      InsertedAt(blocks, p, b, i);
      InsertedAt(blocks, p, b, j);
    }
  }

  /** Insertion keeps the list sorted from biggest to smallest. */
  lemma {:induction false} InsertSorted(blocks: seq<Block>, b: Block)
    requires Sorted(blocks)
    ensures Sorted(Inserted(blocks, Position(blocks, b.maxLength), b))
  {
    var p := Position(blocks, b.maxLength);
    var r := Inserted(blocks, p, b);
    forall i, j | 0 <= i < j < |r|
      ensures r[i].maxLength >= r[j].maxLength
    {
      InsertedAt(blocks, p, b, i);
      InsertedAt(blocks, p, b, j);
      if i == p {
        assert blocks[p].maxLength >= blocks[j - 1].maxLength;
      }
    }
  }

  /** Pages of the blocks have the same bits in both bitmaps, for every client. */
  ghost predicate BitsKept(blocks: seq<Block>, dirty: seq<Chunks>, dirty': seq<Chunks>) {
    |dirty| == |dirty'| == DIRTY_MEMORY_NUM &&
    forall c, i, p: nat :: 0 <= c < DIRTY_MEMORY_NUM && 0 <= i < |blocks| && PageIn(blocks[i], p) ==>
                             Bit(dirty'[c], p) == Bit(dirty[c], p)
  }

  /** Every page that a range touches is dirty, for every client. */
  ghost predicate AllDirty(dirty: seq<Chunks>, start: nat, length: nat) {
    |dirty| == DIRTY_MEMORY_NUM &&
    forall c, p: nat :: 0 <= c < DIRTY_MEMORY_NUM && Touches(start, length, p) ==> Bit(dirty[c], p)
  }

  lemma {:induction false} InsertHasBits(blocks: seq<Block>, p: nat, b: Block, c: Chunks)
    requires p <= |blocks| && HasBits(blocks, c) && End(b) <= |c| * DIRTY_MEMORY_BLOCK_SIZE * TARGET_PAGE_SIZE
    ensures HasBits(Inserted(blocks, p, b), c)
  {
    forall k | 0 <= k <= |blocks|
      ensures End(Inserted(blocks, p, b)[k]) <= |c| * DIRTY_MEMORY_BLOCK_SIZE * TARGET_PAGE_SIZE
    {
      InsertedAt(blocks, p, b, k);
    }
  }

  lemma {:induction false} NoSharedPage(blocks: seq<Block>, b: Block)
    requires forall j :: 0 <= j < |blocks| ==> Apart(blocks[j], b)
    ensures forall i, p: nat :: 0 <= i < |blocks| && PageIn(blocks[i], p) ==> !PageIn(b, p)
  {
  }

  lemma {:induction false} RemoveKeeps(blocks: seq<Block>, k: nat)
    requires k < |blocks| && AllOk(blocks) && Disjoint(blocks) && Sorted(blocks)
    ensures var r := blocks[..k] + blocks[k + 1..]; AllOk(r) && Disjoint(r) && Sorted(r)
  {
    var r := blocks[..k] + blocks[k + 1..];
    assert forall i :: 0 <= i < |r| ==> r[i] == blocks[if i < k then i else i + 1];
  }

  /** A page lies in a block. */
  predicate PageIn(b: Block, page: nat) {
    b.offset <= page * TARGET_PAGE_SIZE < End(b)
  }

  /** Every page of every block has a bit. */
  ghost predicate HasBits(blocks: seq<Block>, c: Chunks) {
    forall i :: 0 <= i < |blocks| ==> End(blocks[i]) <= |c| * DIRTY_MEMORY_BLOCK_SIZE * TARGET_PAGE_SIZE
  }

  /** The largest end of a block. */
  function LastEnd(blocks: seq<Block>): (r: nat)
    ensures forall i :: 0 <= i < |blocks| ==> End(blocks[i]) <= r
    ensures r == 0 || exists i :: 0 <= i < |blocks| && End(blocks[i]) == r
  {
    if blocks == [] then 0
    else
      var n := |blocks| - 1;
      var last := LastEnd(blocks[..n]);
      assert last == 0 || exists i :: 0 <= i < |blocks| && End(blocks[i]) == last;
      if last < End(blocks[n]) then End(blocks[n]) else last
  }

  /** The pages of RAM that the list gives, and that it gives with one more block. */
  function PagesOf(blocks: seq<Block>): nat {
    LastEnd(blocks) / TARGET_PAGE_SIZE
  }

  function PagesWith(blocks: seq<Block>, b: Block): nat {
    if PagesOf(blocks) < End(b) / TARGET_PAGE_SIZE then End(b) / TARGET_PAGE_SIZE else PagesOf(blocks)
  }

  /** A page's bit is not in a bitmap that dirty_memory_extend replaces by an empty one. */
  predicate Spared(oldSize: nat, newSize: nat, p: nat) {
    || DivUp(newSize, DIRTY_MEMORY_BLOCK_SIZE) <= DivUp(oldSize, DIRTY_MEMORY_BLOCK_SIZE)
    || p / DIRTY_MEMORY_BLOCK_SIZE < DivUp(oldSize, DIRTY_MEMORY_BLOCK_SIZE)
  }

  /** The bits that were set and are spared are the bits that are set. */
  ghost predicate OnlySpared(dirty: seq<Chunks>, dirty': seq<Chunks>, oldSize: nat, newSize: nat) {
    |dirty| == |dirty'| == DIRTY_MEMORY_NUM &&
    forall c, p: nat :: 0 <= c < DIRTY_MEMORY_NUM ==>
        (Bit(dirty'[c], p) <==> Bit(dirty[c], p) && Spared(oldSize, newSize, p))
  }

  /** The pages that ram_block_add marks. */
  predicate Marked(b: Block, p: nat) {
    b.offset / TARGET_PAGE_SIZE <= p < DivUp(b.offset + b.usedLength, TARGET_PAGE_SIZE)
  }

  ghost predicate AlsoMarked(b: Block, dirty: seq<Chunks>, dirty': seq<Chunks>) {
    |dirty| == |dirty'| == DIRTY_MEMORY_NUM &&
    forall c, p: nat :: 0 <= c < DIRTY_MEMORY_NUM ==> (Bit(dirty'[c], p) <==> Marked(b, p) || Bit(dirty[c], p))
  }

  /** Which bits are set after adding `b`, for every page whatsoever. */
  ghost predicate BitsAfter(blocks: seq<Block>, b: Block, dirty: seq<Chunks>, dirty': seq<Chunks>) {
    |dirty| == |dirty'| == DIRTY_MEMORY_NUM &&
    forall c, p: nat :: 0 <= c < DIRTY_MEMORY_NUM ==>
      (Bit(dirty'[c], p) <==> Marked(b, p) || (Bit(dirty[c], p) && Spared(PagesOf(blocks), PagesWith(blocks, b), p)))
  }

  datatype AddResult = Added(block: Block) | NoHostMemory | Aborted

  /** ram_list and its dirty bitmaps. */
  class RamState {
    var blocks: seq<Block>
    var mru: Option<Block>
    var version: nat
    var dirty: seq<Chunks>

    ghost predicate Valid()
      reads this
    {
      && AllOk(blocks) && Disjoint(blocks) && Sorted(blocks) && (mru.Some? ==> mru.value in blocks)
      && |dirty| == DIRTY_MEMORY_NUM
      && (forall c :: 0 <= c < DIRTY_MEMORY_NUM ==> ChunksOk(dirty[c]) && HasBits(blocks, dirty[c]))
    }

    constructor ()
      ensures Valid() && blocks == []
    {
      blocks, mru, version, dirty := [], None, 0, [[], [], []];
    }

    /** qemu_get_ram_block: the cached answer is the answer of the list.  None is an abort. */
    method GetRamBlock(addr: nat) returns (r: Option<Block>)
      requires Valid() && addr <= RAM_ADDR_MAX
      modifies this`mru
      ensures Valid() && r == Linear(blocks, addr)
      ensures r.Some? ==> r.value in blocks && InBlock(r.value, addr)
      ensures r.None? ==> forall i :: 0 <= i < |blocks| ==> !InBlock(blocks[i], addr)
    {
      if mru.Some? {
        ReachesIs(addr, mru.value.offset, mru.value.maxLength);
        if Reaches(addr, mru.value.offset, mru.value.maxLength) {
          ghost var k :| 0 <= k < |blocks| && blocks[k] == mru.value;
          LinearIs(blocks, addr, k);
          return mru;
        }
      }
      for i := 0 to |blocks|
        invariant Valid() && forall j :: 0 <= j < i ==> !InBlock(blocks[j], addr)
      {
        ReachesIs(addr, blocks[i].offset, blocks[i].maxLength);
        if Reaches(addr, blocks[i].offset, blocks[i].maxLength) {
          LinearIs(blocks, addr, i);
          mru := Some(blocks[i]);
          return mru;
        }
      }
      LinearNone(blocks, addr);
      return None;
    }

    /** qemu_ram_block_from_host */
    method BlockFromHost(ptr: nat, round: bool) returns (r: Option<Block>, offset: nat)
      requires Valid() && HostsFit(blocks) && ptr <= RAM_ADDR_MAX
      ensures r.Some? ==> r.value in blocks && InHost(r.value, ptr)
      ensures if mru.Some? && InHost(mru.value, ptr) then r == mru
              else r.Some? ==> exists i :: FirstWith(blocks, ptr, i) && r.value == blocks[i]
      ensures r.Some? ==> var o := ptr - r.value.host.value; offset == if round then o - o % TARGET_PAGE_SIZE else o
      ensures r.None? ==> forall i :: 0 <= i < |blocks| ==> !InHost(blocks[i], ptr)
    {
      r, offset := None, 0;
      if mru.Some? && mru.value.host.Some? {
        ReachesIs(ptr, mru.value.host.value, mru.value.maxLength);
        if Reaches(ptr, mru.value.host.value, mru.value.maxLength) {
          r := mru;
        }
      }
      var i := 0;
      while r.None? && i < |blocks|
        invariant 0 <= i <= |blocks|
        invariant r.Some? ==> r.value in blocks && InHost(r.value, ptr)
        invariant if mru.Some? && InHost(mru.value, ptr) then r == mru
                  else r.Some? ==> exists k :: FirstWith(blocks, ptr, k) && r.value == blocks[k]
        invariant r.None? ==> forall j :: 0 <= j < i ==> !InHost(blocks[j], ptr)
      {
        if blocks[i].host.Some? {
          ReachesIs(ptr, blocks[i].host.value, blocks[i].maxLength);
          if Reaches(ptr, blocks[i].host.value, blocks[i].maxLength) {
            assert FirstWith(blocks, ptr, i);
            r := Some(blocks[i]);
          }
        }
        i := i + 1;
      }
      if r.Some? {
        offset := ptr - r.value.host.value;
        if round {
          offset := offset - offset % TARGET_PAGE_SIZE;
        }
      }
    }

    /** qemu_ram_addr_from_host inverts the mapping of every block to host memory; None is
        RAM_ADDR_INVALID. */
    method RamAddrFromHost(ptr: nat) returns (r: Option<nat>)
      requires Valid() && HostsApart(blocks) && ptr <= RAM_ADDR_MAX
      ensures forall i :: 0 <= i < |blocks| && InHost(blocks[i], ptr) ==>
                r == Some(blocks[i].offset + (ptr - blocks[i].host.value))
      ensures (forall i :: 0 <= i < |blocks| ==> !InHost(blocks[i], ptr)) ==> r == None
    {
      var b, offset := BlockFromHost(ptr, false);
      if b.None? {
        return None;
      }
      return Some(b.value.offset + offset);
    }

    /** last_ram_offset */
    method LastRamOffset() returns (last: nat)
      requires Valid()
      ensures last == LastEnd(blocks)
    {
      last := 0;
      for i := 0 to |blocks|
        invariant last == LastEnd(blocks[..i])
      {
        assert blocks[..i + 1][..i] == blocks[..i];
        last := if last < End(blocks[i]) then End(blocks[i]) else last;
      }
      assert blocks[..|blocks|] == blocks;
    }

    /** The part of ram_block_add that makes room in the bitmaps. */
    method MakeRoom(b: Block)
      requires Valid() && BlockOk(b)
      modifies this`dirty
      ensures Valid()
      ensures forall c :: 0 <= c < DIRTY_MEMORY_NUM ==>
                End(b) <= |dirty[c]| * DIRTY_MEMORY_BLOCK_SIZE * TARGET_PAGE_SIZE
      ensures OnlySpared(old(dirty), dirty, PagesOf(blocks), PagesWith(blocks, b))
    {
      var last := LastRamOffset();
      var oldSize := last / TARGET_PAGE_SIZE;
      var newSize := if oldSize < End(b) / TARGET_PAGE_SIZE then End(b) / TARGET_PAGE_SIZE else oldSize;
      forall c | 0 <= c < DIRTY_MEMORY_NUM
        ensures DivUp(oldSize, DIRTY_MEMORY_BLOCK_SIZE) <= |dirty[c]|
      {
        RoomNow(blocks, dirty[c]);
      }
      if newSize > oldSize {
        DirtyMemoryExtend(oldSize, newSize);
        AllExtended(old(dirty), dirty, oldSize, newSize);
      }
      forall c | 0 <= c < DIRTY_MEMORY_NUM
        ensures ChunksOk(dirty[c]) && HasBits(blocks, dirty[c])
        ensures End(b) <= |dirty[c]| * DIRTY_MEMORY_BLOCK_SIZE * TARGET_PAGE_SIZE
      {
        if newSize > oldSize {
          ExtendedRoom(old(dirty[c]), dirty[c], oldSize, newSize);
        }
        RoomThen(blocks, b, dirty[c]);
      }
    }

    /** ram_block_add.  `host` is the memory of a block that comes with some; otherwise `fromAlloc` is
        what the allocator returns.  Pages of other blocks keep their dirty bits, and the used part of
        the new block is dirty for every client. */
    method RamBlockAdd(maxLength: nat, usedLength: nat, host: Option<nat>, fromAlloc: Option<nat>)
      returns (r: AddResult)
      requires Valid() && 0 < maxLength <= RAM_ADDR_MAX && maxLength % TARGET_PAGE_SIZE == 0 && usedLength <= maxLength
      modifies this
      ensures Valid()
      ensures !r.Added? ==> blocks == old(blocks) && mru == old(mru) && dirty == old(dirty) && version == old(version)
      ensures r.Aborted? ==> old(blocks) != [] && forall i, gap :: IsGap(old(blocks), i, gap) ==> gap < maxLength
      ensures r.NoHostMemory? ==> host == None && fromAlloc == None
      ensures r.Added? ==>
                && r.block.maxLength == maxLength && r.block.usedLength == usedLength
                && r.block.host == (if host.Some? then host else fromAlloc)
                && blocks == Inserted(old(blocks), Position(old(blocks), maxLength), r.block)
                && mru == None && version == old(version) + 1
      ensures r.Added? && old(blocks) == [] ==> r.block.offset == 0
      ensures r.Added? && old(blocks) != [] ==>
                exists i, gap :: BestGap(old(blocks), maxLength, i, gap) && r.block.offset == End(old(blocks)[i])
      ensures r.Added? ==> BitsKept(old(blocks), old(dirty), dirty) && AllDirty(dirty, r.block.offset, usedLength)
      ensures r.Added? ==> BitsAfter(old(blocks), r.block, old(dirty), dirty)
    {
      var offset := FindRamOffset(blocks, maxLength);
      if offset.None? {
        return Aborted;
      }
      var mem := if host.Some? then host else fromAlloc;
      if mem.None? {
        return NoHostMemory;
      }
      var b := Block(offset.value, maxLength, usedLength, mem);
      Fits(blocks, b);
      AddAt(b);
      return Added(b);
    }

    /** qemu_ram_alloc_internal: the lengths are rounded up to whole host pages, which are whole target pages. */
    method RamAlloc(size: nat, maxSize: nat, hostPage: nat, host: Option<nat>, fromAlloc: Option<nat>)
      returns (r: AddResult)
      requires Valid() && hostPage > 0 && hostPage % TARGET_PAGE_SIZE == 0 && size <= maxSize
      requires 0 < maxSize && maxSize + hostPage <= RAM_ADDR_MAX
      modifies this
      ensures Valid()
      ensures !r.Added? ==> blocks == old(blocks) && dirty == old(dirty)
      ensures r.Added? ==> multiset(blocks) == multiset(old(blocks)) + multiset{r.block}
      ensures r.Added? ==>
                && size <= r.block.usedLength < size + hostPage && r.block.usedLength % hostPage == 0
                && maxSize <= r.block.maxLength < maxSize + hostPage && r.block.maxLength % hostPage == 0
      ensures r.Added? ==> BitsKept(old(blocks), old(dirty), dirty) && AllDirty(dirty, r.block.offset, size)
    {
      RoundedUp(size, hostPage);
      RoundedUp(maxSize, hostPage);
      var max, used := DivUp(maxSize, hostPage) * hostPage, DivUp(size, hostPage) * hostPage;
      ghost var was := blocks;
      MoreRounded(size, maxSize, hostPage);
      r := RamBlockAdd(max, used, host, fromAlloc);
      if r.Added? {
        InsertedOnce(was, Position(was, max), r.block);
        LessDirty(dirty, r.block.offset, used, size);
      }
    }

    /** A block that has its place: room in the bitmaps, entry into the list, first dirty bits. */
    method AddAt(b: Block)
      requires Valid() && BlockOk(b) && forall j :: 0 <= j < |blocks| ==> Apart(blocks[j], b)
      modifies this
      ensures Valid() && blocks == Inserted(old(blocks), Position(old(blocks), b.maxLength), b)
      ensures mru == None && version == old(version) + 1
      ensures BitsKept(old(blocks), old(dirty), dirty) && AllDirty(dirty, b.offset, b.usedLength)
      ensures BitsAfter(old(blocks), b, old(dirty), dirty)
    {
      ghost var was := blocks;
      MakeRoom(b);
      ghost var mid := dirty;
      Enter(b);
      DirtyNew(b);
      SparedAndMarked(was, b, old(dirty), mid, dirty);
      OthersKept(was, b, old(dirty), dirty);
    }

    /** The part of ram_block_add that enters the block into the list. */
    method Enter(b: Block)
      requires Valid() && BlockOk(b) && forall j :: 0 <= j < |blocks| ==> Apart(blocks[j], b)
      requires forall c :: 0 <= c < DIRTY_MEMORY_NUM ==>
                 End(b) <= |dirty[c]| * DIRTY_MEMORY_BLOCK_SIZE * TARGET_PAGE_SIZE
      modifies this`blocks, this`mru, this`version
      ensures Valid() && blocks == Inserted(old(blocks), Position(old(blocks), b.maxLength), b)
      ensures mru == None && version == old(version) + 1
    {
      var p := FindPosition(b.maxLength);
      InsertDisjoint(blocks, p, b);
      InsertSorted(blocks, b);
      forall c | 0 <= c < DIRTY_MEMORY_NUM
        ensures HasBits(Inserted(blocks, p, b), dirty[c])
      {
        InsertHasBits(blocks, p, b, dirty[c]);
      }
      blocks := Inserted(blocks, p, b);
      mru := None;
      version := version + 1;
    }

    /** The loop of ram_block_add over the list. */
    method FindPosition(length: nat) returns (p: nat)
      ensures p == Position(blocks, length)
    {
      p := 0;
      while p < |blocks| && blocks[p].maxLength >= length
        invariant 0 <= p <= Position(blocks, length)
      {
        p := p + 1;
      }
    }

    /** The end of ram_block_add: the used part of the block becomes dirty. */
    method DirtyNew(b: Block)
      requires Valid() && BlockOk(b)
      requires forall c :: 0 <= c < DIRTY_MEMORY_NUM ==>
                 End(b) <= |dirty[c]| * DIRTY_MEMORY_BLOCK_SIZE * TARGET_PAGE_SIZE
      modifies this`dirty
      ensures Valid()
      ensures AlsoMarked(b, old(dirty), dirty)
      ensures AllDirty(dirty, b.offset, b.usedLength)
    {
      SetDirtyRange(b.offset, b.usedLength, DIRTY_CLIENTS_ALL);
      forall c, p: nat | 0 <= c < DIRTY_MEMORY_NUM
        ensures Bit(dirty[c], p) <==> Marked(b, p) || old(Bit(dirty[c], p))
        ensures Touches(b.offset, b.usedLength, p) ==> Bit(dirty[c], p)
      {
        FilledBlock(old(dirty[c]), dirty[c], b, p);
      }
    }

    /** qemu_ram_free */
    method RamFree(k: nat)
      requires Valid() && k < |blocks|
      modifies this`blocks, this`mru, this`version
      ensures Valid() && blocks == old(blocks)[..k] + old(blocks)[k + 1..]
      ensures mru == None && version == old(version) + 1
    {
      RemoveKeeps(blocks, k);
      ghost var was := blocks;
      blocks := blocks[..k] + blocks[k + 1..];
      assert forall i :: 0 <= i < |blocks| ==> blocks[i] == was[if i < k then i else i + 1];
      mru := None;
      version := version + 1;
    }

    /** cpu_physical_memory_test_and_clear_dirty: exactly the pages that the range touches are cleared,
        and the result tells whether one of them was dirty. */
    method TestAndClearDirty(start: nat, length: nat, client: nat) returns (any: bool)
      requires Valid() && client < DIRTY_MEMORY_NUM
      requires start + length <= |dirty[client]| * DIRTY_MEMORY_BLOCK_SIZE * TARGET_PAGE_SIZE
      modifies this`dirty
      ensures Valid() && |dirty[client]| == |old(dirty[client])|
      ensures forall c :: 0 <= c < DIRTY_MEMORY_NUM && c != client ==> dirty[c] == old(dirty[c])
      ensures forall p: nat :: p < |dirty[client]| * DIRTY_MEMORY_BLOCK_SIZE ==>
                Bit(dirty[client], p) == (old(Bit(dirty[client], p)) && !Touches(start, length, p))
      ensures any == exists p :: 0 <= p < |dirty[client]| * DIRTY_MEMORY_BLOCK_SIZE
                                 && Touches(start, length, p) && old(Bit(dirty[client], p))
    {
      if length == 0 {
        return false;
      }
      var lo, hi := start / TARGET_PAGE_SIZE, DivUp(start + length, TARGET_PAGE_SIZE);
      var d;
      ghost var was := dirty[client];
      d, any := FillPages(dirty[client], lo, hi, false);
      dirty := dirty[client := d];
      forall p: nat
        ensures Touches(start, length, p) <==> lo <= p < hi
      {
        TouchesIs(start, length, p);
      }
    }

    /** cpu_physical_memory_set_dirty_range: the pages from the start rounded down to the end rounded up, for
        the clients of the mask. */
    method SetDirtyRange(start: nat, length: nat, mask: set<nat>)
      requires Valid()
      requires forall c :: 0 <= c < DIRTY_MEMORY_NUM ==>
                 DivUp(start + length, TARGET_PAGE_SIZE) <= |dirty[c]| * DIRTY_MEMORY_BLOCK_SIZE
      modifies this`dirty
      ensures Valid()
      ensures forall c :: 0 <= c < DIRTY_MEMORY_NUM ==>
                if c in mask then Filled(old(dirty[c]), dirty[c], start / TARGET_PAGE_SIZE,
                  DivUp(start + length, TARGET_PAGE_SIZE), true)
                else dirty[c] == old(dirty[c])
    {
      var lo, hi := start / TARGET_PAGE_SIZE, DivUp(start + length, TARGET_PAGE_SIZE);
      assert lo <= hi;
      for i := 0 to DIRTY_MEMORY_NUM
        invariant Valid()
        invariant forall c :: 0 <= c < DIRTY_MEMORY_NUM ==>
                    if c < i && c in mask then Filled(old(dirty[c]), dirty[c], lo, hi, true)
                      else dirty[c] == old(dirty[c])
      {
        if i in mask {
          var d, any := FillPages(dirty[i], lo, hi, true);
          dirty := dirty[i := d];
        }
      }
    }

    /** dirty_memory_extend: bitmaps up to the old size are kept, new ones are empty. */
    method DirtyMemoryExtend(oldSize: nat, newSize: nat)
      requires |dirty| == DIRTY_MEMORY_NUM
      requires forall c :: 0 <= c < DIRTY_MEMORY_NUM ==>
                 ChunksOk(dirty[c]) && DivUp(oldSize, DIRTY_MEMORY_BLOCK_SIZE) <= |dirty[c]|
      modifies this`dirty
      ensures |dirty| == DIRTY_MEMORY_NUM
      ensures forall c :: 0 <= c < DIRTY_MEMORY_NUM ==> Extended(old(dirty[c]), dirty[c], oldSize, newSize)
    {
      var oldNum, newNum := DivUp(oldSize, DIRTY_MEMORY_BLOCK_SIZE), DivUp(newSize, DIRTY_MEMORY_BLOCK_SIZE);
      if newNum <= oldNum {
        return;
      }
      for i := 0 to DIRTY_MEMORY_NUM
        invariant |dirty| == DIRTY_MEMORY_NUM
        invariant forall c :: 0 <= c < DIRTY_MEMORY_NUM ==>
                    if c < i then Extended(old(dirty[c]), dirty[c], oldSize, newSize) else dirty[c] == old(dirty[c])
      {
        dirty := dirty[i := dirty[i][..oldNum] + seq(newNum - oldNum, _ => EmptyBits())];
      }
    }
  }

  /** HOST_PAGE_ALIGN, for host pages that are whole target pages. */
  lemma {:induction false} RoundedUp(x: nat, page: nat)
    requires page > 0 && page % TARGET_PAGE_SIZE == 0
    ensures var r := DivUp(x, page) * page; x <= r < x + page && r % page == 0 && r % TARGET_PAGE_SIZE == 0
  {
    var n, q := DivUp(x, page), page / TARGET_PAGE_SIZE;
    DivOf(n, page, 0);
    assert n * page == n * q * TARGET_PAGE_SIZE;
    DivOf(n * q, TARGET_PAGE_SIZE, 0);
  }

  lemma {:induction false} MoreRounded(x: nat, y: nat, page: nat)
    requires page > 0 && page % TARGET_PAGE_SIZE == 0 && x <= y
    ensures DivUp(x, page) * page <= DivUp(y, page) * page
  {
    var m, n := DivUp(x, page), DivUp(y, page);
    RoundedUp(x, page);
    RoundedUp(y, page);
    if m > n {
      Scaled(n + 1, m, page);
      OneMore(n, page);
    } else {
      Scaled(m, n, page);
    }
  }

  lemma {:induction false} InsertedOnce(blocks: seq<Block>, p: nat, b: Block)
    requires p <= |blocks|
    ensures multiset(Inserted(blocks, p, b)) == multiset(blocks) + multiset{b}
  {
    assert blocks == blocks[..p] + blocks[p..];
  }

  lemma {:induction false} LessDirty(dirty: seq<Chunks>, start: nat, length: nat, less: nat)
    requires AllDirty(dirty, start, length) && less <= length
    ensures AllDirty(dirty, start, less)
  {
    forall c, p: nat | 0 <= c < DIRTY_MEMORY_NUM && Touches(start, less, p)
      ensures Bit(dirty[c], p)
    {
      assert Touches(start, length, p);
    }
  }

  /** The place that find_ram_offset chose is free. */
  lemma {:induction false} Fits(blocks: seq<Block>, b: Block)
    requires AllOk(blocks) && Disjoint(blocks) && b.maxLength % TARGET_PAGE_SIZE == 0
    requires 0 < b.maxLength <= RAM_ADDR_MAX && b.usedLength <= b.maxLength
    requires if blocks == [] then b.offset == 0
             else exists i, gap :: BestGap(blocks, b.maxLength, i, gap) && b.offset == End(blocks[i])
    ensures BlockOk(b) && forall j :: 0 <= j < |blocks| ==> Apart(blocks[j], b)
  {
    if blocks != [] {
      var i, gap :| BestGap(blocks, b.maxLength, i, gap) && b.offset == End(blocks[i]);
      GapIsFree(blocks, i, gap, b);
      SumAligned(blocks[i].offset, blocks[i].maxLength, TARGET_PAGE_SIZE);
    }
  }

  /** Pages outside a block are not touched when its used part becomes dirty. */
  lemma {:induction false} FilledBlock(c: Chunks, d: Chunks, b: Block, p: nat)
    requires ChunksOk(c) && BlockOk(b) && End(b) <= |c| * DIRTY_MEMORY_BLOCK_SIZE * TARGET_PAGE_SIZE
    requires Filled(c, d, b.offset / TARGET_PAGE_SIZE, DivUp(b.offset + b.usedLength, TARGET_PAGE_SIZE), true)
    ensures Bit(d, p) <==> Marked(b, p) || Bit(c, p)
    ensures Touches(b.offset, b.usedLength, p) ==> Bit(d, p)
  {
    if b.usedLength > 0 {
      TouchesIs(b.offset, b.usedLength, p);
    }
    if p >= |c| * DIRTY_MEMORY_BLOCK_SIZE {
      assert p / DIRTY_MEMORY_BLOCK_SIZE >= |c|;
    }
  }

  /** A page of a block in the list is never in a bitmap that is replaced. */
  lemma {:induction false} SparedPage(blocks: seq<Block>, b: Block, i: nat, p: nat)
    requires i < |blocks| && BlockOk(blocks[i]) && PageIn(blocks[i], p)
    ensures Spared(PagesOf(blocks), PagesWith(blocks, b), p)
  {
    PageBelow(p, End(blocks[i]), LastEnd(blocks));
  }

  lemma {:induction false} SparedAndMarked(blocks: seq<Block>, b: Block, dirty: seq<Chunks>, mid: seq<Chunks>,
                                           dirty': seq<Chunks>)
    requires OnlySpared(dirty, mid, PagesOf(blocks), PagesWith(blocks, b)) && AlsoMarked(b, mid, dirty')
    ensures BitsAfter(blocks, b, dirty, dirty')
  {
    forall c, p: nat | 0 <= c < DIRTY_MEMORY_NUM
      ensures Bit(dirty'[c], p) <==>
                Marked(b, p) || (Bit(dirty[c], p) && Spared(PagesOf(blocks), PagesWith(blocks, b), p))
    {
      assert Bit(mid[c], p) <==> Bit(dirty[c], p) && Spared(PagesOf(blocks), PagesWith(blocks, b), p);
    }
  }

  /** Which is why the blocks in the list keep their bits when one is added. */
  lemma {:induction false} OthersKept(blocks: seq<Block>, b: Block, dirty: seq<Chunks>, dirty': seq<Chunks>)
    requires AllOk(blocks) && BlockOk(b) && (forall j :: 0 <= j < |blocks| ==> Apart(blocks[j], b))
    requires BitsAfter(blocks, b, dirty, dirty')
    ensures BitsKept(blocks, dirty, dirty')
  {
    NoSharedPage(blocks, b);
    forall c, i, p: nat | 0 <= c < DIRTY_MEMORY_NUM && 0 <= i < |blocks| && PageIn(blocks[i], p)
      ensures Bit(dirty'[c], p) == Bit(dirty[c], p)
    {
      SparedPage(blocks, b, i, p);
      if Marked(b, p) {
        MarkedIn(b, p);
      }
    }
  }

  lemma {:induction false} PageBelow(p: nat, end: nat, last: nat)
    requires p * TARGET_PAGE_SIZE < end <= last && end % TARGET_PAGE_SIZE == 0
    ensures p < last / TARGET_PAGE_SIZE
  {
  }

  /** The pages that are marked lie in the block. */
  lemma {:induction false} MarkedIn(b: Block, p: nat)
    requires BlockOk(b) && Marked(b, p)
    ensures PageIn(b, p)
  {
    Whole(b.offset, TARGET_PAGE_SIZE);
    Whole(End(b), TARGET_PAGE_SIZE);
  }

  /** Exactly which bits are set after dirty_memory_extend: those that were, in bitmaps up to the old size,
      which is computed from the blocks that are in the list at the time; a freed block's bits behind the
      last one are dropped. */
  lemma {:induction false} ExtendedExact(c: Chunks, d: Chunks, oldSize: nat, newSize: nat, p: nat)
    requires ChunksOk(c) && Extended(c, d, oldSize, newSize)
    ensures Bit(d, p) <==> Bit(c, p) && Spared(oldSize, newSize, p)
  {
    var oldNum, i := DivUp(oldSize, DIRTY_MEMORY_BLOCK_SIZE), p / DIRTY_MEMORY_BLOCK_SIZE;
    if DivUp(newSize, DIRTY_MEMORY_BLOCK_SIZE) > oldNum && i < oldNum {
      assert d[i] == d[..oldNum][i] == c[..oldNum][i] == c[i];
    }
  }

  lemma {:induction false} AllExtended(dirty: seq<Chunks>, dirty': seq<Chunks>, oldSize: nat, newSize: nat)
    requires |dirty| == |dirty'| == DIRTY_MEMORY_NUM
    requires forall c :: 0 <= c < DIRTY_MEMORY_NUM ==>
               ChunksOk(dirty[c]) && Extended(dirty[c], dirty'[c], oldSize, newSize)
    ensures OnlySpared(dirty, dirty', oldSize, newSize)
  {
    forall c, p: nat | 0 <= c < DIRTY_MEMORY_NUM
      ensures Bit(dirty'[c], p) <==> Bit(dirty[c], p) && Spared(oldSize, newSize, p)
    {
      ExtendedExact(dirty[c], dirty'[c], oldSize, newSize, p);
    }
  }

  /** The bitmaps cover the pages of RAM, and once they cover those with a new block, they have its bits. */
  lemma {:induction false} RoomNow(blocks: seq<Block>, c: Chunks)
    requires HasBits(blocks, c)
    ensures PagesOf(blocks) <= |c| * DIRTY_MEMORY_BLOCK_SIZE && DivUp(PagesOf(blocks), DIRTY_MEMORY_BLOCK_SIZE) <= |c|
  {
  }

  lemma {:induction false} RoomThen(blocks: seq<Block>, b: Block, c: Chunks)
    requires AllOk(blocks) && BlockOk(b) && PagesWith(blocks, b) <= |c| * DIRTY_MEMORY_BLOCK_SIZE
    ensures HasBits(blocks, c) && End(b) <= |c| * DIRTY_MEMORY_BLOCK_SIZE * TARGET_PAGE_SIZE
  {
    Covered(b, End(b), |c| * DIRTY_MEMORY_BLOCK_SIZE);
    forall i | 0 <= i < |blocks|
      ensures End(blocks[i]) <= |c| * DIRTY_MEMORY_BLOCK_SIZE * TARGET_PAGE_SIZE
    {
      Covered(blocks[i], LastEnd(blocks), |c| * DIRTY_MEMORY_BLOCK_SIZE);
    }
  }

  lemma {:induction false} Covered(b: Block, last: nat, pages: nat)
    requires BlockOk(b) && End(b) <= last && last / TARGET_PAGE_SIZE <= pages
    ensures End(b) <= pages * TARGET_PAGE_SIZE
  {
    SumAligned(b.offset, b.maxLength, TARGET_PAGE_SIZE);
  }

  lemma {:induction false} ExtendedRoom(c: Chunks, d: Chunks, oldSize: nat, newSize: nat)
    requires ChunksOk(c) && Extended(c, d, oldSize, newSize) && DivUp(oldSize, DIRTY_MEMORY_BLOCK_SIZE) <= |c|
    ensures ChunksOk(d) && newSize <= |d| * DIRTY_MEMORY_BLOCK_SIZE
  {
  }

  function EmptyBits(): (r: seq<bool>)
    ensures |r| == DIRTY_MEMORY_BLOCK_SIZE && forall i :: 0 <= i < |r| ==> !r[i]
  {
    seq(DIRTY_MEMORY_BLOCK_SIZE, _ => false)
  }

  /** The effect of dirty_memory_extend on one client. */
  ghost predicate Extended(c: Chunks, d: Chunks, oldSize: nat, newSize: nat) {
    var oldNum, newNum := DivUp(oldSize, DIRTY_MEMORY_BLOCK_SIZE), DivUp(newSize, DIRTY_MEMORY_BLOCK_SIZE);
    if newNum <= oldNum then d == c
    else
      && oldNum <= |c| && |d| == newNum && ChunksOk(d) && d[..oldNum] == c[..oldNum]
      && forall i :: oldNum <= i < newNum ==> forall k :: 0 <= k < |d[i]| ==> !d[i][k]
  }

  /** Page `p` has a byte in common with a range. */
  predicate Touches(start: nat, length: nat, p: nat) {
    length > 0 && start < (p + 1) * TARGET_PAGE_SIZE && p * TARGET_PAGE_SIZE < start + length
  }

  lemma {:induction false} TouchesIs(start: nat, length: nat, p: nat)
    requires length > 0
    ensures Touches(start, length, p) <==> start / TARGET_PAGE_SIZE <= p < DivUp(start + length, TARGET_PAGE_SIZE)
  {
  }

  // ---------------------------------------------------------------------------------------------
  // A run that loses set bits
  // ---------------------------------------------------------------------------------------------

  const GIB8: nat := DIRTY_MEMORY_BLOCK_SIZE * TARGET_PAGE_SIZE

  lemma {:induction false} AfterOne(a: Block, size: nat)
    requires a.offset == 0 && a.maxLength == GIB8 && size <= 2 * GIB8
    ensures exists gap :: IsGap([a], 0, gap) && gap >= size
    ensures LastEnd([a]) == GIB8 && PagesOf([a]) == DIRTY_MEMORY_BLOCK_SIZE
  {
    assert IsGap([a], 0, RAM_ADDR_MAX - GIB8);
    assert [a][..0] == [];
  }

  /** Two blocks of 8 GiB, in use from end to end. */
  method TwoBlocks() returns (ram: RamState, a: Block)
    ensures fresh(ram) && ram.Valid() && |ram.blocks| == 2 && ram.blocks[0] == a && a.offset == 0 && a.maxLength == GIB8
    ensures forall p :: DIRTY_MEMORY_BLOCK_SIZE <= p < 2 * DIRTY_MEMORY_BLOCK_SIZE ==> Bit(ram.dirty[0], p)
  {
    ram := new RamState();
    var r := ram.RamBlockAdd(GIB8, GIB8, Some(GIB8), None);
    a := r.block;
    assert ram.blocks == [a];
    AfterOne(a, GIB8);
    var q := ram.RamBlockAdd(GIB8, GIB8, Some(2 * GIB8), None);
    assert ram.blocks == [a, q.block];
    forall p | DIRTY_MEMORY_BLOCK_SIZE <= p < 2 * DIRTY_MEMORY_BLOCK_SIZE
      ensures Bit(ram.dirty[0], p)
    {
      assert Marked(q.block, p);
    }
  }

  /** The second is freed, and a larger one with one page in use is added: the pages of the second block
      were dirty, and those that are not in use now are not dirty any more. */
  method FreeThenGrow(page: nat) returns (before: bool, after: bool)
    requires DIRTY_MEMORY_BLOCK_SIZE < page < 2 * DIRTY_MEMORY_BLOCK_SIZE
    ensures before && !after
  {
    var ram, a := TwoBlocks();
    before := Bit(ram.dirty[0], page);
    ram.RamFree(1);
    assert ram.blocks == [a];
    AfterOne(a, 2 * GIB8);
    var c := ram.RamBlockAdd(2 * GIB8, TARGET_PAGE_SIZE, Some(4 * GIB8), None);
    after := Bit(ram.dirty[0], page);
    assert !Marked(c.block, page) && !Spared(PagesOf([a]), PagesWith([a], c.block), page);
  }
}
