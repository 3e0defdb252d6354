/** How memory_mapping.c turns the sections of the guest's address space into a list of blocks, and into the
    mapping list of an ELF vmcore. */
module GuestBlocks {
  import opened Arithmetic
  import opened FlatFile
  import Pages = GuestPages
  import opened Options

  /** MemoryRegionSection: what the listener sees.  `ram` is memory_region_is_ram and not a RAM device. */
  datatype Section = Section(start: nat, size: nat, host: nat, ram: bool)

  /** GuestPhysBlock: target_start, target_end and host_addr. */
  datatype HostBlock = HostBlock(start: nat, end: nat, host: nat)

  predicate Covers(b: HostBlock, a: nat) {
    b.start <= a < b.end
  }

  /** Where the host keeps guest address `a`, as a list of blocks says it. */
  function HostAt(blocks: seq<HostBlock>, a: nat): Option<nat> {
    if blocks == [] then None
    else
      var b := blocks[|blocks| - 1];
      if Covers(b, a) then Some(b.host + (a - b.start)) else HostAt(blocks[..|blocks| - 1], a)
  }

  predicate RamOf(s: Section, a: nat) {
    s.ram && s.start <= a < s.start + s.size
  }

  /** The same as the sections say it. */
  function RamAt(sections: seq<Section>, a: nat): Option<nat> {
    if sections == [] then None
    else
      var s := sections[|sections| - 1];
      if RamOf(s, a) then Some(s.host + (a - s.start)) else RamAt(sections[..|sections| - 1], a)
  }

  /** The memory API's traversal: non-empty sections by increasing address. */
  predicate Ascending(sections: seq<Section>) {
    && (forall i :: 0 <= i < |sections| ==> sections[i].size > 0)
    && (forall i, j :: 0 <= i < j < |sections| ==> sections[i].start + sections[i].size <= sections[j].start)
  }

  predicate Adjoin(b: HostBlock, c: HostBlock) {
    b.end == c.start && b.host + (b.end - b.start) == c.host
  }

  /** Non-empty, sorted and disjoint blocks. */
  predicate Ordered(blocks: seq<HostBlock>) {
    && (forall i :: 0 <= i < |blocks| ==> blocks[i].start < blocks[i].end)
    && (forall i, j :: 0 <= i < j < |blocks| ==> blocks[i].end <= blocks[j].start)
  }

  /** Ordered, and no two neighbours continue each other in both guest and host memory. */
  predicate Canonical(blocks: seq<HostBlock>) {
    Ordered(blocks) && forall i :: 0 < i < |blocks| ==> !Adjoin(blocks[i - 1], blocks[i])
  }

  predicate EndsBy(blocks: seq<HostBlock>, a: nat) {
    blocks == [] || blocks[|blocks| - 1].end <= a
  }

  // ---------------------------------------------------------------------------------------------
  // guest_phys_blocks_region_add
  // ---------------------------------------------------------------------------------------------

  function BlockOf(s: Section): HostBlock {
    HostBlock(s.start, s.start + s.size, s.host)
  }

  function Added(blocks: seq<HostBlock>, s: Section): seq<HostBlock> {
    if !s.ram then blocks
    else
      var n := |blocks|;
      if n > 0 && Adjoin(blocks[n - 1], BlockOf(s)) then blocks[n - 1 := blocks[n - 1].(end := s.start + s.size)]
      else blocks + [BlockOf(s)]
  }

  lemma {:induction false} AddedCanonical(blocks: seq<HostBlock>, s: Section)
    requires Canonical(blocks) && s.size > 0 && (s.ram ==> EndsBy(blocks, s.start))
    ensures Canonical(Added(blocks, s)) && (EndsBy(blocks, s.start) ==> EndsBy(Added(blocks, s), s.start + s.size))
  {
    var n, t := |blocks|, Added(blocks, s);
    forall i | 0 < i < |t|
      ensures !Adjoin(t[i - 1], t[i])
    {
      if i < n {
        assert !Adjoin(blocks[i - 1], blocks[i]);
      }
    }
  }

  lemma {:induction false} AddedAt(blocks: seq<HostBlock>, s: Section, a: nat)
    requires Canonical(blocks) && s.size > 0 && (s.ram ==> EndsBy(blocks, s.start))
    ensures HostAt(Added(blocks, s), a) == if RamOf(s, a) then Some(s.host + (a - s.start)) else HostAt(blocks, a)
  {
    var n, t := |blocks|, Added(blocks, s);
    if s.ram && t != blocks {
      if |t| == n {
        assert t[..n - 1] == blocks[..n - 1];
      } else {
        assert t[..n] == blocks;
      }
    }
  }

  function Built(sections: seq<Section>): seq<HostBlock> {
    if sections == [] then [] else Added(Built(sections[..|sections| - 1]), sections[|sections| - 1])
  }

  /** The block list keeps the memory map of the sections and is in canonical form. */
  lemma {:induction false} BuiltCanonical(sections: seq<Section>)
    requires Ascending(sections)
    ensures Canonical(Built(sections))
    ensures forall e :: (sections == [] || sections[|sections| - 1].start + sections[|sections| - 1].size <= e) ==>
              EndsBy(Built(sections), e)
    decreases |sections|
  {
    if sections != [] {
      var n := |sections| - 1;
      BuiltCanonical(sections[..n]);
      assert n > 0 ==> sections[n - 1].start + sections[n - 1].size <= sections[n].start;
      assert EndsBy(Built(sections[..n]), sections[n].start);
      AddedCanonical(Built(sections[..n]), sections[n]);
    }
  }

  lemma {:induction false} BuiltBefore(sections: seq<Section>)
    requires Ascending(sections) && sections != []
    ensures var n := |sections| - 1; Canonical(Built(sections[..n])) && EndsBy(Built(sections[..n]), sections[n].start)
  {
    var n := |sections| - 1;
    BuiltCanonical(sections[..n]);
    assert n > 0 ==> sections[n - 1].start + sections[n - 1].size <= sections[n].start;
  }

  lemma {:induction false} BuiltAt(sections: seq<Section>, a: nat)
    requires Ascending(sections)
    ensures HostAt(Built(sections), a) == RamAt(sections, a)
    decreases |sections|
  {
    if sections != [] {
      var n := |sections| - 1;
      BuiltAt(sections[..n], a);
      BuiltBefore(sections);
      AddedAt(Built(sections[..n]), sections[n], a);
    }
  }

  // ---------------------------------------------------------------------------------------------
  // The list depends on the memory map alone
  // ---------------------------------------------------------------------------------------------

  predicate SameMap(xs: seq<HostBlock>, ys: seq<HostBlock>, a: nat) {
    HostAt(xs, a) == HostAt(ys, a)
  }

  lemma {:induction false} PastEnd(blocks: seq<HostBlock>, a: nat)
    requires Ordered(blocks) && EndsBy(blocks, a)
    ensures HostAt(blocks, a) == None
    decreases |blocks|
  {
    if blocks != [] {
      var n := |blocks| - 1;
      assert n > 0 ==> blocks[n - 1].end <= blocks[n].start;
      PastEnd(blocks[..n], a);
    }
  }

  /** The last blocks of two canonical lists of one memory map end, and lie in the host, alike. */
  lemma {:induction false} LastEnds(xs: seq<HostBlock>, ys: seq<HostBlock>)
    requires Canonical(xs) && Canonical(ys) && xs != []
    requires forall a {:trigger SameMap(xs, ys, a)} :: SameMap(xs, ys, a)
    ensures ys != []
    ensures xs[|xs| - 1].end <= ys[|ys| - 1].end
  {
    var x := xs[|xs| - 1];
    assert SameMap(xs, ys, x.end - 1);
    if ys == [] || ys[|ys| - 1].end < x.end {
      PastEnd(ys, x.end - 1);
    }
  }

  lemma {:induction false} LastStarts(xs: seq<HostBlock>, ys: seq<HostBlock>)
    requires Canonical(xs) && Canonical(ys) && xs != [] && ys != []
    requires xs[|xs| - 1].end == ys[|ys| - 1].end
    requires forall a {:trigger SameMap(xs, ys, a)} :: SameMap(xs, ys, a)
    ensures ys[|ys| - 1].start <= xs[|xs| - 1].start
  {
    var x, y := xs[|xs| - 1], ys[|ys| - 1];
    assert SameMap(xs, ys, x.end - 1);
    if x.start < y.start {
      var n := |ys| - 1;
      assert SameMap(xs, ys, y.start - 1);
      assert HostAt(ys[..n], y.start - 1) == Some(y.host - 1);
      if n == 0 || ys[n - 1].end < y.start {
        PastEnd(ys[..n], y.start - 1);
      }
    }
  }

  lemma {:induction false} FrontSame(xs: seq<HostBlock>, ys: seq<HostBlock>, a: nat)
    requires Canonical(xs) && Canonical(ys) && xs != [] && ys != [] && xs[|xs| - 1] == ys[|ys| - 1]
    requires SameMap(xs, ys, a)
    ensures SameMap(xs[..|xs| - 1], ys[..|ys| - 1], a)
  {
    var m, n := |xs| - 1, |ys| - 1;
    if Covers(xs[m], a) {
      assert m > 0 ==> xs[m - 1].end <= xs[m].start;
      assert n > 0 ==> ys[n - 1].end <= ys[n].start;
      PastEnd(xs[..m], a);
      PastEnd(ys[..n], a);
    }
  }

  lemma {:induction false} CanonicalUnique(xs: seq<HostBlock>, ys: seq<HostBlock>)
    requires Canonical(xs) && Canonical(ys)
    requires forall a {:trigger SameMap(xs, ys, a)} :: SameMap(xs, ys, a)
    ensures xs == ys
    decreases |xs|
  {
    assert forall a {:trigger SameMap(ys, xs, a)} :: SameMap(ys, xs, a) by {
      forall a
        ensures SameMap(ys, xs, a)
      {
        assert SameMap(xs, ys, a);
      }
    }
    if xs == [] {
      if ys != [] {
        LastEnds(ys, xs);
      }
    } else {
      LastEnds(xs, ys);
      LastEnds(ys, xs);
      LastStarts(xs, ys);
      LastStarts(ys, xs);
      var m, n := |xs| - 1, |ys| - 1;
      assert SameMap(xs, ys, xs[m].end - 1);
      assert xs[m] == ys[n];
      forall a
        ensures SameMap(xs[..m], ys[..n], a)
      {
        assert SameMap(xs, ys, a);
        FrontSame(xs, ys, a);
      }
      CanonicalUnique(xs[..m], ys[..n]);
      assert xs == xs[..m] + [xs[m]] && ys == ys[..n] + [ys[n]];
    }
  }

  /** However the address space is cut into sections, the same memory gives the same blocks. */
  lemma {:induction false} CuttingIrrelevant(ss: seq<Section>, ts: seq<Section>)
    requires Ascending(ss) && Ascending(ts)
    requires forall a :: RamAt(ss, a) == RamAt(ts, a)
    ensures Built(ss) == Built(ts)
  {
    BuiltCanonical(ss);
    BuiltCanonical(ts);
    forall a
      ensures SameMap(Built(ss), Built(ts), a)
    {
      BuiltAt(ss, a);
      BuiltAt(ts, a);
    }
    CanonicalUnique(Built(ss), Built(ts));
  }

  // ---------------------------------------------------------------------------------------------
  // Blocks for the kdump-compressed format
  // ---------------------------------------------------------------------------------------------

  /** The bytes of host memory behind a block. */
  function HostBytes(mem: nat -> byte, host: nat, n: nat): (r: seq<byte>)
    ensures |r| == n
  {
    seq(n, i requires 0 <= i < n => mem(host + i))
  }

  function Filled(mem: nat -> byte, b: HostBlock): Pages.Block {
    Pages.Block(b.start, HostBytes(mem, b.host, if b.start <= b.end then b.end - b.start else 0))
  }

  function AllFilled(mem: nat -> byte, blocks: seq<HostBlock>): seq<Pages.Block> {
    seq(|blocks|, i requires 0 <= i < |blocks| => Filled(mem, blocks[i]))
  }

  predicate Aligned(ps: nat, b: HostBlock)
    requires ps > 0
  {
    b.start % ps == 0 && b.end % ps == 0
  }

  lemma {:induction false} BuiltAligned(ps: nat, sections: seq<Section>, i: nat)
    requires ps > 0 && i < |Built(sections)|
    requires forall k :: 0 <= k < |sections| ==> sections[k].start % ps == 0 && sections[k].size % ps == 0
    ensures Aligned(ps, Built(sections)[i])
    decreases |sections|
  {
    if sections != [] {
      var n := |sections| - 1;
      SumAligned(sections[n].start, sections[n].size, ps);
      if i < |Built(sections[..n])| {
        BuiltAligned(ps, sections[..n], i);
      }
    }
  }

  /** Page-aligned sections give the blocks that get_next_page asserts it is handed. */
  lemma {:induction false} BuiltUsable(ps: nat, mem: nat -> byte, sections: seq<Section>)
    requires ps > 0 && Ascending(sections)
    requires forall k :: 0 <= k < |sections| ==> sections[k].start % ps == 0 && sections[k].size % ps == 0
    ensures Pages.Usable(ps, AllFilled(mem, Built(sections)))
  {
    var blocks := Built(sections);
    BuiltCanonical(sections);
    forall i | 0 <= i < |blocks|
      ensures Pages.Paged(ps, AllFilled(mem, blocks)[i])
    {
      BuiltAligned(ps, sections, i);
      SumAligned(blocks[i].end, blocks[i].start, ps);
    }
  }

  class GuestPhysBlockList {
    var blocks: seq<HostBlock>

    /** guest_phys_blocks_init */
    constructor ()
      ensures blocks == []
    {
      blocks := [];
    }

    /** guest_phys_blocks_region_add */
    method RegionAdd(s: Section)
      requires Canonical(blocks) && s.size > 0 && (s.ram ==> EndsBy(blocks, s.start))
      modifies this
      ensures blocks == Added(old(blocks), s) && Canonical(blocks)
      ensures forall a: nat :: HostAt(blocks, a) == if RamOf(s, a) then Some(s.host + (a - s.start))
              else HostAt(old(blocks), a)
    {
      AddedCanonical(blocks, s);
      forall a: nat
        ensures HostAt(Added(blocks, s), a) == if RamOf(s, a) then Some(s.host + (a - s.start)) else HostAt(blocks, a)
      {
        AddedAt(blocks, s, a);
      }
      if !s.ram {
        return;
      }
      var joins := false;
      var last := |blocks| - 1;
      if blocks != [] {
        var size := blocks[last].end - blocks[last].start;
        joins := !(blocks[last].end < s.start || blocks[last].host + size != s.host);
      }
      if joins {
        blocks := blocks[last := blocks[last].(end := s.start + s.size)];
      } else {
        blocks := blocks + [HostBlock(s.start, s.start + s.size, s.host)];
      }
    }

    /** guest_phys_blocks_append: the listener is told about each section in turn. */
    method Append(sections: seq<Section>)
      requires blocks == [] && Ascending(sections)
      modifies this
      ensures blocks == Built(sections) && Canonical(blocks)
      ensures forall a: nat :: HostAt(blocks, a) == RamAt(sections, a)
    {
      var i := 0;
      while i < |sections|
        invariant 0 <= i <= |sections| && blocks == Built(sections[..i])
      {
        BuiltCanonical(sections[..i]);
        assert i > 0 ==> sections[i - 1].start + sections[i - 1].size <= sections[i].start;
        assert EndsBy(blocks, sections[i].start);
        RegionAdd(sections[i]);
        assert sections[..i + 1][..i] == sections[..i];
        i := i + 1;
      }
      assert sections[..i] == sections;
      BuiltCanonical(sections);
      forall a: nat
        ensures HostAt(Built(sections), a) == RamAt(sections, a)
      {
        BuiltAt(sections, a);
      }
    }
  }
}
