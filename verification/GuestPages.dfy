/** The guest-physical blocks of dump.c and memory_mapping.c, and the page iterator get_next_page. */
module GuestPages {
  import opened Arithmetic
  import opened FlatFile
  import opened Options

  /** GuestPhysBlock: target_start, and the memory at host_addr up to target_end. */
  datatype Block = Block(start: nat, data: seq<byte>)

  function End(b: Block): nat {
    b.start + |b.data|
  }

  /** What get_next_page asserts of a block; a block has at least one page. */
  predicate Paged(ps: nat, b: Block)
    requires ps > 0
  {
    b.start % ps == 0 && |b.data| % ps == 0 && |b.data| > 0
  }

  /** Sorted, disjoint and page-aligned blocks. */
  predicate Usable(ps: nat, blocks: seq<Block>) {
    && ps > 0
    && (forall i :: 0 <= i < |blocks| ==> Paged(ps, blocks[i]))
    && (forall i, j :: 0 <= i < j < |blocks| ==> End(blocks[i]) <= blocks[j].start)
  }

  datatype Page = Page(pfn: nat, bytes: seq<byte>)

  function First(ps: nat, b: Block): nat
    requires ps > 0
  {
    b.start / ps
  }

  function Count(ps: nat, b: Block): nat
    requires ps > 0
  {
    |b.data| / ps
  }

  lemma {:induction false} Slice(ps: nat, n: nat, j: nat)
    requires ps > 0 && j < n / ps
    ensures 0 <= j * ps && j * ps + ps <= n
  {
    assert (j + 1) * ps <= n / ps * ps;
  }

  function PageOf(ps: nat, b: Block, j: nat): (r: Page)
    requires ps > 0 && j < Count(ps, b)
    ensures |r.bytes| == ps
  {
    Slice(ps, |b.data|, j);
    Page(First(ps, b) + j, b.data[j * ps..j * ps + ps])
  }

  predicate HasPage(ps: nat, b: Block, pfn: nat)
    requires ps > 0
  {
    First(ps, b) <= pfn < First(ps, b) + Count(ps, b)
  }

  /** The bytes of guest page number `pfn`, if a block holds it. */
  function GuestPage(ps: nat, blocks: seq<Block>, pfn: nat): Option<seq<byte>>
    requires ps > 0
  {
    if blocks == [] then None
    else
      var b := blocks[|blocks| - 1];
      if HasPage(ps, b, pfn) then Some(PageOf(ps, b, pfn - First(ps, b)).bytes)
      else GuestPage(ps, blocks[..|blocks| - 1], pfn)
  }

  function BlockPages(ps: nat, b: Block): seq<Page>
    requires ps > 0
  {
    seq(Count(ps, b), j requires 0 <= j < Count(ps, b) => PageOf(ps, b, j))
  }

  /** All pages, in the order of the blocks. */
  function PageList(ps: nat, blocks: seq<Block>): seq<Page>
    requires ps > 0
  {
    if blocks == [] then [] else PageList(ps, blocks[..|blocks| - 1]) + BlockPages(ps, blocks[|blocks| - 1])
  }

  /** The number of pages in the first `i` blocks. */
  function Before(ps: nat, blocks: seq<Block>, i: nat): nat
    requires ps > 0 && i <= |blocks|
  {
    |PageList(ps, blocks[..i])|
  }

  lemma {:induction false} ListPrefix(ps: nat, blocks: seq<Block>, i: nat)
    requires ps > 0 && i <= |blocks|
    ensures PageList(ps, blocks[..i]) <= PageList(ps, blocks)
    decreases |blocks|
  {
    if i < |blocks| {
      ListPrefix(ps, blocks[..|blocks| - 1], i);
      assert blocks[..|blocks| - 1][..i] == blocks[..i];
    } else {
      assert blocks[..i] == blocks;
    }
  }

  lemma {:induction false} BeforeNext(ps: nat, blocks: seq<Block>, i: nat)
    requires ps > 0 && i < |blocks|
    ensures Before(ps, blocks, i + 1) == Before(ps, blocks, i) + Count(ps, blocks[i]) <= |PageList(ps, blocks)|
  {
    assert blocks[..i + 1][..i] == blocks[..i];
    ListPrefix(ps, blocks, i + 1);
  }

  lemma {:induction false} ListAt(ps: nat, blocks: seq<Block>, i: nat, j: nat)
    requires ps > 0 && i < |blocks| && j < Count(ps, blocks[i])
    ensures Before(ps, blocks, i) + j < |PageList(ps, blocks)|
    ensures PageList(ps, blocks)[Before(ps, blocks, i) + j] == PageOf(ps, blocks[i], j)
  {
    assert blocks[..i + 1][..i] == blocks[..i];
    ListPrefix(ps, blocks, i + 1);
  }

  // ---------------------------------------------------------------------------------------------
  // Pages are listed once each, in order
  // ---------------------------------------------------------------------------------------------

  ghost predicate Ordered(pages: seq<Page>) {
    forall k, l :: 0 <= k < l < |pages| ==> pages[k].pfn < pages[l].pfn
  }

  lemma {:induction false} EndPage(ps: nat, b: Block, b': Block)
    requires ps > 0 && Paged(ps, b) && Paged(ps, b') && End(b) <= b'.start
    ensures First(ps, b) + Count(ps, b) <= First(ps, b')
  {
    assert First(ps, b) * ps == b.start && Count(ps, b) * ps == |b.data| && First(ps, b') * ps == b'.start;
    assert (First(ps, b) + Count(ps, b)) * ps <= First(ps, b') * ps;
  }

  lemma {:induction false} ListOrdered(ps: nat, blocks: seq<Block>)
    requires Usable(ps, blocks)
    ensures Ordered(PageList(ps, blocks))
    ensures blocks != [] ==> forall k :: 0 <= k < |PageList(ps, blocks)| ==>
              PageList(ps, blocks)[k].pfn < First(ps, blocks[|blocks| - 1]) + Count(ps, blocks[|blocks| - 1])
  {
    if |blocks| > 0 {
      var front := blocks[..|blocks| - 1];
      ListOrdered(ps, front);
      if |front| > 0 {
        EndPage(ps, front[|front| - 1], blocks[|blocks| - 1]);
      }
    }
  }

  ghost predicate Sized(ps: nat, pages: seq<Page>) {
    forall k :: 0 <= k < |pages| ==> |pages[k].bytes| == ps
  }

  lemma {:induction false} ListSized(ps: nat, blocks: seq<Block>)
    requires ps > 0
    ensures Sized(ps, PageList(ps, blocks))
  {
    if |blocks| > 0 {
      ListSized(ps, blocks[..|blocks| - 1]);
    }
  }

  /** A page is listed with its bytes, */
  lemma {:induction false} ListIsGuest(ps: nat, blocks: seq<Block>, k: nat)
    requires Usable(ps, blocks) && k < |PageList(ps, blocks)|
    ensures GuestPage(ps, blocks, PageList(ps, blocks)[k].pfn) == Some(PageList(ps, blocks)[k].bytes)
  {
    var front, b := blocks[..|blocks| - 1], blocks[|blocks| - 1];
    if k < |PageList(ps, front)| {
      ListIsGuest(ps, front, k);
      ListOrdered(ps, front);
      EndPage(ps, front[|front| - 1], b);
      assert PageList(ps, blocks)[k] == PageList(ps, front)[k];
    } else {
      assert PageList(ps, blocks)[k] == PageOf(ps, b, k - |PageList(ps, front)|);
    }
  }

  /** and it is listed if a block holds it. */
  lemma {:induction false} GuestIsListed(ps: nat, blocks: seq<Block>, pfn: nat) returns (k: nat)
    requires Usable(ps, blocks) && GuestPage(ps, blocks, pfn).Some?
    ensures k < |PageList(ps, blocks)| && PageList(ps, blocks)[k].pfn == pfn
  {
    var front, b := blocks[..|blocks| - 1], blocks[|blocks| - 1];
    if HasPage(ps, b, pfn) {
      k := |PageList(ps, front)| + (pfn - First(ps, b));
      assert PageList(ps, blocks)[k] == PageOf(ps, b, pfn - First(ps, b));
    } else {
      k := GuestIsListed(ps, front, pfn);
    }
  }

  /** In terms of addresses: a block holds the page if it holds the addresses of the page, and the
      page's bytes are the bytes at these addresses. */
  lemma {:induction false} PageAddresses(ps: nat, b: Block, pfn: nat)
    requires ps > 0 && Paged(ps, b)
    ensures HasPage(ps, b, pfn) <==> b.start <= pfn * ps && pfn * ps + ps <= End(b)
    ensures HasPage(ps, b, pfn) ==>
              PageOf(ps, b, pfn - First(ps, b)).bytes == b.data[pfn * ps - b.start..pfn * ps - b.start + ps]
  {
    if First(ps, b) <= pfn <= First(ps, b) + Count(ps, b) {
      StaysInBlock(ps, b, pfn);
    } else if pfn < First(ps, b) {
      Whole(b.start, ps);
      Distributes(pfn, 1, ps);
      Scaled(pfn + 1, First(ps, b), ps);
    } else {
      Whole(b.start, ps);
      Whole(|b.data|, ps);
      Distributes(First(ps, b), Count(ps, b), ps);
      Scaled(First(ps, b) + Count(ps, b), pfn, ps);
    }
  }

  // ---------------------------------------------------------------------------------------------
  // get_next_page
  // ---------------------------------------------------------------------------------------------

  /** The iteration state that the callers of get_next_page keep; `block` is empty at the start. */
  class PageIter {
    const ps: nat
    const blocks: seq<Block>
    var block: Option<nat>
    var pfn: nat
    ghost const pages: seq<Page>
    ghost var next: nat   // how many pages have been delivered

    ghost predicate Valid()
      reads this
    {
      && Usable(ps, blocks) && blocks != [] && pages == PageList(ps, blocks)
      && match block {
           case None => next == 0
           case Some(i) =>
             && i < |blocks| && First(ps, blocks[i]) <= pfn < First(ps, blocks[i]) + Count(ps, blocks[i])
             && next == Before(ps, blocks, i) + (pfn - First(ps, blocks[i])) + 1
         }
    }

    constructor (ps: nat, blocks: seq<Block>)
      requires Usable(ps, blocks) && blocks != []
      ensures Valid() && next == 0 && pages == PageList(ps, blocks)
    {
      this.ps := ps;
      this.blocks := blocks;
      block := None;
      pfn := 0;
      pages := PageList(ps, blocks);
      next := 0;
    }

    /** get_next_page delivers the pages of all blocks, each once and in order. */
    method Next() returns (more: bool, buf: seq<byte>)
      requires Valid()
      modifies this
      ensures more == (old(next) < |pages|)
      ensures more ==> Valid() && next == old(next) + 1 && pages[old(next)] == Page(pfn, buf)
    {
      if block.None? {
        EnterBlock(0);
        return true, blocks[0].data[..ps];
      }
      var i := block.value;
      more, buf := StayInBlock(i);
      if more {
        return;
      }
      if i + 1 == |blocks| {
        assert blocks[..i + 1] == blocks;
        return false, [];
      }
      EnterBlock(i + 1);
      return true, blocks[i + 1].data[..ps];
    }

    /** The first test of get_next_page: is the page after this one still in the block? */
    method StayInBlock(i: nat) returns (inside: bool, buf: seq<byte>)
      requires Valid() && block == Some(i)
      modifies this
      ensures i < |blocks| && block == Some(i)
      ensures inside ==> Valid() && next == old(next) + 1 <= |pages| && pages[old(next)] == Page(pfn, buf)
      ensures !inside ==> next == old(next) == Before(ps, blocks, i + 1) <= |pages|
    {
      var b := blocks[i];
      pfn := pfn + 1;
      var addr := pfn * ps;
      AddressTest(ps, b, pfn, addr);
      BeforeNext(ps, blocks, i);
      inside, buf := false, [];
      if addr >= b.start && addr + ps <= End(b) {
        ListAtAddress(ps, blocks, i, pfn, addr);
        buf := b.data[addr - b.start..addr - b.start + ps];
        next := next + 1;
        inside := true;
      }
    }

    method EnterBlock(i: nat)
      requires Usable(ps, blocks) && i < |blocks| && pages == PageList(ps, blocks)
      modifies this
      ensures Valid() && block == Some(i) && next == Before(ps, blocks, i) + 1
      ensures |blocks[i].data| >= ps && next <= |pages| && pages[next - 1] == Page(pfn, blocks[i].data[..ps])
    {
      FirstPage(ps, blocks[i]);
      ListAt(ps, blocks, i, 0);
      block := Some(i);
      pfn := blocks[i].start / ps;
      next := Before(ps, blocks, i) + 1;
    }
  }

  /** The address test of get_next_page decides whether the page number is still in the block. */
  lemma {:induction false} AddressTest(ps: nat, b: Block, pfn: nat, addr: nat)
    requires ps > 0 && Paged(ps, b) && First(ps, b) <= pfn && addr == pfn * ps
    ensures addr >= b.start && (addr + ps <= End(b) <==> HasPage(ps, b, pfn))
  {
    PageAddresses(ps, b, pfn);
    AboveFirst(ps, b, pfn);
  }

  lemma {:induction false} ListAtAddress(ps: nat, blocks: seq<Block>, i: nat, pfn: nat, addr: nat)
    requires Usable(ps, blocks) && i < |blocks| && HasPage(ps, blocks[i], pfn) && addr == pfn * ps
    ensures blocks[i].start <= addr && addr + ps <= End(blocks[i])
    ensures Before(ps, blocks, i) + (pfn - First(ps, blocks[i])) < |PageList(ps, blocks)|
    ensures PageList(ps, blocks)[Before(ps, blocks, i) + (pfn - First(ps, blocks[i]))]
            == Page(pfn, blocks[i].data[addr - blocks[i].start..addr - blocks[i].start + ps])
  {
    PageAddresses(ps, blocks[i], pfn);
    ListAt(ps, blocks, i, pfn - First(ps, blocks[i]));
  }

  lemma {:induction false} AboveFirst(ps: nat, b: Block, pfn: nat)
    requires ps > 0 && Paged(ps, b) && First(ps, b) <= pfn
    ensures b.start <= pfn * ps
  {
    Scaled(First(ps, b), pfn, ps);
  }

  lemma {:induction false} FirstPage(ps: nat, b: Block)
    requires ps > 0 && Paged(ps, b)
    ensures Count(ps, b) > 0 && |b.data| >= ps && PageOf(ps, b, 0) == Page(First(ps, b), b.data[..ps])
  {
    assert Count(ps, b) * ps == |b.data|;
  }

  lemma {:induction false} StaysInBlock(ps: nat, b: Block, pfn: nat)
    requires ps > 0 && Paged(ps, b) && First(ps, b) <= pfn <= First(ps, b) + Count(ps, b)
    ensures pfn * ps - b.start == (pfn - First(ps, b)) * ps
    ensures pfn * ps >= b.start && (pfn * ps + ps <= End(b) <==> pfn < First(ps, b) + Count(ps, b))
  {
    var f, j, c := First(ps, b), pfn - First(ps, b), Count(ps, b);
    Whole(b.start, ps);
    Whole(|b.data|, ps);
    Distributes(f, j, ps);
    if j < c {
      Distributes(j, 1, ps);
      Scaled(j + 1, c, ps);
    }
  }

}
