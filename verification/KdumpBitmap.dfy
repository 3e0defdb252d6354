/** The page bitmaps of a kdump-compressed vmcore (set_dump_bitmap and write_dump_bitmap in dump.c):
    built in a one-page buffer that is flushed as the page numbers grow, and stored twice. */
module KdumpBitmap {
  import opened Arithmetic
  import opened FlatFile
  import opened GuestPages
  import opened Options

  predicate Bit(b: byte, k: nat)
    requires k < 8
  {
    (b >> k) & 1 == 1
  }

  /** The byte with one bit set or cleared. */
  function WithBit(b: byte, j: nat, value: bool): byte
    requires j < 8
  {
    if value then b | (1 << j) else b & !(1 << j)
  }

  lemma {:induction false} SetBit(b: byte, j: nat, k: nat)
    requires j < 8 && k < 8
    ensures Bit(b | (1 << j), k) == (k == j || Bit(b, k))
  {
  }

  lemma {:induction false} ClearBit(b: byte, j: nat, k: nat)
    requires j < 8 && k < 8
    ensures Bit(b & !(1 << j), k) == (k != j && Bit(b, k))
  {
  }

  /** Byte number `a` of a bitmap says which of its eight pages are marked. */
  ghost predicate ByteMarks(b: byte, a: nat, marked: set<nat>) {
    forall k :: 0 <= k < 8 ==> (Bit(b, k) <==> 8 * a + k in marked)
  }

  /** Both copies of byte `a` are in the file. */
  ghost predicate Copied(records: seq<Record>, off: nat, len: nat, a: nat, marked: set<nat>) {
    && At(records, off + a).Some? && ByteMarks(At(records, off + a).value, a, marked)
    && At(records, off + len + a).Some? && ByteMarks(At(records, off + len + a).value, a, marked)
  }

  /** Both copies of the whole bitmap are in the file, one after the other. */
  ghost predicate BitmapsHeld(records: seq<Record>, off: nat, len: nat, marked: set<nat>) {
    forall a :: 0 <= a < len ==> Copied(records, off, len, a, marked)
  }

  /** The bitmap so far: in the file up to byte `base`, then in the buffer. */
  ghost predicate Marks(records: seq<Record>, off: nat, len: nat, cache: seq<byte>, base: nat, marked: set<nat>) {
    && (forall a :: 0 <= a < base ==> Copied(records, off, len, a, marked))
    && (forall i :: 0 <= i < |cache| ==> ByteMarks(cache[i], base + i, marked))
  }

  lemma {:induction false} FlushByte(records: seq<Record>, off: nat, len: nat, cache: seq<byte>, base: nat,
                                     marked: set<nat>, a: nat)
    requires Marks(records, off, len, cache, base, marked) && base + |cache| <= len && a < base + |cache|
    ensures Copied(records + [Record(off + base, cache)] + [Record(off + len + base, cache)], off, len, a, marked)
  {
    var r1, r2 := Record(off + base, cache), Record(off + len + base, cache);
    AtAppend(records, r1, off + a);
    AtAppend(records, r1, off + len + a);
    AtAppend(records + [r1], r2, off + a);
    AtAppend(records + [r1], r2, off + len + a);
    if a < base {
      assert Copied(records, off, len, a, marked);
    } else {
      assert ByteMarks(cache[a - base], base + (a - base), marked);
    }
  }

  lemma {:induction false} Flush(records: seq<Record>, off: nat, len: nat, cache: seq<byte>, base: nat,
                                 marked: set<nat>, zeros: seq<byte>)
    requires Marks(records, off, len, cache, base, marked) && base + |cache| <= len
    requires forall n :: n in marked ==> n < 8 * (base + |cache|)
    requires forall i :: 0 <= i < |zeros| ==> zeros[i] == 0
    ensures Marks(records + [Record(off + base, cache)] + [Record(off + len + base, cache)],
                  off, len, zeros, base + |cache|, marked)
  {
    var records' := records + [Record(off + base, cache)] + [Record(off + len + base, cache)];
    forall a | 0 <= a < base + |cache|
      ensures Copied(records', off, len, a, marked)
    {
      FlushByte(records, off, len, cache, base, marked, a);
    }
  }

  /** Marking one page in the buffer. */
  lemma {:induction false} MarkByte(b: byte, a: nat, j: nat, value: bool, i: nat, marked: set<nat>, b': byte)
    requires j < 8 && ByteMarks(b, i, marked)
    requires b' == if i != a then b else WithBit(b, j, value)
    ensures ByteMarks(b', i, if value then marked + {8 * a + j} else marked - {8 * a + j})
  {
    forall k | 0 <= k < 8
      ensures Bit(b', k) <==> 8 * i + k in if value then marked + {8 * a + j} else marked - {8 * a + j}
    {
      SetBit(b, j, k);
      ClearBit(b, j, k);
    }
  }

  /** The marked pages after set_dump_bitmap. */
  ghost function Marked(marked: set<nat>, pfn: nat, value: bool): set<nat> {
    if value then marked + {pfn} else marked - {pfn}
  }

  lemma {:induction false} Mark(records: seq<Record>, off: nat, len: nat, cache: seq<byte>, base: nat, marked: set<nat>,
             pfn: nat, byte_: nat, bit: nat, value: bool, cache': seq<byte>)
    requires Marks(records, off, len, cache, base, marked) && byte_ < |cache| && bit < 8
    requires pfn == 8 * (base + byte_) + bit
    requires cache' == cache[byte_ := WithBit(cache[byte_], bit, value)]
    ensures Marks(records, off, len, cache', base, Marked(marked, pfn, value))
  {
    forall a | 0 <= a < base
      ensures Copied(records, off, len, a, Marked(marked, pfn, value))
    {
      assert Copied(records, off, len, a, marked);
    }
    forall i | 0 <= i < |cache'|
      ensures ByteMarks(cache'[i], base + i, Marked(marked, pfn, value))
    {
      MarkByte(cache[i], base + byte_, bit, value, base + i, marked, cache'[i]);
    }
  }

  /** The fields of DumpState that place the bitmaps. */
  class BitmapWriter {
    const file: File
    const ps: nat      // page_size: also the size of the buffer
    const off: nat     // offset_dump_bitmap
    const len: nat     // len_dump_bitmap

    constructor (file: File, ps: nat, off: nat, len: nat)
      ensures this.file == file && this.ps == ps && this.off == off && this.len == len
    {
      this.file, this.ps, this.off, this.len := file, ps, off, len;
    }

    /** One round of set_dump_bitmap's loop. */
    method FlushBuffer(buf: array<byte>, base: nat, ghost marked: set<nat>) returns (ret: int)
      requires buf.Length == ps && base + ps <= len
      requires Marks(file.records, off, len, buf[..], base, marked)
      requires forall n :: n in marked ==> n < 8 * (base + ps)
      modifies buf, file
      ensures ret == 0 || (ret == -1 && file.room == 0)
      ensures ret == 0 ==> Marks(file.records, off, len, buf[..], base + ps, marked)
      ensures Inside(old(file.records), file.records, off, off + 2 * len)
    {
      ghost var was, cache := file.records, buf[..];
      ret := file.WriteBuffer(off + base, buf[..]);
      if ret < 0 {
        return;
      }
      ret := file.WriteBuffer(off + len + base, buf[..]);
      if ret < 0 {
        return;
      }
      forall i | 0 <= i < ps {
        buf[i] := 0;
      }
      Flush(was, off, len, cache, base, marked, buf[..]);
      assert file.records == was + [Record(off + base, cache)] + [Record(off + len + base, cache)];
    }

    /** Where set_dump_bitmap finds the buffer of a page. */
    method BufferOffset(pfn: nat) returns (offset: nat)
      requires ps > 0
      ensures offset == Base(ps, pfn)
    {
      BaseIs(ps, pfn);
      offset := ps * (pfn / (8 * ps));
    }

    /** Where set_dump_bitmap finds the bit of a page in its buffer. */
    method BitPlace(pfn: nat) returns (byte_: nat, bit: nat)
      requires ps > 0
      ensures byte_ < ps && bit < 8 && 8 * (Base(ps, pfn) + byte_) + bit == pfn
    {
      BaseIs(ps, pfn);
      BaseBound(ps, pfn);
      byte_ := pfn % (8 * ps) / 8;
      bit := pfn % (8 * ps) % 8;
      Remainder(ps, pfn);
    }

    /** The loop of set_dump_bitmap: writes out the buffers before the one of page `pfn`. */
    method FlushUpTo(lastPfn: nat, pfn: nat, buf: array<byte>, ghost marked: set<nat>) returns (ret: int)
      requires ps > 0 && buf.Length == ps && lastPfn <= pfn && Base(ps, pfn) <= len
      requires Marks(file.records, off, len, buf[..], Base(ps, lastPfn), marked)
      requires forall n :: n in marked ==> n <= lastPfn
      modifies buf, file
      ensures ret == 0 || (ret == -1 && file.room == 0)
      ensures ret == 0 ==> Marks(file.records, off, len, buf[..], Base(ps, pfn), marked)
      ensures Inside(old(file.records), file.records, off, off + 2 * len)
    {
      var oldOffset := BufferOffset(lastPfn);
      var newOffset := BufferOffset(pfn);
      ghost var w: nat := lastPfn;
      BaseBound(ps, lastPfn);
      BaseGrows(ps, lastPfn, pfn);
      while oldOffset < newOffset
        invariant oldOffset == Base(ps, w) && Base(ps, lastPfn) <= oldOffset <= newOffset
        invariant Marks(file.records, off, len, buf[..], oldOffset, marked)
        invariant Inside(old(file.records), file.records, off, off + 2 * len)
        decreases newOffset - oldOffset
      {
        BaseStep(ps, w, pfn);
        ret := FlushBuffer(buf, oldOffset, marked);
        if ret < 0 {
          return;
        }
        oldOffset := oldOffset + ps;
        w := w + 8 * ps;
      }
      return 0;
    }

    /** set_dump_bitmap: `marked` are the pages marked so far, none after `lastPfn`. */
    method SetDumpBitmap(lastPfn: nat, pfn: nat, value: bool, buf: array<byte>, ghost marked: set<nat>)
      returns (ret: int)
      requires ps > 0 && buf.Length == ps && lastPfn <= pfn && Base(ps, pfn) <= len
      requires Marks(file.records, off, len, buf[..], Base(ps, lastPfn), marked)
      requires forall n :: n in marked ==> n <= lastPfn
      modifies buf, file
      ensures ret == 0 || (ret == -1 && file.room == 0)
      ensures ret == 0 ==> Marks(file.records, off, len, buf[..], Base(ps, pfn),
                                 Marked(marked, pfn, value))
      ensures Inside(old(file.records), file.records, off, off + 2 * len)
    {
      ret := FlushUpTo(lastPfn, pfn, buf, marked);
      if ret < 0 {
        return;
      }
      SetInBuffer(pfn, value, buf, marked);
    }

    /** The end of set_dump_bitmap: the buffer is the one of page `pfn`. */
    method SetInBuffer(pfn: nat, value: bool, buf: array<byte>, ghost marked: set<nat>)
      requires ps > 0 && buf.Length == ps && Marks(file.records, off, len, buf[..], Base(ps, pfn), marked)
      modifies buf
      ensures Marks(file.records, off, len, buf[..], Base(ps, pfn), Marked(marked, pfn, value))
    {
      ghost var cache := buf[..];
      var byte_, bit := BitPlace(pfn);
      buf[byte_] := WithBit(buf[byte_], bit, value);
      Mark(file.records, off, len, cache, Base(ps, pfn), marked, pfn, byte_, bit, value, buf[..]);
    }

    /** Marks the next page of the list. */
    method MarkPage(lastPfn: nat, pfn: nat, buf: array<byte>, ghost pages: seq<Page>, ghost n: nat) returns (ret: int)
      requires Ordered(pages) && n < |pages| && pfn == pages[n].pfn && lastPfn == LastOf(pages, n)
      requires ps > 0 && buf.Length == ps && len == Base(ps, LastOf(pages, |pages|)) + ps
      requires Marks(file.records, off, len, buf[..], Base(ps, lastPfn), Pfns(pages[..n]))
      modifies buf, file
      ensures ret == 0 || (ret == -1 && file.room == 0)
      ensures ret == 0 ==> Marks(file.records, off, len, buf[..], Base(ps, pfn), Pfns(pages[..n + 1]))
      ensures Inside(old(file.records), file.records, off, off + 2 * len)
    {
      PfnsBelow(pages, n);
      BaseGrows(ps, pfn, pages[|pages| - 1].pfn);
      ret := SetDumpBitmap(lastPfn, pfn, true, buf, Pfns(pages[..n]));
      PfnsNext(pages, n);
    }

    /** The last step of write_dump_bitmap writes out the last buffer. */
    method SyncBitmap(lastPfn: nat, buf: array<byte>, ghost pages: seq<Page>) returns (ret: int)
      requires Ordered(pages) && |pages| > 0 && lastPfn == LastOf(pages, |pages|)
      requires ps > 0 && buf.Length == ps && len == Base(ps, lastPfn) + ps
      requires Marks(file.records, off, len, buf[..], Base(ps, lastPfn), Pfns(pages))
      modifies buf, file
      ensures ret == 0 || (ret == -1 && file.room == 0)
      ensures ret == 0 ==> BitmapsHeld(file.records, off, len, Pfns(pages))
      ensures Inside(old(file.records), file.records, off, off + 2 * len)
    {
      PfnsBelow(pages, |pages|);
      assert pages[..|pages|] == pages;
      ret := SetDumpBitmap(lastPfn, lastPfn + 8 * ps, false, buf, Pfns(pages));
      assert Marked(Pfns(pages), lastPfn + 8 * ps, false) == Pfns(pages);
    }

    /** The loop of write_dump_bitmap: all pages are marked, the last buffer is not yet written out. */
    method MarkPages(it: PageIter, buf: array<byte>) returns (ret: int, numDumpable: nat, lastPfn: nat)
      requires it.Valid() && it.next == 0 && Ordered(it.pages) && |it.pages| > 0
      requires ps > 0 && len == Base(ps, LastOf(it.pages, |it.pages|)) + ps
      requires buf.Length == ps && forall i :: 0 <= i < ps ==> buf[i] == 0
      modifies file, buf, it
      ensures ret == 0 || (ret == -1 && file.room == 0)
      ensures Inside(old(file.records), file.records, off, off + 2 * len)
      ensures ret == 0 ==> numDumpable == |it.pages| && lastPfn == LastOf(it.pages, |it.pages|)
      ensures ret == 0 ==> Marks(file.records, off, len, buf[..], Base(ps, lastPfn), Pfns(it.pages))
    {
      ghost var pages := it.pages;
      NothingMarked(file.records, off, len, buf[..], ps, pages);
      lastPfn := 0;
      numDumpable := 0;
      ret := 0;
      var more, page := it.Next();
      while more
        invariant ret == 0 && more == (numDumpable < |pages|) && numDumpable <= |pages|
        invariant more ==> it.Valid() && it.next == numDumpable + 1 && pages[numDumpable].pfn == it.pfn
        invariant lastPfn == LastOf(pages, numDumpable)
        invariant Marks(file.records, off, len, buf[..], Base(ps, lastPfn), Pfns(pages[..numDumpable]))
        invariant Inside(old(file.records), file.records, off, off + 2 * len)
        decreases |pages| - numDumpable, more
      {
        ghost var before := file.records;
        ret := MarkPage(lastPfn, it.pfn, buf, pages, numDumpable);
        InsideJoins(old(file.records), before, file.records, off, off + 2 * len);
        if ret < 0 {
          return;
        }
        lastPfn := it.pfn;
        numDumpable := numDumpable + 1;
        more, page := it.Next();
      }
      assert pages[..numDumpable] == pages;
    }

    /** write_dump_bitmap: afterwards both bitmaps are in the file, and say for every page number
        whether it is a guest page. */
    method WriteDumpBitmap(blocks: seq<Block>) returns (ret: int, numDumpable: nat)
      requires Usable(ps, blocks) && blocks != [] && len == BitmapLength(ps, MaxMapnr(ps, blocks))
      modifies file
      ensures ret == 0 || (ret == -1 && file.room == 0)
      ensures ret == 0 ==> numDumpable == |PageList(ps, blocks)|
      ensures ret == 0 ==> BitmapsHeld(file.records, off, len, Pfns(PageList(ps, blocks)))
      ensures Inside(old(file.records), file.records, off, off + 2 * len)
    {
      LastBase(ps, blocks);
      var buf := new byte[ps](_ => 0);
      var lastPfn;
      var it := new PageIter(ps, blocks);
      ret, numDumpable, lastPfn := MarkPages(it, buf);
      if ret == 0 && numDumpable > 0 {
        ghost var before := file.records;
        ret := SyncBitmap(lastPfn, buf, PageList(ps, blocks));
        InsideJoins(old(file.records), before, file.records, off, off + 2 * len);
      }
    }
  }

  ghost function Pfns(pages: seq<Page>): set<nat> {
    set k | 0 <= k < |pages| :: pages[k].pfn
  }

  ghost function LastOf(pages: seq<Page>, n: nat): nat
    requires n <= |pages|
  {
    if n == 0 then 0 else pages[n - 1].pfn
  }

  /** Page numbers come in order, so that no marked page is after the last one. */
  lemma {:induction false} PfnsBelow(pages: seq<Page>, n: nat)
    requires Ordered(pages) && n <= |pages|
    ensures forall p :: p in Pfns(pages[..n]) ==> p <= LastOf(pages, n)
    ensures n < |pages| ==> LastOf(pages, n) <= pages[n].pfn <= pages[|pages| - 1].pfn
  {
  }

  lemma {:induction false} NothingMarked(records: seq<Record>, off: nat, len: nat, cache: seq<byte>, ps: nat,
                                         pages: seq<Page>)
    requires ps > 0 && forall i :: 0 <= i < |cache| ==> cache[i] == 0
    ensures Marks(records, off, len, cache, Base(ps, 0), Pfns(pages[..0]))
  {
    assert Base(ps, 0) == 0 && Pfns(pages[..0]) == {};
  }

  lemma {:induction false} PfnsNext(pages: seq<Page>, n: nat)
    requires n < |pages|
    ensures Pfns(pages[..n]) + {pages[n].pfn} == Pfns(pages[..n + 1])
  {
    assert forall k :: 0 <= k < n ==> pages[..n][k] == pages[..n + 1][k];
    assert pages[..n + 1][n] == pages[n];
  }

  // ---------------------------------------------------------------------------------------------
  // The layout computed by get_max_mapnr and dump_init
  // ---------------------------------------------------------------------------------------------

  /** get_max_mapnr */
  function MaxMapnr(ps: nat, blocks: seq<Block>): nat
    requires ps > 0 && blocks != []
  {
    End(blocks[|blocks| - 1]) / ps
  }

  /** len_dump_bitmap */
  function BitmapLength(ps: nat, maxMapnr: nat): nat
    requires ps > 0
  {
    DivUp(DivUp(maxMapnr, 8), ps) * ps
  }

  /** The bitmap is exactly as long as its buffers up to the one of the last page. */
  lemma {:induction false} LengthIs(ps: nat, maxMapnr: nat)
    requires ps > 0
    ensures maxMapnr > 0 ==> BitmapLength(ps, maxMapnr) == Base(ps, maxMapnr - 1) + ps
  {
    if maxMapnr > 0 {
      var n := maxMapnr - 1;
      assert DivUp(maxMapnr, 8) == n / 8 + 1;
      UpByOne(n / 8, ps);
      DivDiv(n, ps);
      BaseIs(ps, n);
    }
  }

  /** The buffer of the last page ends with the bitmap. */
  lemma {:induction false} LastBase(ps: nat, blocks: seq<Block>)
    requires Usable(ps, blocks) && blocks != []
    ensures var pages := PageList(ps, blocks);
      |pages| > 0 && Ordered(pages) && BitmapLength(ps, MaxMapnr(ps, blocks)) == Base(ps, LastOf(pages, |pages|)) + ps
  {
    LastPage(ps, blocks);
    ListOrdered(ps, blocks);
    LengthIs(ps, MaxMapnr(ps, blocks));
  }

  lemma {:induction false} LastPage(ps: nat, blocks: seq<Block>)
    requires Usable(ps, blocks) && blocks != []
    ensures var pages := PageList(ps, blocks);
      |pages| > 0 && pages[|pages| - 1].pfn + 1 == MaxMapnr(ps, blocks)
  {
    var b := blocks[|blocks| - 1];
    FirstPage(ps, b);
    assert PageList(ps, blocks)[|PageList(ps, blocks)| - 1] == PageOf(ps, b, Count(ps, b) - 1);
    SumDiv(ps, b.start, |b.data|);
  }

  // ---------------------------------------------------------------------------------------------
  // Arithmetic of buffers
  // ---------------------------------------------------------------------------------------------

  lemma {:induction false} SumDiv(ps: nat, m: nat, n: nat)
    requires ps > 0 && m % ps == 0 && n % ps == 0
    ensures (m + n) / ps == m / ps + n / ps
  {
    assert m + n == (m / ps + n / ps) * ps;
    DivOf(m / ps + n / ps, ps, 0);
  }

  lemma {:induction false} UpByOne(n: nat, d: nat)
    requires d > 0
    ensures (n + d) / d == n / d + 1
  {
    assert n + d == (n / d + 1) * d + n % d;
    DivOf(n / d + 1, d, n % d);
  }

  lemma {:induction false} DivDiv(n: nat, ps: nat)
    requires ps > 0
    ensures n / 8 / ps == n / (8 * ps)
  {
    var q, r := n / 8 / ps, n / 8 % ps;
    assert n == 8 * (q * ps + r) + n % 8;
    assert n == q * (8 * ps) + (8 * r + n % 8);
    DivOf(q, 8 * ps, 8 * r + n % 8);
  }

  /** The offset in a bitmap of the buffer with page `pfn`. */
  function Base(ps: nat, pfn: nat): nat
    requires ps > 0
  {
    if pfn < 8 * ps then 0 else Base(ps, pfn - 8 * ps) + ps
  }

  lemma {:induction false} BaseIs(ps: nat, pfn: nat)
    requires ps > 0
    ensures ps * (pfn / (8 * ps)) == Base(ps, pfn)
    decreases pfn
  {
    if pfn >= 8 * ps {
      var m := pfn - 8 * ps;
      BaseIs(ps, m);
      UpByOne(m, 8 * ps);
      OneMore(m / (8 * ps), ps);
    } else {
      DivOf(0, 8 * ps, pfn);
    }
  }

  lemma {:induction false} BaseBound(ps: nat, pfn: nat)
    requires ps > 0
    ensures 8 * Base(ps, pfn) <= pfn < 8 * (Base(ps, pfn) + ps)
    decreases pfn
  {
    if pfn >= 8 * ps {
      BaseBound(ps, pfn - 8 * ps);
    }
  }

  lemma {:induction false} BaseGrows(ps: nat, m: nat, n: nat)
    requires ps > 0 && m <= n
    ensures Base(ps, m) <= Base(ps, n)
    decreases m
  {
    if m >= 8 * ps {
      BaseGrows(ps, m - 8 * ps, n - 8 * ps);
    }
  }

  /** Buffers do not overlap. */
  lemma {:induction false} BaseStep(ps: nat, m: nat, n: nat)
    requires ps > 0 && Base(ps, m) < Base(ps, n)
    ensures Base(ps, m) + ps <= Base(ps, n)
    decreases m
  {
    if m >= 8 * ps {
      BaseStep(ps, m - 8 * ps, n - 8 * ps);
    }
  }

  lemma {:induction false} Remainder(ps: nat, pfn: nat)
    requires ps > 0
    ensures pfn % (8 * ps) == pfn - 8 * (ps * (pfn / (8 * ps)))
  {
    var q := pfn / (8 * ps);
    assert q * (8 * ps) == 8 * (ps * q);
  }
}
