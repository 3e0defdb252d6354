/** A kdump-compressed vmcore as a whole (write_dump_pages and create_kdump_vmcore in dump.c). */
module Kdump {
  import opened Arithmetic
  import opened FlatFile
  import opened GuestPages
  import opened KdumpBitmap
  import opened KdumpPages
  import opened Options

  /** Two caches in front of one file: the descriptor area ends where the data begins. */
  ghost predicate Paired(desc: DataCache, data: DataCache, ps: nat)
    reads desc, data, desc.buf, data.buf, desc.file
  {
    && desc != data && desc.buf != data.buf && desc.file == data.file
    && desc.Valid() && data.Valid() && desc.start + |desc.written| <= data.start
    && desc.buf.Length == data.buf.Length == 4 * ps
  }

  /** One descriptor; the data area is left alone. */
  method WriteDesc(desc: DataCache, data: DataCache, f: Format, d: Desc) returns (ret: int)
    requires FormatOk(f) && Paired(desc, data, f.ps) && desc.start + |desc.written| + DESC_SIZE <= data.start
    modifies desc, desc.buf, desc.file
    ensures ret == 0 || (ret == -1 && desc.file.room == 0)
    ensures ret == 0 ==> Paired(desc, data, f.ps) && desc.written == old(desc.written) + f.encode(d)
    ensures Inside(old(desc.file.records), desc.file.records, desc.start, desc.start + |old(desc.written)|)
  {
    ret := desc.Write(f.encode(d), false);
    BufferedOutside(old(desc.file.records), desc.file.records, desc.start, desc.start + |old(desc.written)|,
                    data.start, data.written, data.offset, data.buf[..data.dataSize]);
  }

  /** The bytes of one page; the descriptor area is left alone. */
  method WriteData(desc: DataCache, data: DataCache, f: Format, bytes: seq<byte>) returns (ret: int)
    requires FormatOk(f) && Paired(desc, data, f.ps) && |bytes| <= f.ps
    modifies data, data.buf, data.file
    ensures ret == 0 || (ret == -1 && desc.file.room == 0)
    ensures ret == 0 ==> Paired(desc, data, f.ps) && data.written == old(data.written) + bytes
    ensures Inside(old(desc.file.records), desc.file.records, data.start, data.start + |old(data.written)|)
  {
    ret := data.Write(bytes, false);
    BufferedOutside(old(desc.file.records), desc.file.records, data.start, data.start + |old(data.written)|,
                    desc.start, desc.written, desc.offset, desc.buf[..desc.dataSize]);
  }

  /** The body of write_dump_pages' loop. */
  method WritePage(desc: DataCache, data: DataCache, f: Format, zero: nat, offsetData: nat, page: seq<byte>)
    returns (ret: int, offsetAfter: nat)
    requires FormatOk(f) && Paired(desc, data, f.ps) && desc.start + |desc.written| + DESC_SIZE <= data.start
    requires |page| == f.ps && zero == data.start && offsetData == data.start + |data.written|
    modifies desc, desc.buf, data, data.buf, desc.file
    ensures ret == 0 || (ret == -1 && desc.file.room == 0)
    ensures ret == 0 ==> Paired(desc, data, f.ps) && offsetAfter == data.start + |data.written|
    ensures ret == 0 ==> desc.written == old(desc.written) + f.encode(DescFor(f, data.start, offsetData, page))
    ensures ret == 0 ==> data.written == old(data.written) + Payload(f, page)
    ensures Past(old(desc.file.records), desc.file.records, desc.start)
  {
    offsetAfter := offsetData;
    if IsZero(page) {
      ret := WriteDesc(desc, data, f, Desc(zero, f.ps, 0, 0));
      return;
    }
    var out, flags := page, 0;
    var packed := f.compress(page);
    if packed.Some? && |packed.value| < f.ps {
      out, flags := packed.value, f.flag;
    }
    ret := WriteData(desc, data, f, out);
    if ret < 0 {
      return;
    }
    offsetAfter := offsetData + |out|;
    ret := WriteDesc(desc, data, f, Desc(offsetData, |out|, flags, 0));
  }

  /** Pages `..n` have been given to the caches. */
  ghost predicate Given(desc: DataCache, data: DataCache, f: Format, pages: seq<Page>, n: nat)
    requires n <= |pages|
    reads desc, data, desc.buf, data.buf, desc.file
  {
    && Paired(desc, data, f.ps) && data.start == desc.start + DESC_SIZE * |pages|
    && desc.written == DescsOf(f, data.start, pages, n) && data.written == DataOf(f, pages, n)
    && Sized(f.ps, pages)
  }

  method WriteListed(desc: DataCache, data: DataCache, f: Format, zero: nat, offsetData: nat, page: seq<byte>,
                     ghost pages: seq<Page>, ghost n: nat)
    returns (ret: int, offsetAfter: nat)
    requires FormatOk(f) && n < |pages| && Given(desc, data, f, pages, n)
    requires pages[n].bytes == page && zero == data.start && offsetData == zero + |data.written|
    modifies desc, desc.buf, data, data.buf, desc.file
    ensures ret == 0 || (ret == -1 && desc.file.room == 0)
    ensures ret == 0 ==> Given(desc, data, f, pages, n + 1) && offsetAfter == zero + |data.written|
    ensures Past(old(desc.file.records), desc.file.records, desc.start)
  {
    DescsLength(f, zero, pages, n);
    OneMoreListed(f, zero, pages, n);
    ret, offsetAfter := WritePage(desc, data, f, zero, offsetData, page);
  }

  lemma {:induction false} OneMoreListed(f: Format, zero: nat, pages: seq<Page>, n: nat)
    requires n < |pages|
    ensures DescsOf(f, zero, pages, n + 1) ==
            DescsOf(f, zero, pages, n) + f.encode(DescFor(f, zero, zero + |DataOf(f, pages, n)|, pages[n].bytes))
    ensures DataOf(f, pages, n + 1) == DataOf(f, pages, n) + Payload(f, pages[n].bytes)
  {
  }

  /** The page that the iterator stands at, if there is one. */
  ghost predicate AtPage(it: PageIter, more: bool, page: seq<byte>, n: nat)
    reads it
  {
    && n <= |it.pages| && more == (n < |it.pages|)
    && (more ==> it.Valid() && it.next == n + 1 && it.pages[n].bytes == page)
  }

  method NextPage(it: PageIter, ghost page: seq<byte>, ghost n: nat) returns (more: bool, next: seq<byte>)
    requires n < |it.pages| && AtPage(it, true, page, n)
    modifies it
    ensures AtPage(it, more, next, n + 1)
  {
    more, next := it.Next();
  }

  /** The loop of write_dump_pages. */
  method WriteAll(desc: DataCache, data: DataCache, f: Format, zero: nat, it: PageIter) returns (ret: int)
    requires FormatOk(f) && it.Valid() && it.next == 0 && it.pages != []
    requires Given(desc, data, f, it.pages, 0) && zero == data.start
    modifies desc, desc.buf, data, data.buf, desc.file, it
    ensures ret == 0 || (ret == -1 && desc.file.room == 0)
    ensures ret == 0 ==> Given(desc, data, f, it.pages, |it.pages|)
    ensures Past(old(desc.file.records), desc.file.records, desc.start)
  {
    var more, page := it.Next();
    ret := WriteRest(desc, data, f, zero, zero + f.ps, it, more, page);
  }

  method WriteRest(desc: DataCache, data: DataCache, f: Format, zero: nat, offset: nat, it: PageIter, first: bool,
                   bytes: seq<byte>)
    returns (ret: int)
    requires FormatOk(f) && AtPage(it, first, bytes, 0)
    requires Given(desc, data, f, it.pages, 0) && zero == data.start && offset == zero + |data.written|
    modifies desc, desc.buf, data, data.buf, desc.file, it
    ensures ret == 0 || (ret == -1 && desc.file.room == 0)
    ensures ret == 0 ==> Given(desc, data, f, it.pages, |it.pages|)
    ensures Past(old(desc.file.records), desc.file.records, desc.start)
  {
    ghost var n := 0;
    var offsetData, more, page := offset, first, bytes;
    ret := 0;
    while more
      invariant ret == 0 && 0 <= n <= |it.pages| && AtPage(it, more, page, n)
      invariant Given(desc, data, f, it.pages, n) && offsetData == zero + |data.written|
      invariant Past(old(desc.file.records), desc.file.records, desc.start)
      decreases |it.pages| - n
    {
      ghost var before := desc.file.records;
      ret, offsetData, more, page := WriteNext(desc, data, f, zero, offsetData, page, it, n);
      PastJoins(old(desc.file.records), before, desc.file.records, desc.start);
      if ret < 0 {
        return;
      }
      n := n + 1;
    }
  }

  /** One round of the loop: the page at hand is written and the next one fetched. */
  method WriteNext(desc: DataCache, data: DataCache, f: Format, zero: nat, offsetData: nat, page: seq<byte>,
                   it: PageIter, ghost n: nat)
    returns (ret: int, offsetAfter: nat, more: bool, next: seq<byte>)
    requires FormatOk(f) && n < |it.pages| && AtPage(it, true, page, n)
    requires Given(desc, data, f, it.pages, n) && zero == data.start && offsetData == zero + |data.written|
    modifies desc, desc.buf, data, data.buf, desc.file, it
    ensures ret == 0 || (ret == -1 && desc.file.room == 0)
    ensures ret == 0 ==> Given(desc, data, f, it.pages, n + 1) && offsetAfter == zero + |data.written|
    ensures ret == 0 ==> AtPage(it, more, next, n + 1)
    ensures Past(old(desc.file.records), desc.file.records, desc.start)
  {
    more, next := false, [];
    ret, offsetAfter := WriteListed(desc, data, f, zero, offsetData, page, it.pages, n);
    if ret < 0 {
      return;
    }
    more, next := NextPage(it, page, n);
  }

  /** The descriptors of all guest pages, and behind them the page data. */
  ghost predicate PagesHeld(records: seq<Record>, f: Format, blocks: seq<Block>, table: nat)
    requires f.ps > 0
  {
    var pages := PageList(f.ps, blocks);
    BothHeld(records, f, table, table + DESC_SIZE * |pages|, pages)
  }

  /** write_dump_pages: afterwards the descriptors and the page data are in the file. */
  method WriteDumpPages(file: File, f: Format, blocks: seq<Block>, table: nat, numDumpable: nat) returns (ret: int)
    requires FormatOk(f) && Usable(f.ps, blocks) && blocks != [] && numDumpable == |PageList(f.ps, blocks)|
    modifies file
    ensures ret == 0 || (ret == -1 && file.room == 0)
    ensures ret == 0 ==> PagesHeld(file.records, f, blocks, table)
    ensures Past(old(file.records), file.records, table)
  {
    var it := StartIter(f.ps, blocks);
    ret := WritePages(file, f, it, table, numDumpable);
    if ret == 0 {
      HeldAs(file.records, f, blocks, table, table + DESC_SIZE * numDumpable, it.pages);
    }
  }

  lemma {:induction false} HeldAs(records: seq<Record>, f: Format, blocks: seq<Block>, table: nat, zero: nat,
                                  pages: seq<Page>)
    requires f.ps > 0 && pages == PageList(f.ps, blocks) && zero == table + DESC_SIZE * |pages|
    requires BothHeld(records, f, table, zero, pages)
    ensures PagesHeld(records, f, blocks, table)
  {
  }

  method StartIter(ps: nat, blocks: seq<Block>) returns (it: PageIter)
    requires Usable(ps, blocks) && blocks != []
    ensures fresh(it) && it.Valid() && it.next == 0 && it.pages == PageList(ps, blocks) && it.pages != [] &&
            Sized(ps, it.pages)
  {
    it := new PageIter(ps, blocks);
    ListSized(ps, blocks);
    LastPage(ps, blocks);
  }

  /** The shared zero page comes first. */
  method StartPages(file: File, f: Format, table: nat, numDumpable: nat, ghost pages: seq<Page>)
    returns (ret: int, desc: DataCache, data: DataCache)
    requires FormatOk(f) && numDumpable == |pages| && Sized(f.ps, pages)
    modifies file
    ensures desc.file == file && desc.start == table && data.start == table + DESC_SIZE * numDumpable
    ensures fresh(desc) && fresh(desc.buf) && fresh(data) && fresh(data.buf)
    ensures ret == 0 || (ret == -1 && file.room == 0)
    ensures ret == 0 ==> Given(desc, data, f, pages, 0)
    ensures Past(old(file.records), file.records, table)
  {
    desc := new DataCache(file, table, 4 * f.ps);
    data := new DataCache(file, table + DESC_SIZE * numDumpable, 4 * f.ps);
    ret := WriteData(desc, data, f, Zeros(f.ps));
  }

  method WritePages(file: File, f: Format, it: PageIter, table: nat, numDumpable: nat) returns (ret: int)
    requires FormatOk(f) && it.Valid() && it.next == 0 && it.pages != [] && Sized(f.ps, it.pages)
    requires numDumpable == |it.pages|
    modifies file, it
    ensures ret == 0 || (ret == -1 && file.room == 0)
    ensures ret == 0 ==> BothHeld(file.records, f, table, table + DESC_SIZE * numDumpable, it.pages)
    ensures Past(old(file.records), file.records, table)
  {
    var desc, data;
    ret, desc, data := StartPages(file, f, table, numDumpable, it.pages);
    if ret < 0 {
      return;
    }
    ghost var before := file.records;
    ret := WriteAll(desc, data, f, table + DESC_SIZE * numDumpable, it);
    PastJoins(old(file.records), before, file.records, table);
    if ret == 0 {
      before := file.records;
      ret := SyncBoth(file, desc, data, f, table, table + DESC_SIZE * numDumpable, it.pages);
      PastJoins(old(file.records), before, file.records, table);
    }
  }

  method SyncBoth(ghost file: File, desc: DataCache, data: DataCache, f: Format, ghost table: nat, ghost zero: nat,
                  ghost pages: seq<Page>)
    returns (ret: int)
    requires Given(desc, data, f, pages, |pages|) && desc.file == file && desc.start == table && data.start == zero
    modifies desc, desc.buf, data, data.buf, file
    ensures ret == 0 || (ret == -1 && file.room == 0)
    ensures ret == 0 ==> BothHeld(file.records, f, table, zero, pages)
    ensures Past(old(file.records), file.records, table)
  {
    ret := desc.Write([], true);
    BufferedOutside(old(desc.file.records), desc.file.records, desc.start, desc.start + |old(desc.written)|,
                    data.start, data.written, data.offset, data.buf[..data.dataSize]);
    if ret < 0 {
      return;
    }
    ghost var before, bytes := desc.file.records, data.written;
    ret := data.Write([], true);
    HoldsOutside(before, desc.file.records, data.start, data.start + |bytes|, desc.start, desc.written);
  }

  // ---------------------------------------------------------------------------------------------
  // Reading a page by its number
  // ---------------------------------------------------------------------------------------------

  /** Bit number `n` of a bitmap. */
  predicate BitAt(records: seq<Record>, off: nat, n: nat) {
    At(records, off + n / 8).Some? && Bit(At(records, off + n / 8).value, n % 8)
  }

  /** The number of bits set before bit `n`. */
  function Rank(records: seq<Record>, off: nat, n: nat): nat {
    if n == 0 then 0 else Rank(records, off, n - 1) + if BitAt(records, off, n - 1) then 1 else 0
  }

  /** A reader looks the page up in a bitmap; its descriptor is found by counting the pages before it. */
  function ReadPfn(records: seq<Record>, bitmap: nat, table: nat, maxMapnr: nat,
                   parse: seq<byte> -> Desc, decompress: seq<byte> -> seq<byte>, pfn: nat): Option<seq<byte>> {
    if pfn < maxMapnr && BitAt(records, bitmap, pfn)
    then Some(ReadPage(records, table, Rank(records, bitmap, pfn), parse, decompress))
    else None
  }

  /** The bitmap at `off` marks exactly the pages of the list, up to `max`. */
  ghost predicate BitmapOf(records: seq<Record>, off: nat, max: nat, pages: seq<Page>) {
    forall n :: 0 <= n < max ==> (BitAt(records, off, n) <==> n in Pfns(pages))
  }

  lemma {:induction false} CopiedBits(records: seq<Record>, off: nat, len: nat, max: nat, pages: seq<Page>)
    requires max <= 8 * len && BitmapsHeld(records, off, len, Pfns(pages))
    ensures BitmapOf(records, off, max, pages) && BitmapOf(records, off + len, max, pages)
  {
    forall n | 0 <= n < max
      ensures BitAt(records, off, n) <==> n in Pfns(pages)
      ensures BitAt(records, off + len, n) <==> n in Pfns(pages)
    {
      assert Copied(records, off, len, n / 8, Pfns(pages));
      assert 8 * (n / 8) + n % 8 == n;
    }
  }

  /** Counting bits finds the position in the list. */
  lemma {:induction false} RankIs(records: seq<Record>, off: nat, pages: seq<Page>, n: nat, k: nat)
    requires Ordered(pages) && k <= |pages| && BitmapOf(records, off, n, pages)
    requires k > 0 ==> pages[k - 1].pfn < n
    requires k < |pages| ==> pages[k].pfn >= n
    ensures Rank(records, off, n) == k
    decreases n
  {
    if n > 0 {
      if BitAt(records, off, n - 1) {
        assert n - 1 in Pfns(pages);
        RankIs(records, off, pages, n - 1, k - 1);
      } else {
        assert k > 0 ==> pages[k - 1].pfn in Pfns(pages);
        RankIs(records, off, pages, n - 1, k);
      }
    }
  }

  lemma {:induction false} CopiedKept(first: seq<Record>, second: seq<Record>, off: nat, len: nat, table: nat,
                                      marked: set<nat>)
    requires Past(first, second, table) && off + 2 * len <= table
    requires BitmapsHeld(first, off, len, marked)
    ensures BitmapsHeld(second, off, len, marked)
  {
    forall a | 0 <= a < len
      ensures Copied(second, off, len, a, marked)
    {
      assert Copied(first, off, len, a, marked);
      AtBefore(first, second, table, off + a);
      AtBefore(first, second, table, off + len + a);
    }
  }

  lemma {:induction false} DataBound(f: Format, pages: seq<Page>, n: nat)
    requires n <= |pages| && Sized(f.ps, pages)
    ensures |DataOf(f, pages, n)| <= f.ps * (n + 1)
  {
    if n > 0 {
      DataBound(f, pages, n - 1);
      PayloadBound(f, pages[n - 1].bytes);
      OneMore(n, f.ps);
    }
  }

  lemma {:induction false} PayloadBound(f: Format, page: seq<byte>)
    requires |page| == f.ps
    ensures |Payload(f, page)| <= f.ps
  {
  }

  lemma {:induction false} BitmapHolds(ps: nat, blocks: seq<Block>)
    requires Usable(ps, blocks) && blocks != []
    ensures MaxMapnr(ps, blocks) <= 8 * BitmapLength(ps, MaxMapnr(ps, blocks))
    ensures forall pfn: nat :: GuestPage(ps, blocks, pfn).Some? ==> pfn < MaxMapnr(ps, blocks)
  {
    var pages := PageList(ps, blocks);
    LastBase(ps, blocks);
    LastPage(ps, blocks);
    BaseBound(ps, pages[|pages| - 1].pfn);
    forall pfn: nat | GuestPage(ps, blocks, pfn).Some?
      ensures pfn < MaxMapnr(ps, blocks)
    {
      var k := GuestIsListed(ps, blocks, pfn);
    }
  }

  /** The bitmap, the descriptors and the data of a list of pages. */
  ghost predicate Stored(f: Format, records: seq<Record>, pages: seq<Page>, bitmap: nat, table: nat, max: nat) {
    var zero := table + DESC_SIZE * |pages|;
    && BitmapOf(records, bitmap, max, pages)
    && BothHeld(records, f, table, zero, pages) && zero + |AllData(f, pages)| < 0x1_0000_0000_0000_0000
  }

  lemma {:induction false} ListedReadsBack(f: Format, records: seq<Record>, pages: seq<Page>, bitmap: nat, table: nat,
                                           max: nat,
                                           parse: seq<byte> -> Desc, decompress: seq<byte> -> seq<byte>, k: nat)
    requires FormatOk(f) && Parses(f, parse) && Inverse(f, decompress)
    requires Ordered(pages) && Sized(f.ps, pages) && Stored(f, records, pages, bitmap, table, max)
    requires k < |pages| && pages[k].pfn < max
    ensures ReadPfn(records, bitmap, table, max, parse, decompress, pages[k].pfn) == Some(pages[k].bytes)
  {
    RankIs(records, bitmap, pages, pages[k].pfn, k);
    assert pages[k].pfn in Pfns(pages);
    PagesReadBack(f, records, table, table + DESC_SIZE * |pages|, pages, k, parse, decompress);
  }

  /** A page number that is marked leads to the page, one that is not leads nowhere. */
  lemma {:induction false} PfnReadsBack(f: Format, records: seq<Record>, blocks: seq<Block>, bitmap: nat, table: nat,
                                        parse: seq<byte> -> Desc, decompress: seq<byte> -> seq<byte>, pfn: nat)
    requires FormatOk(f) && Parses(f, parse) && Inverse(f, decompress) && Usable(f.ps, blocks) && blocks != []
    requires Stored(f, records, PageList(f.ps, blocks), bitmap, table, MaxMapnr(f.ps, blocks))
    ensures ReadPfn(records, bitmap, table, MaxMapnr(f.ps, blocks), parse, decompress, pfn) == GuestPage(f.ps, blocks,
            pfn)
  {
    BitmapHolds(f.ps, blocks);
    if GuestPage(f.ps, blocks, pfn).Some? {
      var k := GuestIsListed(f.ps, blocks, pfn);
      ListOrdered(f.ps, blocks);
      ListIsGuest(f.ps, blocks, k);
      ListSized(f.ps, blocks);
      ListedReadsBack(f, records, PageList(f.ps, blocks), bitmap, table, MaxMapnr(f.ps, blocks), parse, decompress, k);
    } else {
      NotListed(f.ps, blocks, pfn);
    }
  }

  lemma {:induction false} NotListed(ps: nat, blocks: seq<Block>, pfn: nat)
    requires Usable(ps, blocks) && GuestPage(ps, blocks, pfn).None?
    ensures pfn !in Pfns(PageList(ps, blocks))
  {
    var pages := PageList(ps, blocks);
    forall k | 0 <= k < |pages|
      ensures pages[k].pfn != pfn
    {
      ListIsGuest(ps, blocks, k);
    }
  }

  // ---------------------------------------------------------------------------------------------
  // The layout that create_header32 and create_header64 compute in 32 bits
  // ---------------------------------------------------------------------------------------------

  const WORD: nat := 0x1_0000_0000

  /** sub_hdr_size */
  function SubBlocks(ps: nat, size: nat): nat
    requires ps > 0
  {
    (size % WORD + ps - 1) % WORD / ps
  }

  /** bitmap_blocks */
  function BitmapBlocks(ps: nat, len: nat): nat
    requires ps > 0
  {
    2 * DivUp(len, ps) % WORD
  }

  /** offset_dump_bitmap and offset_page */
  function BitmapOffset(ps: nat, sub: nat): nat {
    (1 + sub) % WORD * ps % WORD
  }

  function PageOffset(ps: nat, sub: nat, blocks: nat): nat {
    (1 + sub + blocks) % WORD * ps % WORD
  }

  lemma {:induction false} ModOf(q: nat, r: nat)
    ensures (q * WORD + r) % WORD == r % WORD
  {
  }

  lemma {:induction false} ModTimes(x: nat, p: nat)
    ensures x % WORD * p % WORD == x * p % WORD
  {
    var q, r := x / WORD, x % WORD;
    assert x * p == (q * WORD + r) * p == q * p * WORD + r * p;
    ModOf(q * p, r * p);
  }

  lemma {:induction false} ModPlus(x: nat, y: nat)
    ensures (x + y % WORD) % WORD == (x + y) % WORD
  {
    assert x + y == y / WORD * WORD + (x + y % WORD);
    ModOf(y / WORD, x + y % WORD);
  }

  /** Wrapping aside, the page area starts where the second bitmap ends. */
  lemma {:induction false} PageOffsetIs(ps: nat, sub: nat, len: nat)
    requires ps > 0 && len % ps == 0
    ensures PageOffset(ps, sub, BitmapBlocks(ps, len)) == ((1 + sub) * ps + 2 * len) % WORD
  {
    var n := len / ps;
    Whole(len, ps);
    DivOf(n, ps, ps - 1);
    ModPlus(1 + sub, 2 * n);
    ModTimes(1 + sub + 2 * n % WORD, ps);
    ModTimes(1 + sub + 2 * n, ps);
    Distributes(1 + sub, 2 * n, ps);
    Distributes(n, n, ps);
  }

  lemma {:induction false} WrapExact(head: nat, len: nat)
    requires head < WORD
    ensures head + 2 * len <= (head + 2 * len) % WORD <==> head + 2 * len < WORD
    ensures head + 2 * len < WORD ==> (head + 2 * len) % WORD == head + 2 * len
  {
  }

  /** The bitmaps end before the page area exactly if they end below 4 GiB; then they are adjacent. */
  lemma {:induction false} LayoutExact(ps: nat, sub: nat, len: nat)
    requires ps > 0 && len % ps == 0 && (1 + sub) * ps < WORD
    ensures BitmapOffset(ps, sub) == (1 + sub) * ps
    ensures var bitmap, table := BitmapOffset(ps, sub), PageOffset(ps, sub, BitmapBlocks(ps, len));
      && (bitmap + 2 * len <= table <==> bitmap + 2 * len < WORD)
      && (bitmap + 2 * len < WORD ==> table == bitmap + 2 * len)
  {
    var head := (1 + sub) * ps;
    PageOffsetIs(ps, sub, len);
    ModTimes(1 + sub, ps);
    WrapExact(head, len);
    WrapExact(head, 0);
  }

  /** With 64 TiB of guest memory the page area starts on top of the first bitmap. */
  lemma {:induction false} LayoutWraps()
    ensures var len := BitmapLength(4096, 0x4_0000_0000);
      len == 0x8000_0000 && PageOffset(4096, 1, BitmapBlocks(4096, len)) == BitmapOffset(4096, 1)
  {
    assert DivUp(0x4_0000_0000, 8) == 0x8000_0000;
    assert DivUp(0x8000_0000, 4096) == 0x8_0000;
  }

  /** The records and the layout of create_header32 and create_header64; the contents of the two
      headers and of the notes are given. */
  method CreateHeader(file: File, ps: nat, dh: seq<byte>, kh: seq<byte>, notes: seq<byte>, len: nat)
    returns (ret: int, bitmap: nat, table: nat)
    requires ps > 0
    modifies file
    ensures ret == 0 || (ret == -1 && file.room == 0)
    ensures ret == 0 ==> bitmap == BitmapOffset(ps, SubBlocks(ps, |kh| + |notes|))
    ensures ret == 0 ==> table == PageOffset(ps, SubBlocks(ps, |kh| + |notes|), BitmapBlocks(ps, len))
    ensures ret == 0 ==> Holds(file.records, ps, kh + notes) && (|dh| <= ps ==> Holds(file.records, 0, dh))
  {
    bitmap, table := 0, 0;
    ret := file.WriteBuffer(0, dh);
    if ret < 0 {
      return;
    }
    ret := file.WriteBuffer(ps, kh);
    if ret < 0 {
      return;
    }
    AfterHeader(old(file.records), dh, ps, kh);
    HoldsMore(file.records, ps, kh, notes);
    ghost var head := file.records;
    ret := file.WriteBuffer(ps + |kh|, notes);
    if ret < 0 {
      return;
    }
    if |dh| <= ps {
      HoldsBefore(head, file.records, ps, 0, dh);
    }
    var sub := SubBlocks(ps, |kh| + |notes|);
    bitmap := BitmapOffset(ps, sub);
    table := PageOffset(ps, sub, BitmapBlocks(ps, len));
  }

  lemma {:induction false} AfterHeader(records: seq<Record>, dh: seq<byte>, ps: nat, kh: seq<byte>)
    ensures Holds(records + [Record(0, dh)] + [Record(ps, kh)], ps, kh)
    ensures |dh| <= ps ==> Holds(records + [Record(0, dh)] + [Record(ps, kh)], 0, dh)
  {
    var first := records + [Record(0, dh)];
    HoldsMore(first, ps, [], kh);
    assert [] + kh == kh;
    HoldsMore(records, 0, [], dh);
    assert [] + dh == dh;
    if |dh| <= ps {
      HoldsBefore(first, first + [Record(ps, kh)], ps, 0, dh);
    }
  }

  /** The bitmaps end below 4 GiB, and the page data below 2^64. */
  predicate FitsFile(ps: nat, sub: nat, len: nat, n: nat) {
    (1 + sub) * ps + 2 * len < WORD && (1 + sub) * ps + 2 * len + DESC_SIZE * n + ps * (n + 1) < 0x1_0000_0000_0000_0000
  }

  /** The bitmaps end before the page area, and the page data below 2^64. */
  ghost predicate AreasFit(ps: nat, blocks: seq<Block>, bitmap: nat, table: nat)
    requires ps > 0 && blocks != []
  {
    var n := |PageList(ps, blocks)|;
    && bitmap + 2 * BitmapLength(ps, MaxMapnr(ps, blocks)) <= table
    && table + DESC_SIZE * n + ps * (n + 1) < 0x1_0000_0000_0000_0000
  }

  /** Every page number that is a guest page is read back, and no other. */
  ghost predicate ReadsBack(records: seq<Record>, ps: nat, blocks: seq<Block>, bitmap: nat, table: nat,
                            parse: seq<byte> -> Desc, decompress: seq<byte> -> seq<byte>)
    requires ps > 0 && blocks != []
  {
    forall pfn: nat ::
      ReadPfn(records, bitmap, table, MaxMapnr(ps, blocks), parse, decompress, pfn) == GuestPage(ps, blocks, pfn)
  }

  lemma {:induction false} AllStored(f: Format, first: seq<Record>, records: seq<Record>, blocks: seq<Block>,
                                     bitmap: nat, table: nat, len: nat)
    requires FormatOk(f) && Usable(f.ps, blocks) && blocks != []
    requires len == BitmapLength(f.ps, MaxMapnr(f.ps, blocks)) && AreasFit(f.ps, blocks, bitmap, table)
    requires BitmapsHeld(first, bitmap, len, Pfns(PageList(f.ps, blocks)))
    requires Past(first, records, table) && PagesHeld(records, f, blocks, table)
    ensures Stored(f, records, PageList(f.ps, blocks), bitmap, table, MaxMapnr(f.ps, blocks))
  {
    var pages := PageList(f.ps, blocks);
    CopiedKept(first, records, bitmap, len, table, Pfns(pages));
    BitmapHolds(f.ps, blocks);
    CopiedBits(records, bitmap, len, MaxMapnr(f.ps, blocks), pages);
    DataFits(f, blocks, bitmap, table);
  }

  lemma {:induction false} DataFits(f: Format, blocks: seq<Block>, bitmap: nat, table: nat)
    requires f.ps > 0 && blocks != [] && AreasFit(f.ps, blocks, bitmap, table)
    ensures var pages := PageList(f.ps, blocks);
            table + DESC_SIZE * |pages| + |DataOf(f, pages, |pages|)| < 0x1_0000_0000_0000_0000
  {
    var pages := PageList(f.ps, blocks);
    ListSized(f.ps, blocks);
    DataBound(f, pages, |pages|);
  }

  /** From what the writers leave behind to what a reader gets. */
  lemma {:induction false} VmcoreReadsBack(f: Format, first: seq<Record>, records: seq<Record>, blocks: seq<Block>,
                                           bitmap: nat, table: nat, len: nat,
                                           parse: seq<byte> -> Desc, decompress: seq<byte> -> seq<byte>)
    requires FormatOk(f) && Parses(f, parse) && Inverse(f, decompress) && Usable(f.ps, blocks) && blocks != []
    requires len == BitmapLength(f.ps, MaxMapnr(f.ps, blocks)) && AreasFit(f.ps, blocks, bitmap, table)
    requires BitmapsHeld(first, bitmap, len, Pfns(PageList(f.ps, blocks)))
    requires Past(first, records, table) && PagesHeld(records, f, blocks, table)
    ensures ReadsBack(records, f.ps, blocks, bitmap, table, parse, decompress)
  {
    AllStored(f, first, records, blocks, bitmap, table, len);
    forall pfn: nat
      ensures ReadPfn(records, bitmap, table, MaxMapnr(f.ps, blocks), parse, decompress, pfn) == GuestPage(f.ps,
              blocks, pfn)
    {
      PfnReadsBack(f, records, blocks, bitmap, table, parse, decompress, pfn);
    }
  }

  lemma {:induction false} BitmapWhole(ps: nat, maxMapnr: nat)
    requires ps > 0
    ensures BitmapLength(ps, maxMapnr) % ps == 0
  {
    var n := DivUp(DivUp(maxMapnr, 8), ps);
    DivOf(n, ps, 0);
  }

  lemma {:induction false} LayoutFits(ps: nat, sub: nat, blocks: seq<Block>)
    requires ps > 0 && blocks != []
    requires FitsFile(ps, sub, BitmapLength(ps, MaxMapnr(ps, blocks)), |PageList(ps, blocks)|)
    ensures var len := BitmapLength(ps, MaxMapnr(ps, blocks));
      AreasFit(ps, blocks, BitmapOffset(ps, sub), PageOffset(ps, sub, BitmapBlocks(ps, len)))
  {
    BitmapWhole(ps, MaxMapnr(ps, blocks));
    LayoutExact(ps, sub, BitmapLength(ps, MaxMapnr(ps, blocks)));
  }

  /** The bitmaps and the pages, at given offsets. */
  method WriteBody(file: File, f: Format, blocks: seq<Block>, bitmap: nat, table: nat,
                   ghost parse: seq<byte> -> Desc, ghost decompress: seq<byte> -> seq<byte>)
    returns (ret: int)
    requires FormatOk(f) && Parses(f, parse) && Usable(f.ps, blocks) && blocks != []
    modifies file
    ensures ret == 0 || (ret == -1 && file.room == 0)
    ensures ret == 0 && Inverse(f, decompress) && AreasFit(f.ps, blocks, bitmap, table) ==>
              ReadsBack(file.records, f.ps, blocks, bitmap, table, parse, decompress)
    ensures bitmap <= table ==> Past(old(file.records), file.records, bitmap)
  {
    var len := BitmapLength(f.ps, MaxMapnr(f.ps, blocks));
    var bits := new BitmapWriter(file, f.ps, bitmap, len);
    var numDumpable;
    ret, numDumpable := bits.WriteDumpBitmap(blocks);
    if ret < 0 {
      return;
    }
    ghost var before := file.records;
    ret := WriteDumpPages(file, f, blocks, table, numDumpable);
    if bitmap <= table {
      PastBoth(old(file.records), before, file.records, bitmap, bitmap + 2 * len, table);
    }
    if ret == 0 && Inverse(f, decompress) && AreasFit(f.ps, blocks, bitmap, table) {
      VmcoreReadsBack(f, before, file.records, blocks, bitmap, table, len, parse, decompress);
    }
  }

  lemma {:induction false} PastBoth(first: seq<Record>, second: seq<Record>, third: seq<Record>, lo: nat, hi: nat,
                                    table: nat)
    requires Inside(first, second, lo, hi) && Past(second, third, table) && lo <= table
    ensures Past(first, third, lo)
  {
    PastJoins(first, second, third, lo);
  }

  /** Wrapping aside, the bitmaps start behind the sub-header and the notes. */
  lemma {:induction false} HeadersFit(ps: nat, size: nat)
    requires ps > 0 && size + ps <= WORD && (1 + SubBlocks(ps, size)) * ps < WORD
    ensures ps + size <= BitmapOffset(ps, SubBlocks(ps, size))
  {
    var sub := SubBlocks(ps, size);
    SubCovers(ps, size);
    LayoutExact(ps, sub, 0);
    Distributes(1, sub, ps);
  }

  lemma {:induction false} SubCovers(ps: nat, size: nat)
    requires ps > 0 && size + ps <= WORD
    ensures size <= SubBlocks(ps, size) * ps
  {
    PagesAbove(ps, size);
  }

  lemma {:induction false} PagesAbove(ps: nat, size: nat)
    requires ps > 0
    ensures size <= (size + ps - 1) / ps * ps
  {
  }

  /** create_kdump_vmcore: every guest page can be read back from the file by its number, and no other
      page number can, unless the file is too large for the offsets; the headers are where they were. */
  method CreateVmcore(file: File, ps: nat, big: bool, flag: nat, compress: seq<byte> -> Option<seq<byte>>,
                      blocks: seq<Block>, dh: seq<byte>, kh: seq<byte>, notes: seq<byte>,
                      ghost decompress: seq<byte> -> seq<byte>)
    returns (ret: int, bitmap: nat, table: nat)
    requires 6 <= ps < WORD && flag in {1, 2, 4} && Usable(ps, blocks) && blocks != []
    modifies file
    ensures ret == 0 || (ret == -1 && file.room == 0)
    ensures var max := MaxMapnr(ps, blocks);
      var fits := FitsFile(ps, SubBlocks(ps, |kh| + |notes|), BitmapLength(ps, max), |PageList(ps, blocks)|);
      ret == 0 && fits && Inverse(DumpFormat(ps, big, flag, compress), decompress) ==>
        ReadsBack(file.records, ps, blocks, bitmap, table, Parser(big), decompress)
    ensures var max := MaxMapnr(ps, blocks);
      var fits := FitsFile(ps, SubBlocks(ps, |kh| + |notes|), BitmapLength(ps, max), |PageList(ps, blocks)|);
      ret == 0 && fits && ps + |kh| + |notes| <= WORD ==>
        Holds(file.records, ps, kh + notes) && (|dh| <= ps ==> Holds(file.records, 0, dh))
  {
    var f := DumpFormat(ps, big, flag, compress);
    DumpFormatOk(ps, big, flag, compress);
    ghost var sub, max, n := SubBlocks(ps, |kh| + |notes|), MaxMapnr(ps, blocks), |PageList(ps, blocks)|;
    ret, bitmap, table := CreateHeader(file, ps, dh, kh, notes, BitmapLength(ps, MaxMapnr(ps, blocks)));
    if ret < 0 {
      return;
    }
    if FitsFile(ps, sub, BitmapLength(ps, max), n) {
      LayoutFits(ps, sub, blocks);
    }
    ghost var head := file.records;
    ret := WriteBody(file, f, blocks, bitmap, table, Parser(big), decompress);
    if ret == 0 && FitsFile(ps, sub, BitmapLength(ps, max), n) && ps + |kh| + |notes| <= WORD {
      HeadersFit(ps, |kh| + |notes|);
      HoldsBefore(head, file.records, bitmap, ps, kh + notes);
      if |dh| <= ps {
        HoldsBefore(head, file.records, bitmap, 0, dh);
      }
    }
  }
}
