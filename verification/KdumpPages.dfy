/** The page descriptors and page data of a kdump-compressed vmcore (write_cache and write_dump_pages
    in dump.c), and what a reader of the format gets back. */
module KdumpPages {
  import opened DumpWords
  import opened FlatFile
  import opened GuestPages
  import opened Options

  /** PageDescriptor */
  datatype Desc = Desc(offset: nat, size: nat, flags: nat, pageFlags: nat)

  const DESC_SIZE: nat := 24
  const WIDTHS: seq<nat> := [8, 4, 4, 8]

  function EncDesc(d: Desc, big: bool): (r: seq<byte>)
    ensures |r| == DESC_SIZE
  {
    Enc(d.offset, WIDTHS[0], big) + Enc(d.size, WIDTHS[1], big)
    + Enc(d.flags, WIDTHS[2], big) + Enc(d.pageFlags, WIDTHS[3], big)
  }

  function ParseDesc(s: seq<byte>, big: bool): Desc {
    if |s| != DESC_SIZE then Desc(0, 0, 0, 0)
    else Desc(Dec(s[..8], big), Dec(s[8..12], big), Dec(s[12..16], big), Dec(s[16..24], big))
  }

  predicate DescFits(d: Desc) {
    d.offset < 0x1_0000_0000_0000_0000 && d.size < 0x1_0000_0000 && d.flags < 0x1_0000_0000 && d.pageFlags == 0
  }

  lemma {:induction false} ParseEnc(d: Desc, big: bool)
    requires DescFits(d)
    ensures ParseDesc(EncDesc(d, big), big) == d
  {
    Limits();
    var s := EncDesc(d, big);
    assert s[..8] == Enc(d.offset, WIDTHS[0], big) && s[8..12] == Enc(d.size, WIDTHS[1], big);
    assert s[12..16] == Enc(d.flags, WIDTHS[2], big) && s[16..24] == Enc(d.pageFlags, WIDTHS[3], big);
    EncDec(d.offset, WIDTHS[0], big);
    EncDec(d.size, WIDTHS[1], big);
    EncDec(d.flags, WIDTHS[2], big);
    EncDec(d.pageFlags, WIDTHS[3], big);
  }

  // ---------------------------------------------------------------------------------------------
  // What is stored for a page
  // ---------------------------------------------------------------------------------------------

  /** The page size, the layout of descriptors, and the compression with its flag. */
  datatype Format = Format(ps: nat, encode: Desc -> seq<byte>, flag: nat, compress: seq<byte> -> Option<seq<byte>>)

  ghost predicate FormatOk(f: Format) {
    6 <= f.ps < 0x1_0000_0000 && f.flag in {1, 2, 4} && forall d :: |f.encode(d)| == DESC_SIZE
  }

  /** The formats that write_dump_pages writes. */
  function DumpFormat(ps: nat, big: bool, flag: nat, compress: seq<byte> -> Option<seq<byte>>): Format {
    Format(ps, d => EncDesc(d, big), flag, compress)
  }

  /** A parser and a decompressor for a format. */
  ghost predicate Parses(f: Format, parse: seq<byte> -> Desc) {
    forall d :: DescFits(d) ==> parse(f.encode(d)) == d
  }

  function Parser(big: bool): seq<byte> -> Desc {
    s => ParseDesc(s, big)
  }

  lemma {:induction false} DumpFormatOk(ps: nat, big: bool, flag: nat, compress: seq<byte> -> Option<seq<byte>>)
    requires 6 <= ps < 0x1_0000_0000 && flag in {1, 2, 4}
    ensures FormatOk(DumpFormat(ps, big, flag, compress)) && Parses(DumpFormat(ps, big, flag, compress), Parser(big))
  {
    forall d | DescFits(d)
      ensures Parser(big)(EncDesc(d, big)) == d
    {
      ParseEnc(d, big);
    }
  }

  predicate IsZero(page: seq<byte>) {
    forall i :: 0 <= i < |page| ==> page[i] == 0
  }

  function Zeros(n: nat): (r: seq<byte>)
    ensures |r| == n && IsZero(r)
  {
    seq(n, _ => 0)
  }

  /** A page is stored compressed only if that makes it shorter. */
  predicate Shrinks(f: Format, page: seq<byte>) {
    f.compress(page).Some? && |f.compress(page).value| < |page|
  }

  function Payload(f: Format, page: seq<byte>): seq<byte> {
    if IsZero(page) then [] else if Shrinks(f, page) then f.compress(page).value else page
  }

  /** The descriptor of a page; `zero` is where the shared zero page is, `offset` the end of the data. */
  function DescFor(f: Format, zero: nat, offset: nat, page: seq<byte>): Desc {
    if IsZero(page) then Desc(zero, f.ps, 0, 0)
    else Desc(offset, |Payload(f, page)|, if Shrinks(f, page) then f.flag else 0, 0)
  }

  /** The page data after `n` pages, and the descriptors. */
  function DataOf(f: Format, pages: seq<Page>, n: nat): seq<byte>
    requires n <= |pages|
  {
    if n == 0 then Zeros(f.ps) else DataOf(f, pages, n - 1) + Payload(f, pages[n - 1].bytes)
  }

  function DescOf(f: Format, zero: nat, pages: seq<Page>, k: nat): Desc
    requires k < |pages|
  {
    DescFor(f, zero, zero + |DataOf(f, pages, k)|, pages[k].bytes)
  }

  function DescsOf(f: Format, zero: nat, pages: seq<Page>, n: nat): seq<byte>
    requires n <= |pages|
  {
    if n == 0 then [] else DescsOf(f, zero, pages, n - 1) + f.encode(DescOf(f, zero, pages, n - 1))
  }

  function AllDescs(f: Format, zero: nat, pages: seq<Page>): seq<byte> {
    DescsOf(f, zero, pages, |pages|)
  }

  function AllData(f: Format, pages: seq<Page>): seq<byte> {
    DataOf(f, pages, |pages|)
  }

  /** The file has the descriptors and the page data. */
  ghost predicate BothHeld(records: seq<Record>, f: Format, table: nat, zero: nat, pages: seq<Page>) {
    Holds(records, table, AllDescs(f, zero, pages)) && Holds(records, zero, AllData(f, pages))
  }

  // ---------------------------------------------------------------------------------------------
  // Reading the pages back
  // ---------------------------------------------------------------------------------------------

  /** A reader takes descriptor number `k` of the table, fetches what it names and decompresses it. */
  function ReadDesc(records: seq<Record>, table: nat, k: nat, parse: seq<byte> -> Desc): Desc {
    parse(Fetch(records, table + DESC_SIZE * k, DESC_SIZE))
  }

  function ReadPage(records: seq<Record>, table: nat, k: nat, parse: seq<byte> -> Desc,
                    decompress: seq<byte> -> seq<byte>): seq<byte> {
    var d := ReadDesc(records, table, k, parse);
    var raw := Fetch(records, d.offset, d.size);
    if d.flags == 0 then raw else decompress(raw)
  }

  ghost predicate Inverse(f: Format, decompress: seq<byte> -> seq<byte>) {
    forall page :: f.compress(page).Some? ==> decompress(f.compress(page).value) == page
  }

  lemma {:induction false} DescsLength(f: Format, zero: nat, pages: seq<Page>, n: nat)
    requires FormatOk(f) && n <= |pages|
    ensures |DescsOf(f, zero, pages, n)| == DESC_SIZE * n
  {
    if n > 0 {
      DescsLength(f, zero, pages, n - 1);
    }
  }

  lemma {:induction false} DescPlace(f: Format, zero: nat, pages: seq<Page>, n: nat, k: nat)
    requires FormatOk(f) && k < n <= |pages|
    ensures |DescsOf(f, zero, pages, n)| == DESC_SIZE * n
    ensures DescsOf(f, zero, pages, n)[DESC_SIZE * k..DESC_SIZE * k + DESC_SIZE] == f.encode(DescOf(f, zero, pages, k))
  {
    var front, entry := DescsOf(f, zero, pages, n - 1), f.encode(DescOf(f, zero, pages, n - 1));
    DescsLength(f, zero, pages, n - 1);
    if k < n - 1 {
      DescPlace(f, zero, pages, n - 1, k);
      FrontSlice(front, entry, DESC_SIZE * k, DESC_SIZE * k + DESC_SIZE);
    } else {
      PartOf(front, entry, front + entry);
    }
  }

  lemma {:induction false} FrontSlice(front: seq<byte>, entry: seq<byte>, lo: nat, hi: nat)
    requires lo <= hi <= |front|
    ensures (front + entry)[lo..hi] == front[lo..hi]
  {
  }

  lemma {:induction false} DataGrows(f: Format, pages: seq<Page>, k: nat, n: nat)
    requires k <= n <= |pages|
    ensures DataOf(f, pages, k) <= DataOf(f, pages, n)
    decreases n
  {
    if k < n {
      DataGrows(f, pages, k, n - 1);
    }
  }

  /** Where the bytes of page `k` are in the page data. */
  lemma {:induction false} PayloadPlace(f: Format, pages: seq<Page>, k: nat, n: nat)
    requires k < n <= |pages|
    ensures var at := |DataOf(f, pages, k)|;
      var p := Payload(f, pages[k].bytes);
      at + |p| <= |DataOf(f, pages, n)| && DataOf(f, pages, n)[at..at + |p|] == p
  {
    var a, b := DataOf(f, pages, k), Payload(f, pages[k].bytes);
    DataGrows(f, pages, k + 1, n);
    assert DataOf(f, pages, k + 1) == a + b;
    PartOf(a, b, DataOf(f, pages, n));
  }

  lemma {:induction false} PartOf(a: seq<byte>, b: seq<byte>, c: seq<byte>)
    requires a + b <= c
    ensures |a| + |b| <= |c| && c[|a|..|a| + |b|] == b
  {
    assert c[..|a| + |b|] == a + b;
  }

  lemma {:induction false} ZeroPlace(f: Format, pages: seq<Page>, n: nat)
    requires n <= |pages|
    ensures f.ps <= |DataOf(f, pages, n)| && DataOf(f, pages, n)[..f.ps] == Zeros(f.ps)
  {
    DataGrows(f, pages, 0, n);
  }

  /** The descriptor of page `k` names the bytes stored for it. */
  lemma {:induction false} DescNames(f: Format, records: seq<Record>, zero: nat, pages: seq<Page>, k: nat)
    requires k < |pages| && |pages[k].bytes| == f.ps && Holds(records, zero, DataOf(f, pages, |pages|))
    ensures var d := DescOf(f, zero, pages, k);
      Fetch(records, d.offset, d.size)
      == if IsZero(pages[k].bytes) then pages[k].bytes else Payload(f, pages[k].bytes)
  {
    var data, at, p := DataOf(f, pages, |pages|), |DataOf(f, pages, k)|, Payload(f, pages[k].bytes);
    if IsZero(pages[k].bytes) {
      ZeroPlace(f, pages, |pages|);
      FetchPart(records, zero, data, 0, f.ps);
      assert pages[k].bytes == Zeros(f.ps);
    } else {
      PayloadPlace(f, pages, k, |pages|);
      FetchPart(records, zero, data, at, at + |p|);
    }
  }

  lemma {:induction false} DescIsRead(f: Format, records: seq<Record>, table: nat, zero: nat, pages: seq<Page>, k: nat,
                                      parse: seq<byte> -> Desc)
    requires FormatOk(f) && Parses(f, parse) && k < |pages| && DescFits(DescOf(f, zero, pages, k))
    requires Holds(records, table, DescsOf(f, zero, pages, |pages|))
    ensures ReadDesc(records, table, k, parse) == DescOf(f, zero, pages, k)
  {
    DescPlace(f, zero, pages, |pages|, k);
    FetchPart(records, table, DescsOf(f, zero, pages, |pages|), DESC_SIZE * k, DESC_SIZE * k + DESC_SIZE);
  }

  /** Every page of the list is read back, provided the compression can be undone. */
  lemma {:induction false} PagesReadBack(f: Format, records: seq<Record>, table: nat, zero: nat, pages: seq<Page>,
                                         k: nat,
                                         parse: seq<byte> -> Desc, decompress: seq<byte> -> seq<byte>)
    requires FormatOk(f) && Parses(f, parse) && Inverse(f, decompress) && k < |pages| && |pages[k].bytes| == f.ps
    requires BothHeld(records, f, table, zero, pages) && zero + |AllData(f, pages)| < 0x1_0000_0000_0000_0000
    ensures ReadPage(records, table, k, parse, decompress) == pages[k].bytes
  {
    PayloadPlace(f, pages, k, |pages|);
    ZeroPlace(f, pages, |pages|);
    DescIsRead(f, records, table, zero, pages, k, parse);
    DescNames(f, records, zero, pages, k);
  }

  // ---------------------------------------------------------------------------------------------
  // The write cache
  // ---------------------------------------------------------------------------------------------

  /** `written` has been appended from `start` on: all but `pending` is in the file. */
  predicate Buffered(records: seq<Record>, start: nat, written: seq<byte>, offset: nat, pending: seq<byte>) {
    && |pending| <= |written| && offset == start + (|written| - |pending|)
    && written[|written| - |pending|..] == pending
    && Holds(records, start, written[..|written| - |pending|])
  }

  lemma {:induction false} BufferedFlush(records: seq<Record>, start: nat, written: seq<byte>, offset: nat,
                                         pending: seq<byte>)
    requires Buffered(records, start, written, offset, pending)
    ensures Buffered(records + [Record(offset, pending)], start, written, offset + |pending|, [])
  {
    var done := written[..|written| - |pending|];
    HoldsMore(records, start, done, pending);
    assert written == done + pending && written[..|written| - 0] == written;
  }

  lemma {:induction false} BufferedAppend(records: seq<Record>, start: nat, written: seq<byte>, offset: nat,
                                          pending: seq<byte>, data: seq<byte>)
    requires Buffered(records, start, written, offset, pending)
    ensures Buffered(records, start, written + data, offset, pending + data)
  {
    var done := written[..|written| - |pending|];
    assert written + data == done + (pending + data);
  }

  lemma {:induction false} BufferedOutside(first: seq<Record>, second: seq<Record>, lo: nat, hi: nat,
                                           start: nat, written: seq<byte>, offset: nat, pending: seq<byte>)
    requires Buffered(first, start, written, offset, pending)
    requires Inside(first, second, lo, hi) && (start + |written| <= lo || hi <= start)
    ensures Buffered(second, start, written, offset, pending)
  {
    HoldsOutside(first, second, lo, hi, start, written[..|written| - |pending|]);
  }

  /** DataCache: a fixed buffer in front of the file. */
  class DataCache {
    const file: File
    const buf: array<byte>
    var dataSize: nat
    var offset: nat
    ghost const start: nat
    ghost var written: seq<byte>   // everything appended so far

    ghost predicate Valid()
      reads this, buf, file
    {
      dataSize <= buf.Length && Buffered(file.records, start, written, offset, buf[..dataSize])
    }

    /** prepare_data_cache */
    constructor (file: File, offset: nat, size: nat)
      ensures Valid() && written == [] && start == offset && this.file == file && buf.Length == size && fresh(buf)
    {
      this.file := file;
      this.offset := offset;
      buf := new byte[size](_ => 0);
      dataSize := 0;
      start := offset;
      written := [];
    }

    /** Writes the buffer out. */
    method Flush() returns (ret: int)
      requires Valid()
      modifies this, file
      ensures ret == 0 || (ret == -1 && file.room == 0)
      ensures ret == 0 ==> Valid() && written == old(written) && dataSize == 0
      ensures Inside(old(file.records), file.records, start, start + |old(written)|)
    {
      BufferedFlush(file.records, start, written, offset, buf[..dataSize]);
      ret := file.WriteBuffer(offset, buf[..dataSize]);
      if ret == 0 {
        offset := offset + dataSize;
        dataSize := 0;
        assert buf[..dataSize] == [];
      }
    }

    /** The memcpy of write_cache. */
    method Append(data: seq<byte>)
      requires Valid() && dataSize + |data| <= buf.Length
      modifies this, buf
      ensures Valid() && written == old(written) + data
    {
      ghost var pending := buf[..dataSize];
      BufferedAppend(file.records, start, written, offset, pending, data);
      forall i | 0 <= i < |data| {
        buf[dataSize + i] := data[i];
      }
      dataSize := dataSize + |data|;
      written := written + data;
      assert buf[..dataSize] == pending + data;
    }

    /** write_cache.  Its assertion is the precondition. */
    method Write(data: seq<byte>, sync: bool) returns (ret: int)
      requires Valid() && |data| <= buf.Length
      modifies this, buf, file
      ensures ret == 0 || (ret == -1 && file.room == 0)
      ensures ret == 0 ==> Valid() && written == if sync then old(written) else old(written) + data
      ensures ret == 0 && sync ==> Holds(file.records, start, written)
      ensures Inside(old(file.records), file.records, start, start + |old(written)|)
    {
      ret := 0;
      if (!sync && dataSize + |data| > buf.Length) || (sync && dataSize > 0) {
        ret := Flush();
        if ret < 0 {
          return;
        }
      }
      if !sync {
        Append(data);
      } else {
        assert written[..|written| - 0] == written;
      }
    }
  }
}
