/** The ELF vmcore of dump.c: program headers that name file ranges, written before the memory that fills them. */
module ElfDump {
  import opened Arithmetic
  import opened DumpWords
  import opened FlatFile
  import opened GuestBlocks
  import opened MappingList
  import opened Options

  // ---------------------------------------------------------------------------------------------
  // Program headers
  // ---------------------------------------------------------------------------------------------

  const PT_LOAD: nat := 1
  const PT_NOTE: nat := 4
  const PN_XNUM: nat := 0xFFFF
  const UINT32_MAX: nat := 0xFFFF_FFFF
  const NOT_STORED: nat := 0xFFFF_FFFF_FFFF_FFFF

  /** Elf64_Phdr and Elf32_Phdr; p_flags and p_align are 0. */
  datatype Phdr = Phdr(ptype: nat, offset: nat, vaddr: nat, paddr: nat, filesz: nat, memsz: nat)

  /** The widths in a program header: p_type, then p_flags in a 64-bit file, five words, and what is left. */
  datatype Shape = Shape(head: nat, pad: nat, word: nat, tail: nat)

  function Width(z: Shape): nat {
    z.head + z.pad + 5 * z.word + z.tail
  }

  function Words(p: Phdr, w: nat, big: bool): (r: seq<byte>)
    ensures |r| == 5 * w
  {
    Enc(p.offset, w, big) + Enc(p.vaddr, w, big) + Enc(p.paddr, w, big) + Enc(p.filesz, w, big) + Enc(p.memsz, w, big)
  }

  function EncPhdr(p: Phdr, z: Shape, big: bool): (r: seq<byte>)
    ensures |r| == Width(z)
  {
    Enc(p.ptype, z.head, big) + Enc(0, z.pad, big) + Words(p, z.word, big) + Enc(0, z.tail, big)
  }

  function Word(s: seq<byte>, w: nat, i: nat, big: bool): nat
    requires i < 5 && |s| == 5 * w
  {
    if i == 0 then Dec(s[..w], big)
    else if i == 1 then Dec(s[w..2 * w], big)
    else if i == 2 then Dec(s[2 * w..3 * w], big)
    else if i == 3 then Dec(s[3 * w..4 * w], big)
    else Dec(s[4 * w..], big)
  }

  function ParsePhdr(s: seq<byte>, z: Shape, big: bool): Phdr
    requires |s| == Width(z)
  {
    var t := s[z.head + z.pad..z.head + z.pad + 5 * z.word];
    Phdr(Dec(s[..z.head], big), Word(t, z.word, 0, big), Word(t, z.word, 1, big), Word(t, z.word, 2, big),
         Word(t, z.word, 3, big), Word(t, z.word, 4, big))
  }

  predicate Fits(p: Phdr, z: Shape) {
    && p.ptype < Limit(z.head) && p.offset < Limit(z.word) && p.vaddr < Limit(z.word)
    && p.paddr < Limit(z.word) && p.filesz < Limit(z.word) && p.memsz < Limit(z.word)
  }

  lemma {:induction false} Fifths(a: seq<byte>, b: seq<byte>, c: seq<byte>, d: seq<byte>, e: seq<byte>, w: nat)
    requires |a| == |b| == |c| == |d| == |e| == w
    ensures var s := a + b + c + d + e;
            s[..w] == a && s[w..2 * w] == b && s[2 * w..3 * w] == c && s[3 * w..4 * w] == d && s[4 * w..] == e
  {
  }

  lemma {:induction false} WordsAt(p: Phdr, w: nat, big: bool)
    ensures var s := Words(p, w, big);
            && s[..w] == Enc(p.offset, w, big) && s[w..2 * w] == Enc(p.vaddr, w, big)
            && s[2 * w..3 * w] == Enc(p.paddr, w, big) && s[3 * w..4 * w] == Enc(p.filesz, w, big)
            && s[4 * w..] == Enc(p.memsz, w, big)
  {
    Fifths(Enc(p.offset, w, big), Enc(p.vaddr, w, big), Enc(p.paddr, w, big), Enc(p.filesz, w, big),
      Enc(p.memsz, w, big), w);
  }

  lemma {:induction false} WordsExact(p: Phdr, w: nat, big: bool)
    ensures var s := Words(p, w, big);
            && (Word(s, w, 0, big) == p.offset <==> p.offset < Limit(w))
            && (Word(s, w, 1, big) == p.vaddr <==> p.vaddr < Limit(w))
            && (Word(s, w, 2, big) == p.paddr <==> p.paddr < Limit(w))
            && (Word(s, w, 3, big) == p.filesz <==> p.filesz < Limit(w))
            && (Word(s, w, 4, big) == p.memsz <==> p.memsz < Limit(w))
  {
    WordsAt(p, w, big);
    WordExact(p.offset, w, big);
    WordExact(p.vaddr, w, big);
    WordExact(p.paddr, w, big);
    WordExact(p.filesz, w, big);
    WordExact(p.memsz, w, big);
  }

  /** A reader of the table sees the header that was meant, exactly if its numbers fit the class of the file:
      a 32-bit file silently keeps the low halves. */
  lemma {:induction false} PhdrExact(p: Phdr, z: Shape, big: bool)
    ensures ParsePhdr(EncPhdr(p, z, big), z, big) == p <==> Fits(p, z)
  {
    var s := EncPhdr(p, z, big);
    assert s[..z.head] == Enc(p.ptype, z.head, big);
    assert s[z.head + z.pad..z.head + z.pad + 5 * z.word] == Words(p, z.word, big);
    WordExact(p.ptype, z.head, big);
    WordsExact(p, z.word, big);
  }

  /** The class of the file: the sizes of its headers, and the fields of a program header. */
  datatype Class = Class(ehdr: nat, phdr: nat, shdr: nat, fields: Shape)

  const ELFCLASS64: Class := Class(64, 56, 64, Shape(4, 4, 8, 8))
  const ELFCLASS32: Class := Class(52, 32, 40, Shape(4, 0, 4, 8))

  /** A mapping of memory that is not in the dump has the offset -1, and in a 32-bit file its header is read
      back as another one. */
  lemma {:induction false} NarrowPhdr(big: bool)
    ensures var p := Phdr(1, NOT_STORED, 0xC000_0000, 0x1000_0000, 0, 0x1000);
            ParsePhdr(EncPhdr(p, ELFCLASS32.fields, big), ELFCLASS32.fields, big) != p
  {
    Limits();
    PhdrExact(Phdr(1, NOT_STORED, 0xC000_0000, 0x1000_0000, 0, 0x1000), ELFCLASS32.fields, big);
  }

  /** ArchDumpInfo: the class, the byte order as a way to write and to read a program header, the page size and the
      size of the notes. */
  datatype Info = Info(elf: Class, encode: Phdr -> seq<byte>, parse: seq<byte> -> Phdr, ps: nat, noteSize: nat)

  ghost predicate InfoOk(info: Info) {
    info.ps > 0 && forall p :: EntryOk(info, p)
  }

  predicate EntryOk(info: Info, p: Phdr) {
    var row := info.encode(p);
    |row| == info.elf.phdr && (info.parse(row) == p <==> Fits(p, info.elf.fields))
  }

  /** The files that dump.c writes: `elf` is one of the two classes. */
  function DumpInfo(elf: Class, big: bool, ps: nat, noteSize: nat): Info {
    Info(elf, p => EncPhdr(p, elf.fields, big),
         s => if |s| == Width(elf.fields) then ParsePhdr(s, elf.fields, big) else Phdr(0, 0, 0, 0, 0, 0), ps, noteSize)
  }

  predicate Sized(elf: Class) {
    elf.phdr == Width(elf.fields)
  }

  lemma {:induction false} ClassSizes()
    ensures Sized(ELFCLASS64) && Sized(ELFCLASS32)
  {
  }

  lemma {:induction false} DumpInfoOk(elf: Class, big: bool, ps: nat, noteSize: nat)
    requires ps > 0 && Sized(elf)
    ensures InfoOk(DumpInfo(elf, big, ps, noteSize))
  {
    var info := DumpInfo(elf, big, ps, noteSize);
    forall p
      ensures EntryOk(info, p)
    {
      PhdrExact(p, info.elf.fields, big);
    }
  }

  /** In particular for the two classes that dump.c writes. */
  lemma {:induction false} ClassesOk(big: bool, ps: nat, noteSize: nat)
    requires ps > 0
    ensures InfoOk(DumpInfo(ELFCLASS64, big, ps, noteSize)) && InfoOk(DumpInfo(ELFCLASS32, big, ps, noteSize))
  {
    ClassSizes();
    DumpInfoOk(ELFCLASS64, big, ps, noteSize);
    DumpInfoOk(ELFCLASS32, big, ps, noteSize);
  }

  /** Program headers one after the other. */
  function Table(ps: seq<Phdr>, encode: Phdr -> seq<byte>): seq<byte> {
    if ps == [] then [] else Table(ps[..|ps| - 1], encode) + encode(ps[|ps| - 1])
  }

  lemma {:induction false} TableSize(ps: seq<Phdr>, info: Info)
    requires InfoOk(info)
    ensures |Table(ps, info.encode)| == info.elf.phdr * |ps|
    decreases |ps|
  {
    if ps != [] {
      TableSize(ps[..|ps| - 1], info);
      assert EntryOk(info, ps[|ps| - 1]);
      OneMore(|ps| - 1, info.elf.phdr);
    }
  }

  lemma {:induction false} TablePrefix(ps: seq<Phdr>, encode: Phdr -> seq<byte>, k: nat)
    requires k <= |ps|
    ensures Table(ps[..k], encode) <= Table(ps, encode)
    decreases |ps|
  {
    var n := |ps| - 1;
    if k <= n {
      TablePrefix(ps[..n], encode, k);
      assert ps[..n][..k] == ps[..k];
    } else {
      assert ps[..k] == ps;
    }
  }

  lemma {:induction false} PrefixPart(table: seq<byte>, front: seq<byte>, row: seq<byte>)
    requires front + row <= table
    ensures |front| + |row| <= |table| && table[|front|..|front| + |row|] == row
  {
  }

  lemma {:induction false} TableAt(ps: seq<Phdr>, encode: Phdr -> seq<byte>, k: nat)
    requires k < |ps|
    ensures var at, row := |Table(ps[..k], encode)|, encode(ps[k]);
            at + |row| <= |Table(ps, encode)| && Table(ps, encode)[at..at + |row|] == row
  {
    TablePrefix(ps, encode, k + 1);
    assert ps[..k + 1][..k] == ps[..k];
    PrefixPart(Table(ps, encode), Table(ps[..k], encode), encode(ps[k]));
  }

  lemma {:induction false} TablePush(ps: seq<Phdr>, p: Phdr, encode: Phdr -> seq<byte>)
    ensures Table(ps + [p], encode) == Table(ps, encode) + encode(p)
  {
    assert (ps + [p])[..|ps|] == ps;
  }

  // ---------------------------------------------------------------------------------------------
  // The memory part of the file
  // ---------------------------------------------------------------------------------------------

  /** has_filter, begin and length */
  datatype Filter = Whole | Range(begin: nat, length: nat)

  predicate Passes(f: Filter, a: nat) {
    f.Range? ==> f.begin <= a < f.begin + f.length
  }

  predicate Selected(f: Filter, b: HostBlock) {
    f.Whole? || !(b.start >= f.begin + f.length || b.end <= f.begin)
  }

  function From(f: Filter, b: HostBlock): (r: nat)
    ensures b.start <= r
  {
    if f.Range? && f.begin > b.start then f.begin else b.start
  }

  function Until(f: Filter, b: HostBlock): (r: nat)
    ensures r <= b.end && (Selected(f, b) && b.start < b.end ==> From(f, b) <= r)
  {
    if f.Range? && f.begin + f.length < b.end then f.begin + f.length else b.end
  }

  /** Guest RAM that belongs in the dump. */
  predicate Stored(f: Filter, blocks: seq<HostBlock>, a: nat) {
    Passes(f, a) && HostAt(blocks, a).Some?
  }

  function Piece(mem: nat -> byte, f: Filter, b: HostBlock): seq<byte>
    requires b.start < b.end
  {
    if Selected(f, b) then HostBytes(mem, b.host + (From(f, b) - b.start), Until(f, b) - From(f, b)) else []
  }

  /** What dump_iterate has written after `k` blocks: the selected part of each in turn. */
  function BodyTo(mem: nat -> byte, f: Filter, blocks: seq<HostBlock>, k: nat): seq<byte>
    requires Ordered(blocks) && k <= |blocks|
  {
    if k == 0 then [] else BodyTo(mem, f, blocks, k - 1) + Piece(mem, f, blocks[k - 1])
  }

  function Body(mem: nat -> byte, f: Filter, blocks: seq<HostBlock>): seq<byte>
    requires Ordered(blocks)
  {
    BodyTo(mem, f, blocks, |blocks|)
  }

  function PieceSize(f: Filter, b: HostBlock): nat
    requires b.start < b.end
  {
    if Selected(f, b) then Until(f, b) - From(f, b) else 0
  }

  /** How much of the body the first `k` blocks give. */
  function BodySize(f: Filter, blocks: seq<HostBlock>, k: nat): nat
    requires Ordered(blocks) && k <= |blocks|
  {
    if k == 0 then 0 else BodySize(f, blocks, k - 1) + PieceSize(f, blocks[k - 1])
  }

  lemma {:induction false} PieceSizeIs(mem: nat -> byte, f: Filter, b: HostBlock)
    requires b.start < b.end
    ensures |Piece(mem, f, b)| == PieceSize(f, b)
  {
  }

  lemma {:induction false} BodySizeIs(mem: nat -> byte, f: Filter, blocks: seq<HostBlock>, k: nat)
    requires Ordered(blocks) && k <= |blocks|
    ensures |BodyTo(mem, f, blocks, k)| == BodySize(f, blocks, k)
  {
    if k > 0 {
      BodySizeIs(mem, f, blocks, k - 1);
      PieceSizeIs(mem, f, blocks[k - 1]);
    }
  }

  lemma {:induction false} BodyPrefix(mem: nat -> byte, f: Filter, blocks: seq<HostBlock>, i: nat, j: nat)
    requires Ordered(blocks) && i <= j <= |blocks|
    ensures BodyTo(mem, f, blocks, i) <= BodyTo(mem, f, blocks, j)
    decreases j - i
  {
    if i < j {
      BodyPrefix(mem, f, blocks, i, j - 1);
    }
  }

  lemma {:induction false} BodyAt(mem: nat -> byte, f: Filter, blocks: seq<HostBlock>, k: nat, i: nat)
    requires Ordered(blocks) && k < |blocks| && i < |Piece(mem, f, blocks[k])|
    ensures |BodyTo(mem, f, blocks, k)| + i < |Body(mem, f, blocks)|
    ensures Body(mem, f, blocks)[|BodyTo(mem, f, blocks, k)| + i] == Piece(mem, f, blocks[k])[i]
  {
    BodyPiece(mem, f, blocks, k);
    PartAt(Body(mem, f, blocks), BodyTo(mem, f, blocks, k), Piece(mem, f, blocks[k]), i);
  }

  lemma {:induction false} BodyPiece(mem: nat -> byte, f: Filter, blocks: seq<HostBlock>, k: nat)
    requires Ordered(blocks) && k < |blocks|
    ensures BodyTo(mem, f, blocks, k) + Piece(mem, f, blocks[k]) <= Body(mem, f, blocks)
  {
    BodyPrefix(mem, f, blocks, k + 1, |blocks|);
  }

  lemma {:induction false} PartAt(whole: seq<byte>, front: seq<byte>, part: seq<byte>, i: nat)
    requires front + part <= whole && i < |part|
    ensures |front| + i < |whole| && whole[|front| + i] == part[i]
  {
    assert (front + part)[|front| + i] == part[i];
  }

  lemma {:induction false} BodySkips(mem: nat -> byte, f: Filter, blocks: seq<HostBlock>, i: nat, j: nat)
    requires Ordered(blocks) && i <= j <= |blocks|
    requires forall k :: i <= k < j ==> !Selected(f, blocks[k])
    ensures BodyTo(mem, f, blocks, j) == BodyTo(mem, f, blocks, i)
    decreases j - i
  {
    if i < j {
      BodySkips(mem, f, blocks, i, j - 1);
    }
  }

  lemma {:induction false} HostAtCover(blocks: seq<HostBlock>, k: nat, a: nat)
    requires Ordered(blocks) && k < |blocks| && Covers(blocks[k], a)
    ensures HostAt(blocks, a) == Some(blocks[k].host + (a - blocks[k].start))
    decreases |blocks|
  {
    var n := |blocks| - 1;
    if k < n {
      assert blocks[k].end <= blocks[n].start;
      HostAtCover(blocks[..n], k, a);
    }
  }

  lemma {:induction false} CoverAt(blocks: seq<HostBlock>, a: nat) returns (k: nat)
    requires HostAt(blocks, a).Some?
    ensures k < |blocks| && Covers(blocks[k], a)
    decreases |blocks|
  {
    k := |blocks| - 1;
    if !Covers(blocks[k], a) {
      k := CoverAt(blocks[..k], a);
    }
  }

  lemma {:induction false} CoverOnce(blocks: seq<HostBlock>, k: nat, l: nat, a: nat)
    requires Ordered(blocks) && k < |blocks| && l < |blocks| && Covers(blocks[k], a) && Covers(blocks[l], a)
    ensures k == l
  {
  }

  lemma {:induction false} PieceAt(mem: nat -> byte, f: Filter, b: HostBlock, a: nat)
    requires b.start < b.end && Covers(b, a) && From(f, b) <= a < Until(f, b)
    ensures a - From(f, b) < |Piece(mem, f, b)| && Piece(mem, f, b)[a - From(f, b)] == mem(b.host + (a - b.start))
  {
  }

  /** Where the body keeps a stored address. */
  lemma {:induction false} BodyHost(mem: nat -> byte, f: Filter, blocks: seq<HostBlock>, k: nat, a: nat)
    requires Ordered(blocks) && k < |blocks| && Covers(blocks[k], a) && From(f, blocks[k]) <= a < Until(f, blocks[k])
    ensures Stored(f, blocks, a)
    ensures BodySize(f, blocks, k) + (a - From(f, blocks[k])) < |Body(mem, f, blocks)|
    ensures Body(mem, f, blocks)[BodySize(f, blocks, k) + (a - From(f, blocks[k]))] == mem(HostAt(blocks, a).value)
  {
    HostAtCover(blocks, k, a);
    PieceAt(mem, f, blocks[k], a);
    BodySizeIs(mem, f, blocks, k);
    BodyAt(mem, f, blocks, k, a - From(f, blocks[k]));
  }

  /** An offset and a size as get_offset_range gives them for a mapping, with the memory at `base`. */
  ghost predicate Placed(f: Filter, blocks: seq<HostBlock>, base: nat, m: Mapping, offset: nat, filesz: nat)
    requires Ordered(blocks)
  {
    if Stored(f, blocks, m.phys) then
      exists k :: 0 <= k < |blocks| && PlacedIn(f, blocks, base, m, offset, filesz, k)
    else offset == NOT_STORED && filesz == 0
  }

  predicate PlacedIn(f: Filter, blocks: seq<HostBlock>, base: nat, m: Mapping, offset: nat, filesz: nat, k: nat)
    requires Ordered(blocks) && k < |blocks|
  {
    && Covers(blocks[k], m.phys) && Passes(f, m.phys)
    && offset == base + BodySize(f, blocks, k) + (m.phys - From(f, blocks[k]))
    && filesz == if m.phys + m.length <= Until(f, blocks[k]) then m.length else Until(f, blocks[k]) - m.phys
  }

  lemma {:induction false} BehindHead(head: seq<byte>, body: seq<byte>, i: nat)
    requires i < |body|
    ensures (head + body)[|head| + i] == body[i]
  {
  }

  lemma {:induction false} PlacedInPart(f: Filter, blocks: seq<HostBlock>, base: nat, m: Mapping,
                                        offset: nat, filesz: nat, k: nat, i: nat)
    requires Ordered(blocks) && k < |blocks| && PlacedIn(f, blocks, base, m, offset, filesz, k) && i < filesz
    ensures filesz <= m.length && Covers(blocks[k], m.phys + i) &&
            From(f, blocks[k]) <= m.phys + i < Until(f, blocks[k])
    ensures offset + i == base + (BodySize(f, blocks, k) + (m.phys + i - From(f, blocks[k])))
  {
  }

  lemma {:induction false} PlacedInReads(mem: nat -> byte, f: Filter, blocks: seq<HostBlock>, head: seq<byte>,
                                         m: Mapping,
                                         offset: nat, filesz: nat, k: nat, i: nat)
    requires Ordered(blocks) && k < |blocks| && PlacedIn(f, blocks, |head|, m, offset, filesz, k) && i < filesz
    ensures filesz <= m.length && Stored(f, blocks, m.phys + i) && offset + i < |head + Body(mem, f, blocks)|
    ensures (head + Body(mem, f, blocks))[offset + i] == mem(HostAt(blocks, m.phys + i).value)
  {
    var at := BodySize(f, blocks, k) + (m.phys + i - From(f, blocks[k]));
    PlacedInPart(f, blocks, |head|, m, offset, filesz, k, i);
    BodyHost(mem, f, blocks, k, m.phys + i);
    BehindHead(head, Body(mem, f, blocks), at);
  }

  /** The file range of a load holds the guest memory at the load's physical address. */
  lemma {:induction false} PlacedReads(mem: nat -> byte, f: Filter, blocks: seq<HostBlock>, head: seq<byte>, m: Mapping,
                                       offset: nat, filesz: nat, i: nat)
    requires Ordered(blocks) && Placed(f, blocks, |head|, m, offset, filesz) && i < filesz
    ensures filesz <= m.length && Stored(f, blocks, m.phys + i) && offset + i < |head + Body(mem, f, blocks)|
    ensures (head + Body(mem, f, blocks))[offset + i] == mem(HostAt(blocks, m.phys + i).value)
  {
    var k :| 0 <= k < |blocks| && PlacedIn(f, blocks, |head|, m, offset, filesz, k);
    PlacedInReads(mem, f, blocks, head, m, offset, filesz, k, i);
  }

  // ---------------------------------------------------------------------------------------------
  // The loads of the plain memory map
  // ---------------------------------------------------------------------------------------------

  /** The mapping list of dump_init without paging. */
  function PlainMaps(f: Filter, blocks: seq<HostBlock>): seq<Mapping>
    requires Ordered(blocks)
  {
    if f.Whole? then Simple(blocks) else Clipped(Simple(blocks), f.begin, f.length)
  }

  lemma {:induction false} PlainNext(f: Filter, blocks: seq<HostBlock>)
    requires Ordered(blocks) && blocks != []
    ensures var n := |blocks| - 1; var b := blocks[n];
            PlainMaps(f, blocks) == PlainMaps(f, blocks[..n])
              + if Selected(f, b) then [Mapping(From(f, b), 0, Until(f, b) - From(f, b))] else []
  {
    var n := |blocks| - 1;
    assert Simple(blocks)[..n] == Simple(blocks[..n]);
    assert f.Whole? ==> Simple(blocks) == Simple(blocks[..n]) + [Simple(blocks)[n]];
  }

  /** Each entry is the selected part of one block. */
  lemma {:induction false} PlainIsPiece(f: Filter, blocks: seq<HostBlock>, j: nat) returns (k: nat)
    requires Ordered(blocks) && j < |PlainMaps(f, blocks)|
    ensures k < |blocks| && Selected(f, blocks[k])
    ensures PlainMaps(f, blocks)[j] == Mapping(From(f, blocks[k]), 0, Until(f, blocks[k]) - From(f, blocks[k]))
    decreases |blocks|
  {
    if blocks != [] {
      var n := |blocks| - 1;
      PlainNext(f, blocks);
      if j < |PlainMaps(f, blocks[..n])| {
        k := PlainIsPiece(f, blocks[..n], j);
      } else {
        k := n;
      }
    }
  }

  /** Every stored address is in an entry, */
  lemma {:induction false} PlainHas(f: Filter, blocks: seq<HostBlock>, a: nat) returns (j: nat)
    requires Ordered(blocks) && Stored(f, blocks, a)
    ensures j < |PlainMaps(f, blocks)| && Maps(PlainMaps(f, blocks)[j], a)
    decreases |blocks|
  {
    var n := |blocks| - 1;
    PlainNext(f, blocks);
    if Covers(blocks[n], a) {
      j := |PlainMaps(f, blocks[..n])|;
    } else {
      j := PlainHas(f, blocks[..n], a);
    }
  }

  lemma {:induction false} PlainBelow(f: Filter, blocks: seq<HostBlock>, j: nat, e: nat)
    requires Ordered(blocks) && j < |PlainMaps(f, blocks)| && EndsBy(blocks, e)
    ensures PlainMaps(f, blocks)[j].phys + PlainMaps(f, blocks)[j].length <= e
  {
    var k := PlainIsPiece(f, blocks, j);
    assert k < |blocks| - 1 ==> blocks[k].end <= blocks[|blocks| - 1].start;
  }

  /** and in one only. */
  lemma {:induction false} PlainOnce(f: Filter, blocks: seq<HostBlock>, i: nat, j: nat)
    requires Ordered(blocks) && i < j < |PlainMaps(f, blocks)|
    ensures PlainMaps(f, blocks)[i].phys + PlainMaps(f, blocks)[i].length <= PlainMaps(f, blocks)[j].phys
    decreases |blocks|
  {
    if blocks != [] {
      var n := |blocks| - 1;
      PlainNext(f, blocks);
      assert n > 0 ==> blocks[n - 1].end <= blocks[n].start;
      if j < |PlainMaps(f, blocks[..n])| {
        PlainOnce(f, blocks[..n], i, j);
      } else {
        PlainBelow(f, blocks[..n], i, blocks[n].start);
      }
    }
  }

  /** Without paging each load is stored in full: p_filesz is p_memsz. */
  lemma {:induction false} PlainInFull(f: Filter, blocks: seq<HostBlock>, base: nat, j: nat, offset: nat, filesz: nat)
    requires Ordered(blocks) && j < |PlainMaps(f, blocks)|
    requires Placed(f, blocks, base, PlainMaps(f, blocks)[j], offset, filesz)
    ensures filesz == PlainMaps(f, blocks)[j].length
  {
    var k := PlainIsPiece(f, blocks, j);
    var m := PlainMaps(f, blocks)[j];
    if m.length > 0 {
      HostAtCover(blocks, k, m.phys);
      var l :| 0 <= l < |blocks| && PlacedIn(f, blocks, base, m, offset, filesz, l);
      CoverOnce(blocks, k, l, m.phys);
    }
  }
}
