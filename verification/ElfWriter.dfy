/** The passes of dump.c that write an ELF vmcore: the layout is computed, the headers are written from it, and
    then the memory, block by block. */
module ElfWriter {
  import opened Arithmetic
  import opened DumpWords
  import opened FlatFile
  import opened GuestBlocks
  import opened MappingList
  import opened ElfDump
  import opened Options

  /** How many PT_LOAD entries fit the 32-bit header count. */
  function LoadCount(n: nat): nat {
    if n < UINT32_MAX then n else UINT32_MAX - 1
  }

  predicate NeedsSection(n: nat) {
    n >= PN_XNUM - 2
  }

  /** The size of everything before the memory. */
  function HeaderSize(info: Info, n: nat): nat {
    info.elf.ehdr + info.elf.phdr * (1 + LoadCount(n))
    + (if NeedsSection(n) then info.elf.shdr else 0) + info.noteSize
  }

  lemma {:induction false} NotesFit(info: Info, n: nat)
    ensures HeaderSize(info, n) >= info.noteSize
  {
    Scaled(0, 1 + LoadCount(n), info.elf.phdr);
  }

  /** Program header `k` as a reader of the file finds it. */
  function PhdrAt(file: seq<byte>, info: Info, k: nat): Option<Phdr> {
    var at := info.elf.ehdr + info.elf.phdr * k;
    if at + info.elf.phdr <= |file| then Some(info.parse(file[at..at + info.elf.phdr])) else None
  }

  lemma {:induction false} PhdrFound(ehdr: seq<byte>, ps: seq<Phdr>, rest: seq<byte>, info: Info, k: nat)
    requires InfoOk(info) && |ehdr| == info.elf.ehdr && k < |ps|
    ensures PhdrAt(ehdr + Table(ps, info.encode) + rest, info, k) == Some(ps[k]) <==> Fits(ps[k], info.elf.fields)
  {
    var at := |Table(ps[..k], info.encode)|;
    assert EntryOk(info, ps[k]);
    TableAt(ps, info.encode, k);
    TableSize(ps[..k], info);
    InMiddle(ehdr, Table(ps, info.encode), rest, at, at + info.elf.phdr);
  }

  lemma {:induction false} InMiddle(a: seq<byte>, b: seq<byte>, c: seq<byte>, lo: nat, hi: nat)
    requires lo <= hi <= |b|
    ensures |a| + hi <= |a + b + c| && (a + b + c)[|a| + lo..|a| + hi] == b[lo..hi]
  {
  }

  /** The entry for a mapping names a part of the file with the guest memory of the mapping; a reader finds the
      entry as it was meant if its numbers fit the class of the file. */
  ghost predicate LoadReads(mem: nat -> byte, f: Filter, blocks: seq<HostBlock>, info: Info, m: Mapping,
                            file: seq<byte>, p: Phdr, k: nat)
  {
    && p.ptype == PT_LOAD && p.paddr == m.phys && p.vaddr == m.virt && p.memsz == m.length && p.filesz <= p.memsz
    && (PhdrAt(file, info, k) == Some(p) <==> Fits(p, info.elf.fields))
    && (Stored(f, blocks, p.paddr) && p.memsz > 0 ==> p.filesz > 0)
    && (forall i :: 0 <= i < p.filesz ==> ByteReads(mem, f, blocks, file, p, i))
  }

  predicate ByteReads(mem: nat -> byte, f: Filter, blocks: seq<HostBlock>, file: seq<byte>, p: Phdr, i: nat) {
    && Stored(f, blocks, p.paddr + i) && p.offset + i < |file|
    && file[p.offset + i] == mem(HostAt(blocks, p.paddr + i).value)
  }

  /** What write_elf_loads computes for a mapping. */
  ghost predicate LoadFor(f: Filter, blocks: seq<HostBlock>, base: nat, m: Mapping, p: Phdr)
    requires Ordered(blocks)
  {
    && p.ptype == PT_LOAD && p.paddr == m.phys && p.vaddr == m.virt && p.memsz == m.length
    && Placed(f, blocks, base, m, p.offset, p.filesz)
  }

  /** So every mapping of memory that is not in a 32-bit file has a header that reads back wrong. */
  lemma {:induction false} NarrowHole(mem: nat -> byte, f: Filter, blocks: seq<HostBlock>, info: Info, base: nat,
                                      m: Mapping,
                                      file: seq<byte>, p: Phdr, k: nat)
    requires Ordered(blocks) && info.elf == ELFCLASS32 && !Stored(f, blocks, m.phys)
    requires LoadFor(f, blocks, base, m, p) && LoadReads(mem, f, blocks, info, m, file, p, k)
    ensures p.offset == NOT_STORED && PhdrAt(file, info, k) != Some(p)
  {
    Limits();
  }

  ghost predicate AllLoads(f: Filter, blocks: seq<HostBlock>, base: nat, maps: seq<Mapping>, loads: seq<Phdr>) {
    Ordered(blocks) && |loads| <= |maps| && forall k :: 0 <= k < |loads| ==> LoadFor(f, blocks, base, maps[k], loads[k])
  }

  lemma {:induction false} AllLoadsPush(f: Filter, blocks: seq<HostBlock>, base: nat, maps: seq<Mapping>,
                                        loads: seq<Phdr>, p: Phdr)
    requires AllLoads(f, blocks, base, maps, loads) && |loads| < |maps|
    requires LoadFor(f, blocks, base, maps[|loads|], p)
    ensures AllLoads(f, blocks, base, maps, loads + [p])
  {
  }

  lemma {:induction false} PlacedSome(f: Filter, blocks: seq<HostBlock>, base: nat, m: Mapping,
                                      offset: nat, filesz: nat)
    requires Ordered(blocks) && Placed(f, blocks, base, m, offset, filesz)
    ensures filesz <= m.length && (Stored(f, blocks, m.phys) && m.length > 0 ==> filesz > 0)
  {
    if Stored(f, blocks, m.phys) {
      var k :| 0 <= k < |blocks| && PlacedIn(f, blocks, base, m, offset, filesz, k);
    }
  }

  lemma {:induction false} LoadBytes(mem: nat -> byte, f: Filter, blocks: seq<HostBlock>, m: Mapping, head: seq<byte>,
                                     p: Phdr)
    requires Ordered(blocks) && LoadFor(f, blocks, |head|, m, p)
    ensures forall i :: 0 <= i < p.filesz ==> ByteReads(mem, f, blocks, head + Body(mem, f, blocks), p, i)
  {
    forall i | 0 <= i < p.filesz
      ensures ByteReads(mem, f, blocks, head + Body(mem, f, blocks), p, i)
    {
      PlacedReads(mem, f, blocks, head, m, p.offset, p.filesz, i);
    }
  }

  lemma {:induction false} Regroup(a: seq<byte>, b: seq<byte>, c: seq<byte>)
    ensures a + b + c == a + (b + c)
  {
  }

  lemma {:induction false} LoadIsRead(mem: nat -> byte, f: Filter, blocks: seq<HostBlock>, info: Info, m: Mapping,
                                      ehdr: seq<byte>, ps: seq<Phdr>, rest: seq<byte>, head: seq<byte>, k: nat)
    requires InfoOk(info) && Ordered(blocks) && |ehdr| == info.elf.ehdr && k < |ps|
    requires head == ehdr + Table(ps, info.encode) + rest
    requires LoadFor(f, blocks, |head|, m, ps[k])
    ensures LoadReads(mem, f, blocks, info, m, head + Body(mem, f, blocks), ps[k], k)
  {
    var p, body := ps[k], Body(mem, f, blocks);
    PlacedSome(f, blocks, |head|, m, p.offset, p.filesz);
    LoadBytes(mem, f, blocks, m, head, p);
    Regroup(ehdr + Table(ps, info.encode), rest, body);
    PhdrFound(ehdr, ps, rest + body, info, k);
  }

  // ---------------------------------------------------------------------------------------------
  // Arithmetic of write_memory
  // ---------------------------------------------------------------------------------------------

  lemma {:induction false} HostJoin(mem: nat -> byte, host: nat, n: nat, more: nat)
    ensures HostBytes(mem, host, n) + HostBytes(mem, host + n, more) == HostBytes(mem, host, n + more)
  {
  }

  lemma {:induction false} PagesAndRest(size: nat, ps: nat)
    requires ps > 0
    ensures ps * (size / ps) + size % ps == size
  {
  }

  // ---------------------------------------------------------------------------------------------
  // Steps of the passes
  // ---------------------------------------------------------------------------------------------

  lemma {:induction false} BodyHop(mem: nat -> byte, f: Filter, blocks: seq<HostBlock>, i: nat, j: nat)
    requires Ordered(blocks) && i < j <= |blocks|
    requires forall k :: i < k < j ==> !Selected(f, blocks[k])
    ensures BodyTo(mem, f, blocks, j) == BodyTo(mem, f, blocks, i) + Piece(mem, f, blocks[i])
  {
    BodySkips(mem, f, blocks, i + 1, j);
  }

  lemma {:induction false} NothingCovers(blocks: seq<HostBlock>, a: nat)
    requires forall k :: 0 <= k < |blocks| ==> !Covers(blocks[k], a)
    ensures HostAt(blocks, a) == None
    decreases |blocks|
  {
    if blocks != [] {
      NothingCovers(blocks[..|blocks| - 1], a);
    }
  }

  lemma {:induction false} PlacedHere(f: Filter, blocks: seq<HostBlock>, base: nat, m: Mapping,
                                      offset: nat, filesz: nat, k: nat)
    requires Ordered(blocks) && k < |blocks| && PlacedIn(f, blocks, base, m, offset, filesz, k)
    ensures Placed(f, blocks, base, m, offset, filesz)
  {
    HostAtCover(blocks, k, m.phys);
  }

  /** An address that the filter passes is in the selected part of the block that has it. */
  lemma {:induction false} CoveredPart(f: Filter, b: HostBlock, a: nat)
    requires Passes(f, a)
    ensures Covers(b, a) <==> Selected(f, b) && From(f, b) <= a < Until(f, b)
  {
  }

  /** The program header for the notes. */
  function NotePhdr(base: nat, noteSize: nat): Phdr {
    Phdr(PT_NOTE, if base >= noteSize then base - noteSize else 0, 0, 0, noteSize, noteSize)
  }

  class DumpState {
    const mem: nat -> byte
    const blocks: seq<HostBlock>
    const filter: Filter
    const info: Info
    const maps: seq<Mapping>
    var haveSection: bool
    var phdrNum: nat
    var shInfo: nat
    var memoryOffset: nat
    var start: nat
    var next: nat
    var written: nat
    var file: seq<byte>
    var room: nat   // how many more bytes the descriptor accepts

    ghost predicate Wf() {
      Ordered(blocks) && InfoOk(info) && |maps| <= UINT32_MAX
    }

    constructor (mem: nat -> byte, blocks: seq<HostBlock>, filter: Filter, info: Info, maps: seq<Mapping>, room: nat)
      ensures this.mem == mem && this.blocks == blocks && this.filter == filter && this.info == info &&
              this.maps == maps
      ensures file == [] && written == 0 && this.room == room
    {
      this.mem, this.blocks, this.filter, this.info, this.maps := mem, blocks, filter, info, maps;
      this.room := room;
      haveSection, phdrNum, shInfo, memoryOffset, start, next, written, file := false, 0, 0, 0, 0, 0, 0, [];
    }

    /** dump_calculate_size */
    method CalculateSize() returns (total: nat)
      requires Wf()
      ensures total == |Body(mem, filter, blocks)|
    {
      total := 0;
      var i := 0;
      while i < |blocks|
        invariant 0 <= i <= |blocks| && total == BodySize(filter, blocks, i)
      {
        var size := OverlapSize(blocks[i]);
        total := total + size;
        i := i + 1;
      }
      BodySizeIs(mem, filter, blocks, i);
    }

    /** One step of dump_calculate_size. */
    method OverlapSize(b: HostBlock) returns (size: nat)
      requires b.start < b.end
      ensures size == PieceSize(filter, b)
    {
      if filter.Range? {
        var left := if filter.begin > b.start then filter.begin else b.start;
        var right := if filter.begin + filter.length < b.end then filter.begin + filter.length else b.end;
        size := if right - left > 0 then right - left else 0;
      } else {
        size := b.end - b.start;
      }
    }

    ghost predicate AtBlock()
      reads this
    {
      next < |blocks| && Selected(filter, blocks[next]) && start == From(filter, blocks[next]) - blocks[next].start
    }

    /** get_start_block */
    method GetStartBlock() returns (ret: int)
      requires Wf() && (filter.Whole? ==> blocks != [])
      modifies `next, `start
      ensures ret == -1 ==> forall i :: 0 <= i < |blocks| ==> !Selected(filter, blocks[i])
      ensures ret != -1 ==>
                && next < |blocks| && Selected(filter, blocks[next])
                && ret == From(filter, blocks[next]) - blocks[next].start
      ensures ret != -1 ==> forall i :: 0 <= i < next ==> !Selected(filter, blocks[i])
    {
      if filter.Whole? {
        next := 0;
        return 0;
      }
      var i := 0;
      while i < |blocks|
        invariant 0 <= i <= |blocks| && forall j :: 0 <= j < i ==> !Selected(filter, blocks[j])
      {
        if blocks[i].start >= filter.begin + filter.length || blocks[i].end <= filter.begin {
          i := i + 1;
          continue;
        }
        next := i;
        if filter.begin > blocks[i].start {
          start := filter.begin - blocks[i].start;
        } else {
          start := 0;
        }
        return start;
      }
      return -1;
    }

    /** get_next_block */
    method GetNextBlock() returns (last: bool)
      requires Wf() && next < |blocks|
      modifies `next, `start
      ensures last ==> forall i :: old(next) < i < |blocks| ==> !Selected(filter, blocks[i])
      ensures !last ==> AtBlock() && old(next) < next && forall i :: old(next) < i < next ==>
                !Selected(filter, blocks[i])
    {
      var i := next;
      while true
        invariant next <= i < |blocks| && old(next) <= i
        invariant forall j :: old(next) < j <= i ==> !Selected(filter, blocks[j])
        decreases |blocks| - i
      {
        i := i + 1;
        if i == |blocks| {
          return true;
        }
        start := 0;
        next := i;
        if filter.Range? {
          if blocks[i].start >= filter.begin + filter.length || blocks[i].end <= filter.begin {
            continue;
          }
          if filter.begin > blocks[i].start {
            start := filter.begin - blocks[i].start;
          }
        }
        return false;
      }
    }

    /** fd_write_vmcore; a descriptor that runs full has taken part of the buffer. */
    method FdWrite(buf: seq<byte>) returns (ok: bool)
      modifies `file, `room
      ensures ok == (|buf| <= old(room))
      ensures file == old(file) + if ok then buf else buf[..old(room)]
      ensures |file| + room == old(|file| + room) && (!ok ==> room == 0)
    {
      ok := |buf| <= room;
      var taken := if ok then |buf| else room;
      file := file + buf[..taken];
      room := room - taken;
    }

    /** write_data */
    method WriteData(host: nat, length: nat) returns (ok: bool)
      modifies `file, `room, `written
      ensures |file| + room == old(|file| + room) && (!ok ==> room == 0)
      ensures ok ==> file == old(file) + HostBytes(mem, host, length) && written == old(written) + length
      ensures !ok ==> written == old(written)
    {
      ok := FdWrite(HostBytes(mem, host, length));
      if ok {
        written := written + length;
      }
    }

    /** write_memory, one page at a time */
    method WriteMemory(b: HostBlock, from: nat, size: nat) returns (ok: bool)
      requires Wf()
      modifies `file, `room, `written
      ensures |file| + room == old(|file| + room) && (!ok ==> room == 0)
      ensures ok ==> file == old(file) + HostBytes(mem, b.host + from, size) && written == old(written) + size
    {
      var n, rest := size / info.ps, size % info.ps;
      var whole := info.ps * n;
      PagesAndRest(size, info.ps);
      ok := WritePages(b.host + from, n);
      if ok && rest != 0 {
        ok := WriteData(b.host + from + whole, rest);
        HostJoin(mem, b.host + from, whole, rest);
      }
    }

    /** The loop of write_memory over whole pages. */
    method WritePages(host: nat, n: nat) returns (ok: bool)
      requires Wf()
      modifies `file, `room, `written
      ensures |file| + room == old(|file| + room) && (!ok ==> room == 0)
      ensures ok ==> file == old(file) + HostBytes(mem, host, info.ps * n) && written == old(written) + info.ps * n
    {
      var at := 0;
      for i := 0 to n
        invariant |file| + room == old(|file| + room) && at == info.ps * i
        invariant file == old(file) + HostBytes(mem, host, at) && written == old(written) + at
      {
        OneMore(i, info.ps);
        ok := WriteData(host + at, info.ps);
        if !ok {
          return;
        }
        HostJoin(mem, host, at, info.ps);
        at := at + info.ps;
      }
      ok := true;
    }

    /** dump_iterate */
    method Iterate() returns (ok: bool)
      requires Wf() && AtBlock() && forall i :: 0 <= i < next ==> !Selected(filter, blocks[i])
      modifies `next, `start, `file, `room, `written
      ensures |file| + room == old(|file| + room) && (!ok ==> room == 0)
      ensures ok ==> file == old(file) + Body(mem, filter, blocks)
      ensures ok ==> written == old(written) + |Body(mem, filter, blocks)|
    {
      BodySkips(mem, filter, blocks, 0, next);
      ghost var done := next;
      var last := false;
      while !last
        invariant |file| + room == old(|file| + room)
        invariant done <= |blocks|
        invariant if last then done == |blocks| else AtBlock() && done == next
        invariant file == old(file) + BodyTo(mem, filter, blocks, done)
        invariant written == old(written) + |BodyTo(mem, filter, blocks, done)|
        decreases |blocks| - done
      {
        Regroup(old(file), BodyTo(mem, filter, blocks, done), Piece(mem, filter, blocks[next]));
        ok := WriteBlock();
        if !ok {
          return;
        }
        last := GetNextBlock();
        ghost var upTo := if last then |blocks| else next;
        BodyHop(mem, filter, blocks, done, upTo);
        done := upTo;
      }
      ok := true;
    }

    /** The part of dump_iterate that writes one block. */
    method WriteBlock() returns (ok: bool)
      requires Wf() && AtBlock()
      modifies `file, `room, `written
      ensures |file| + room == old(|file| + room) && (!ok ==> room == 0)
      ensures ok ==> file == old(file) + Piece(mem, filter, blocks[next])
      ensures ok ==> written == old(written) + |Piece(mem, filter, blocks[next])|
    {
      var b := blocks[next];
      var size := b.end - b.start;
      if filter.Range? {
        size := size - start;
        if filter.begin + filter.length < b.end {
          size := size - (b.end - (filter.begin + filter.length));
        }
      }
      ok := WriteMemory(b, start, size);
    }

    // -------------------------------------------------------------------------------------------
    // Layout and headers
    // -------------------------------------------------------------------------------------------

    ghost predicate Counted()
      reads `haveSection, `shInfo, `phdrNum
    {
      (haveSection <==> NeedsSection(|maps|)) && (if haveSection then shInfo else phdrNum) == 1 + LoadCount(|maps|)
    }

    ghost predicate Laid()
      reads `memoryOffset, `haveSection, `shInfo, `phdrNum
    {
      memoryOffset == HeaderSize(info, |maps|) && Counted()
    }

    /** The end of dump_init: how many headers there are and where the memory starts. */
    method Layout()
      requires Wf()
      modifies this
      ensures Laid() && phdrNum <= PN_XNUM && (phdrNum == PN_XNUM <==> haveSection) && shInfo <= UINT32_MAX
      ensures file == old(file) && room == old(room) && written == old(written) && start == old(start) &&
              next == old(next)
    {
      phdrNum, shInfo := 1, 0;
      if |maps| < PN_XNUM - 2 {
        phdrNum := phdrNum + |maps|;
        haveSection := false;
      } else {
        haveSection := true;
        phdrNum := PN_XNUM;
        shInfo := 1;
        if |maps| <= UINT32_MAX - 1 {
          shInfo := shInfo + |maps|;
        } else {
          shInfo := UINT32_MAX;
        }
      }
      if haveSection {
        memoryOffset := info.elf.ehdr + info.elf.phdr * shInfo + info.elf.shdr + info.noteSize;
      } else {
        memoryOffset := info.elf.ehdr + info.elf.phdr * phdrNum + info.noteSize;
      }
    }

    /** get_offset_range */
    method GetOffsetRange(m: Mapping) returns (pOffset: nat, pFilesz: nat)
      requires Wf()
      ensures Placed(filter, blocks, memoryOffset, m, pOffset, pFilesz)
    {
      pOffset, pFilesz := NOT_STORED, 0;
      if filter.Range? {
        if m.phys < filter.begin || m.phys >= filter.begin + filter.length {
          return;
        }
      }
      pOffset, pFilesz := ScanBlocks(m);
    }

    /** The loop of get_offset_range. */
    method ScanBlocks(m: Mapping) returns (pOffset: nat, pFilesz: nat)
      requires Wf() && Passes(filter, m.phys)
      ensures Placed(filter, blocks, memoryOffset, m, pOffset, pFilesz)
    {
      pOffset, pFilesz := NOT_STORED, 0;
      var offset := memoryOffset;
      var i := 0;
      while i < |blocks|
        invariant 0 <= i <= |blocks| && offset == memoryOffset + BodySize(filter, blocks, i)
        invariant forall j :: 0 <= j < i ==> !Covers(blocks[j], m.phys)
        invariant pOffset == NOT_STORED && pFilesz == 0
      {
        CoveredPart(filter, blocks[i], m.phys);
        var skip, from, size := Overlap(blocks[i]);
        if !skip {
          if m.phys >= from && m.phys < from + size {
            pOffset := m.phys - from + offset;
            pFilesz := if m.phys + m.length <= from + size then m.length else size - (m.phys - from);
            PlacedHere(filter, blocks, memoryOffset, m, pOffset, pFilesz, i);
            return;
          }
          offset := offset + size;
        }
        i := i + 1;
      }
      NothingCovers(blocks, m.phys);
    }

    /** The part of a block that get_offset_range looks at. */
    method Overlap(b: HostBlock) returns (skip: bool, from: nat, size: nat)
      requires b.start < b.end
      ensures skip == !Selected(filter, b)
      ensures !skip ==> from == From(filter, b) && from + size == Until(filter, b)
      ensures PieceSize(filter, b) == if skip then 0 else size
    {
      skip, from, size := false, b.start, b.end - b.start;
      if filter.Range? {
        if b.start >= filter.begin + filter.length || b.end <= filter.begin {
          skip := true;
          return;
        }
        if filter.begin <= b.start {
          from := b.start;
        } else {
          from := filter.begin;
        }
        size := b.end - from;
        if filter.begin + filter.length < b.end {
          size := size - (b.end - (filter.begin + filter.length));
        }
      }
    }

    /** write_elf_loads; `ps` are the program headers so far. */
    method WriteElfLoads(ghost before: seq<byte>, ghost ps: seq<Phdr>) returns (ok: bool, ghost loads: seq<Phdr>)
      requires Wf() && Counted() && file == before + Table(ps, info.encode)
      modifies `file, `room
      ensures |file| + room == old(|file| + room) && (!ok ==> room == 0)
      ensures ok ==> file == before + Table(ps + loads, info.encode)
      ensures ok ==> |loads| == LoadCount(|maps|)
      ensures ok ==> AllLoads(filter, blocks, memoryOffset, maps, loads)
    {
      var phdrIndex := 1;
      var maxIndex := if haveSection then shInfo else phdrNum;
      var i := 0;
      loads := [];
      assert ps + loads == ps;
      while i < |maps|
        invariant 0 <= i == |loads| <= LoadCount(|maps|) && phdrIndex == i + 1
        invariant |file| + room == old(|file| + room)
        invariant i < |maps| ==> phdrIndex < maxIndex
        invariant file == before + Table(ps + loads, info.encode)
        invariant AllLoads(filter, blocks, memoryOffset, maps, loads)
      {
        var p := LoadEntry(maps[i]);
        ok := WritePhdr(before, ps + loads, p);
        if !ok {
          return;
        }
        AllLoadsPush(filter, blocks, memoryOffset, maps, loads, p);
        assert ps + (loads + [p]) == ps + loads + [p];
        loads := loads + [p];
        phdrIndex := phdrIndex + 1;
        i := i + 1;
        if phdrIndex >= maxIndex {
          break;
        }
      }
      ok := true;
    }

    /** The write in write_elf64_load, write_elf32_load and write_elf_note. */
    method WritePhdr(ghost before: seq<byte>, ghost ps: seq<Phdr>, p: Phdr) returns (ok: bool)
      requires file == before + Table(ps, info.encode)
      modifies `file, `room
      ensures |file| + room == old(|file| + room) && (!ok ==> room == 0)
      ensures ok ==> file == before + Table(ps + [p], info.encode)
    {
      TablePush(ps, p, info.encode);
      Regroup(before, Table(ps, info.encode), info.encode(p));
      ok := FdWrite(info.encode(p));
    }

    /** The header that write_elf64_load and write_elf32_load fill in, with their assertion. */
    method LoadEntry(m: Mapping) returns (p: Phdr)
      requires Wf()
      ensures LoadFor(filter, blocks, memoryOffset, m, p)
    {
      var offset, filesz := GetOffsetRange(m);
      PlacedSome(filter, blocks, memoryOffset, m, offset, filesz);
      assert m.length >= filesz;
      p := Phdr(PT_LOAD, offset, m.virt, m.phys, filesz, m.length);
    }

    /** dump_begin */
    method Begin(ehdr: seq<byte>, shdr: seq<byte>, notes: seq<byte>)
      returns (ok: bool, ghost loads: seq<Phdr>, ghost rest: seq<byte>)
      requires Wf() && Laid() && file == [] && |ehdr| == info.elf.ehdr && |shdr| == info.elf.shdr &&
               |notes| == info.noteSize
      modifies `file, `room
      ensures |file| + room == old(|file| + room) && (!ok ==> room == 0)
      ensures ok ==>
                && |loads| == LoadCount(|maps|) && |file| == memoryOffset
                && |rest| >= |notes| && rest[|rest| - |notes|..] == notes
      ensures ok ==> file == ehdr + Table([NotePhdr(memoryOffset, info.noteSize)] + loads, info.encode) + rest
      ensures ok ==> AllLoads(filter, blocks, memoryOffset, maps, loads)
    {
      ghost var note := [NotePhdr(memoryOffset, info.noteSize)];
      loads, rest := [], [];
      NotesFit(info, |maps|);
      ok := BeginNote(ehdr);
      if !ok {
        return;
      }
      ok, loads := WriteElfLoads(ehdr, note);
      if !ok {
        return;
      }
      ghost var front := file;
      ok, rest := BeginRest(shdr, notes);
      if !ok {
        return;
      }
      TableSize(note + loads, info);
    }

    method BeginNote(ehdr: seq<byte>) returns (ok: bool)
      requires file == [] && memoryOffset >= info.noteSize
      modifies `file, `room
      ensures |file| + room == old(|file| + room) && (!ok ==> room == 0)
      ensures ok ==> file == ehdr + Table([NotePhdr(memoryOffset, info.noteSize)], info.encode)
    {
      ok := FdWrite(ehdr);
      if !ok {
        return;
      }
      var p := Phdr(PT_NOTE, memoryOffset - info.noteSize, 0, 0, info.noteSize, info.noteSize);
      assert file == ehdr + Table([], info.encode) && [] + [p] == [p];
      ok := WritePhdr(ehdr, [], p);
    }

    method BeginRest(shdr: seq<byte>, notes: seq<byte>) returns (ok: bool, ghost rest: seq<byte>)
      modifies `file, `room
      ensures |file| + room == old(|file| + room) && (!ok ==> room == 0)
      ensures ok ==> rest == (if haveSection then shdr else []) + notes && file == old(file) + rest
    {
      rest := (if haveSection then shdr else []) + notes;
      if haveSection {
        ok := FdWrite(shdr);
        if !ok {
          return;
        }
      }
      ok := FdWrite(notes);
    }

    /** create_vmcore, after dump_init */
    method CreateVmcore(ehdr: seq<byte>, shdr: seq<byte>, notes: seq<byte>) returns (ok: bool, ghost loads: seq<Phdr>)
      requires Wf() && Laid() && file == [] && |ehdr| == info.elf.ehdr && |shdr| == info.elf.shdr &&
               |notes| == info.noteSize
      requires AtBlock() && forall i :: 0 <= i < next ==> !Selected(filter, blocks[i])
      modifies this
      ensures |file| + room == old(|file| + room) && (!ok ==> room == 0)
      ensures ok ==> |loads| == LoadCount(|maps|) && |file| == HeaderSize(info, |maps|) + |Body(mem, filter, blocks)|
      ensures ok ==> written == old(written) + |Body(mem, filter, blocks)|
      ensures ok ==> forall k :: 0 <= k < |loads| ==>
                LoadReads(mem, filter, blocks, info, maps[k], file, loads[k], k + 1)
      ensures ok ==> AllLoads(filter, blocks, HeaderSize(info, |maps|), maps, loads)
      ensures ok ==> NoteReads(info, file, |maps|, notes)
    {
      ghost var rest;
      ok, loads, rest := Begin(ehdr, shdr, notes);
      if !ok {
        return;
      }
      ghost var head := file;
      ok := Iterate();
      if !ok {
        return;
      }
      ghost var ps := [NotePhdr(memoryOffset, info.noteSize)] + loads;
      forall k | 0 <= k < |loads|
        ensures LoadReads(mem, filter, blocks, info, maps[k], file, loads[k], k + 1)
      {
        assert ps[k + 1] == loads[k];
        LoadIsRead(mem, filter, blocks, info, maps[k], ehdr, ps, rest, head, k + 1);
      }
      NoteIsRead(info, ehdr, ps, rest, head, Body(mem, filter, blocks), |maps|, notes);
    }
  }

  /** The first program header names the notes. */
  predicate NoteReads(info: Info, file: seq<byte>, n: nat, notes: seq<byte>) {
    var p := NotePhdr(HeaderSize(info, n), info.noteSize);
    && p.offset + p.filesz <= |file| && file[p.offset..p.offset + p.filesz] == notes
    && (PhdrAt(file, info, 0) == Some(p) <==> Fits(p, info.elf.fields))
  }

  lemma {:induction false} NoteIsRead(info: Info, ehdr: seq<byte>, ps: seq<Phdr>, rest: seq<byte>, head: seq<byte>,
                                      body: seq<byte>,
                                      n: nat, notes: seq<byte>)
    requires InfoOk(info) && |ehdr| == info.elf.ehdr && ps != [] && ps[0] == NotePhdr(|head|, info.noteSize) &&
             |notes| == info.noteSize
    requires head == ehdr + Table(ps, info.encode) + rest && |head| == HeaderSize(info, n)
    requires |rest| >= |notes| && rest[|rest| - |notes|..] == notes
    ensures NoteReads(info, head + body, n, notes)
  {
    var front := ehdr + Table(ps, info.encode);
    Regroup(front, rest, body);
    PhdrFound(ehdr, ps, rest + body, info, 0);
    InMiddle(front, rest, body, |rest| - |notes|, |rest|);
  }

  // ---------------------------------------------------------------------------------------------
  // A dump without paging, from the sections to the file
  // ---------------------------------------------------------------------------------------------

  /** A load has guest address `a`, and the file has this byte for it. */
  predicate HasByte(p: Phdr, file: seq<byte>, a: nat, b: byte) {
    p.paddr <= a < p.paddr + p.filesz && p.offset + (a - p.paddr) < |file| && file[p.offset + (a - p.paddr)] == b
  }

  predicate SomeHasByte(loads: seq<Phdr>, file: seq<byte>, a: nat, b: byte) {
    exists k :: 0 <= k < |loads| && HasByte(loads[k], file, a, b)
  }

  ghost predicate AllRead(mem: nat -> byte, f: Filter, blocks: seq<HostBlock>, info: Info, maps: seq<Mapping>,
                          file: seq<byte>, loads: seq<Phdr>)
  {
    |loads| == |maps| && forall k :: 0 <= k < |loads| ==>
        LoadReads(mem, f, blocks, info, maps[k], file, loads[k], k + 1)
  }

  lemma {:induction false} ByteIsIn(mem: nat -> byte, f: Filter, blocks: seq<HostBlock>, info: Info, base: nat,
                                    file: seq<byte>, loads: seq<Phdr>, a: nat)
    requires Ordered(blocks) && Stored(f, blocks, a)
    requires AllLoads(f, blocks, base, PlainMaps(f, blocks), loads)
    requires AllRead(mem, f, blocks, info, PlainMaps(f, blocks), file, loads)
    ensures SomeHasByte(loads, file, a, mem(HostAt(blocks, a).value))
  {
    var k := PlainHas(f, blocks, a);
    var p, m := loads[k], PlainMaps(f, blocks)[k];
    assert LoadReads(mem, f, blocks, info, m, file, p, k + 1);
    PlainInFull(f, blocks, base, k, p.offset, p.filesz);
    assert ByteReads(mem, f, blocks, file, p, a - p.paddr);
    assert HasByte(p, file, a, mem(HostAt(blocks, a).value));
  }

  ghost predicate OnlyRam(sections: seq<Section>, f: Filter, p: Phdr) {
    forall a: nat :: p.paddr <= a < p.paddr + p.filesz ==> Passes(f, a) && RamAt(sections, a).Some?
  }

  lemma {:induction false} LoadIsRam(mem: nat -> byte, sections: seq<Section>, f: Filter, info: Info, m: Mapping,
                                     file: seq<byte>, p: Phdr, k: nat)
    requires Ascending(sections) && LoadReads(mem, f, Built(sections), info, m, file, p, k)
    ensures OnlyRam(sections, f, p)
  {
    forall a: nat | p.paddr <= a < p.paddr + p.filesz
      ensures Passes(f, a) && RamAt(sections, a).Some?
    {
      assert ByteReads(mem, f, Built(sections), file, p, a - p.paddr);
      BuiltAt(sections, a);
    }
  }

  lemma {:induction false} LoadsApart(f: Filter, blocks: seq<HostBlock>, base: nat, loads: seq<Phdr>, j: nat, k: nat)
    requires Ordered(blocks) && AllLoads(f, blocks, base, PlainMaps(f, blocks), loads) && j < k < |loads|
    ensures loads[j].filesz == loads[j].memsz && loads[j].paddr + loads[j].memsz <= loads[k].paddr
  {
    assert LoadFor(f, blocks, base, PlainMaps(f, blocks)[j], loads[j]);
    assert LoadFor(f, blocks, base, PlainMaps(f, blocks)[k], loads[k]);
    PlainInFull(f, blocks, base, j, loads[j].offset, loads[j].filesz);
    PlainOnce(f, blocks, j, k);
  }

  /** dump_init for an ELF dump without paging, and create_vmcore: every byte of guest RAM that the filter passes
      can be read from the file through exactly one load, and the loads cover nothing else. */
  method DumpGuestMemory(mem: nat -> byte, sections: seq<Section>, filter: Filter, info: Info,
                         ehdr: seq<byte>, shdr: seq<byte>, notes: seq<byte>, room: nat)
    returns (ok: bool, file: seq<byte>, total: nat, ghost loads: seq<Phdr>)
    requires Ascending(sections) && |Built(sections)| < UINT32_MAX && (filter.Whole? ==> Built(sections) != [])
    requires InfoOk(info) && |ehdr| == info.elf.ehdr && |shdr| == info.elf.shdr && |notes| == info.noteSize
    ensures !ok ==> |file| == room || forall a: nat :: RamAt(sections, a).Some? ==> !Passes(filter, a)
    ensures ok ==> |file| == HeaderSize(info, |loads|) + total && NoteReads(info, file, |loads|, notes)
    ensures ok ==> forall a: nat :: RamAt(sections, a).Some? && Passes(filter, a) ==>
              SomeHasByte(loads, file, a, mem(RamAt(sections, a).value))
    ensures ok ==> forall k :: 0 <= k < |loads| ==> OnlyRam(sections, filter, loads[k])
    ensures ok ==> forall k :: 0 <= k < |loads| ==>
              (PhdrAt(file, info, k + 1) == Some(loads[k]) <==> Fits(loads[k], info.elf.fields))
    ensures ok ==> forall j, k :: 0 <= j < k < |loads| ==> loads[j].paddr + loads[j].memsz <= loads[k].paddr
  {
    var list := new GuestPhysBlockList();
    list.Append(sections);
    var blocks := list.blocks;
    var maps := MapPlain(filter, blocks);
    PlainCount(filter, blocks);
    var s := new DumpState(mem, blocks, filter, info, maps, room);
    file, loads := [], [];
    total := s.CalculateSize();
    var from := s.GetStartBlock();
    if from == -1 {
      forall a: nat | RamAt(sections, a).Some?
        ensures !Passes(filter, a)
      {
        NothingSelected(filter, sections, a);
      }
      ok := false;
      return;
    }
    s.start := from;
    s.Layout();
    ok, loads := s.CreateVmcore(ehdr, shdr, notes);
    file := s.file;
    if ok {
      PlainDumped(mem, sections, filter, info, HeaderSize(info, |maps|), file, loads);
    }
  }

  lemma {:induction false} NothingSelected(f: Filter, sections: seq<Section>, a: nat)
    requires Ascending(sections) && RamAt(sections, a).Some?
    requires forall i :: 0 <= i < |Built(sections)| ==> !Selected(f, Built(sections)[i])
    ensures !Passes(f, a)
  {
    BuiltAt(sections, a);
    var k := CoverAt(Built(sections), a);
  }

  /** The mapping list of dump_init. */
  method MapPlain(filter: Filter, blocks: seq<HostBlock>) returns (maps: seq<Mapping>)
    requires Ordered(blocks)
    ensures maps == PlainMaps(filter, blocks)
  {
    var list := new MemoryMappingList();
    list.AddSimple(blocks);
    if filter.Range? {
      list.Filter(filter.begin, filter.length);
    }
    maps := list.maps;
  }

  lemma {:induction false} PlainCount(f: Filter, blocks: seq<HostBlock>)
    requires Ordered(blocks)
    ensures |PlainMaps(f, blocks)| <= |blocks|
    decreases |blocks|
  {
    if blocks != [] {
      PlainNext(f, blocks);
      PlainCount(f, blocks[..|blocks| - 1]);
    }
  }

  lemma {:induction false} PlainDumped(mem: nat -> byte, sections: seq<Section>, f: Filter, info: Info, base: nat,
                                       file: seq<byte>, loads: seq<Phdr>)
    requires Ascending(sections) && Ordered(Built(sections))
    requires AllLoads(f, Built(sections), base, PlainMaps(f, Built(sections)), loads)
    requires AllRead(mem, f, Built(sections), info, PlainMaps(f, Built(sections)), file, loads)
    ensures forall a: nat :: RamAt(sections, a).Some? && Passes(f, a) ==>
              SomeHasByte(loads, file, a, mem(RamAt(sections, a).value))
    ensures forall k :: 0 <= k < |loads| ==> OnlyRam(sections, f, loads[k])
    ensures forall k :: 0 <= k < |loads| ==>
              (PhdrAt(file, info, k + 1) == Some(loads[k]) <==> Fits(loads[k], info.elf.fields))
    ensures forall j, k :: 0 <= j < k < |loads| ==> loads[j].paddr + loads[j].memsz <= loads[k].paddr
  {
    var blocks := Built(sections);
    var maps := PlainMaps(f, blocks);
    forall a: nat | RamAt(sections, a).Some? && Passes(f, a)
      ensures SomeHasByte(loads, file, a, mem(RamAt(sections, a).value))
    {
      BuiltAt(sections, a);
      ByteIsIn(mem, f, blocks, info, base, file, loads, a);
    }
    forall k | 0 <= k < |loads|
      ensures OnlyRam(sections, f, loads[k]) &&
              (PhdrAt(file, info, k + 1) == Some(loads[k]) <==> Fits(loads[k], info.elf.fields))
    {
      assert LoadReads(mem, f, blocks, info, maps[k], file, loads[k], k + 1);
      LoadIsRam(mem, sections, f, info, maps[k], file, loads[k], k + 1);
    }
    forall j, k | 0 <= j < k < |loads|
      ensures loads[j].paddr + loads[j].memsz <= loads[k].paddr
    {
      LoadsApart(f, blocks, base, loads, j, k);
    }
  }
}
