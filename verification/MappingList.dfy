/** The list of memory mappings of an ELF vmcore (memory_mapping.c): one entry becomes one PT_LOAD. */
module MappingList {
  import opened FlatFile
  import opened GuestBlocks

  /** MemoryMapping */
  datatype Mapping = Mapping(phys: nat, virt: nat, length: nat)

  predicate Maps(m: Mapping, a: nat) {
    m.phys <= a < m.phys + m.length
  }

  predicate Sorted(maps: seq<Mapping>) {
    forall i, j :: 0 <= i < j < |maps| ==> maps[i].phys <= maps[j].phys
  }

  /** One mapping for each block, without a virtual address. */
  function Simple(blocks: seq<HostBlock>): (r: seq<Mapping>)
    requires Ordered(blocks)
    ensures |r| == |blocks|
  {
    seq(|blocks|, i requires 0 <= i < |blocks| => Mapping(blocks[i].start, 0, blocks[i].end - blocks[i].start))
  }

  // ---------------------------------------------------------------------------------------------
  // memory_mapping_filter
  // ---------------------------------------------------------------------------------------------

  predicate Outside(m: Mapping, begin: nat, length: nat) {
    m.phys >= begin + length || m.phys + m.length <= begin
  }

  function Clip(m: Mapping, begin: nat, length: nat): Mapping
    requires !Outside(m, begin, length)
  {
    var lo := if m.phys < begin then begin else m.phys;
    var hi := if m.phys + m.length > begin + length then begin + length else m.phys + m.length;
    Mapping(lo, if m.phys < begin && m.virt != 0 then m.virt + (begin - m.phys) else m.virt, hi - lo)
  }

  function Clipped(maps: seq<Mapping>, begin: nat, length: nat): seq<Mapping> {
    if maps == [] then []
    else
      var m := maps[|maps| - 1];
      Clipped(maps[..|maps| - 1], begin, length) + if Outside(m, begin, length) then [] else [Clip(m, begin, length)]
  }

  lemma {:induction false} ClippedNext(maps: seq<Mapping>, begin: nat, length: nat, n: nat)
    requires n < |maps|
    ensures Clipped(maps[..n + 1], begin, length) ==
              Clipped(maps[..n], begin, length) + if Outside(maps[n], begin, length) then []
                else [Clip(maps[n], begin, length)]
  {
    assert maps[..n + 1][..n] == maps[..n];
  }

  predicate Mapped(maps: seq<Mapping>, a: nat) {
    exists k :: 0 <= k < |maps| && Maps(maps[k], a)
  }

  /** The filter keeps the addresses that are in its range, and no others. */
  lemma {:induction false} ClippedMaps(maps: seq<Mapping>, begin: nat, length: nat, a: nat)
    ensures Mapped(Clipped(maps, begin, length), a) <==> Mapped(maps, a) && begin <= a < begin + length
    decreases |maps|
  {
    if maps != [] {
      var n, c := |maps| - 1, Clipped(maps, begin, length);
      var front := Clipped(maps[..n], begin, length);
      ClippedMaps(maps[..n], begin, length, a);
      MappedLast(maps, a);
      if Outside(maps[n], begin, length) {
        assert c == front;
      } else {
        assert c[..|c| - 1] == front;
        MappedLast(c, a);
      }
    }
  }

  lemma {:induction false} MappedLast(maps: seq<Mapping>, a: nat)
    requires maps != []
    ensures Mapped(maps, a) <==> Mapped(maps[..|maps| - 1], a) || Maps(maps[|maps| - 1], a)
  {
    var n := |maps| - 1;
    if Mapped(maps[..n], a) {
      var k :| 0 <= k < n && Maps(maps[..n][k], a);
      assert Maps(maps[k], a);
    }
    if Mapped(maps, a) {
      var k :| 0 <= k < |maps| && Maps(maps[k], a);
      assert k < n ==> Maps(maps[..n][k], a);
    }
  }

  /** The virtual address of `a` in a mapping. */
  function Virtual(m: Mapping, a: nat): int {
    m.virt + (a - m.phys)
  }

  /** An entry cut at its start keeps its translation unless its virtual address is 0, which stands for "none". */
  lemma {:induction false} ClipTranslation(m: Mapping, begin: nat, length: nat, a: nat)
    requires !Outside(m, begin, length)
    ensures Virtual(Clip(m, begin, length), a) == Virtual(m, a) <==> m.virt != 0 || begin <= m.phys
  {
  }

  /** The guest has physical page 1 at virtual address 0 and the dump starts at physical page 2: the entry says
      that page 2 is at virtual address 0, where the guest has it at 0x1000. */
  lemma {:induction false} ClipAtZero()
    ensures var m := Mapping(0x1000, 0, 0x2000);
            Clipped([m], 0x2000, 0x1000) == [Mapping(0x2000, 0, 0x1000)] && Virtual(m, 0x2000) == 0x1000
  {
    var maps := [Mapping(0x1000, 0, 0x2000)];
    assert maps[..0] == [];
  }

  class MemoryMappingList {
    var maps: seq<Mapping>

    /** memory_mapping_list_init */
    constructor ()
      ensures maps == []
    {
      maps := [];
    }

    /** create_new_memory_mapping with memory_mapping_list_add_mapping_sorted: before the first entry that does
        not start lower. */
    method Create(m: Mapping) returns (ghost k: nat)
      requires Sorted(maps)
      modifies this
      ensures k <= |old(maps)| && maps == old(maps)[..k] + [m] + old(maps)[k..] && Sorted(maps)
      ensures forall i :: 0 <= i < k ==> old(maps)[i].phys < m.phys
      ensures k < |old(maps)| ==> m.phys <= old(maps)[k].phys
    {
      var i := 0;
      while i < |maps| && maps[i].phys < m.phys
        invariant 0 <= i <= |maps| && forall j :: 0 <= j < i ==> maps[j].phys < m.phys
      {
        i := i + 1;
      }
      k := i;
      maps := maps[..i] + [m] + maps[i..];
    }

    /** qemu_get_guest_simple_memory_mapping */
    method AddSimple(blocks: seq<HostBlock>)
      requires maps == [] && Ordered(blocks)
      modifies this
      ensures maps == Simple(blocks)
    {
      var i := 0;
      while i < |blocks|
        invariant 0 <= i <= |blocks| && maps == Simple(blocks)[..i]
      {
        assert forall j :: 0 <= j < i ==> maps[j].phys < blocks[i].start;
        var k := Create(Mapping(blocks[i].start, 0, blocks[i].end - blocks[i].start));
        i := i + 1;
      }
    }

    /** memory_mapping_filter edits and unlinks entries as it walks. */
    method Filter(begin: nat, length: nat)
      modifies this
      ensures maps == Clipped(old(maps), begin, length)
    {
      ghost var all, done, front, rest := maps, 0, [], maps;
      var i := 0;
      while i < |maps|
        invariant 0 <= done <= |all| && front == Clipped(all[..done], begin, length) && rest == all[done..]
        invariant maps == front + rest && i == |front|
        decreases |maps| - i
      {
        ClippedNext(all, begin, length, done);
        var cur := maps[i];
        if cur.phys >= begin + length || cur.phys + cur.length <= begin {
          Unlinked(front, rest);
          maps := maps[..i] + maps[i + 1..];
        } else {
          cur := Edit(cur, begin, length);
          Replaced(front, rest, cur);
          maps := maps[i := cur];
          i := i + 1;
          front := front + [cur];
        }
        done, rest := done + 1, rest[1..];
      }
      assert all[..done] == all;
    }
  }

  lemma {:induction false} Unlinked(front: seq<Mapping>, rest: seq<Mapping>)
    requires rest != []
    ensures (front + rest)[..|front|] + (front + rest)[|front| + 1..] == front + rest[1..]
  {
  }

  lemma {:induction false} Replaced(front: seq<Mapping>, rest: seq<Mapping>, m: Mapping)
    requires rest != []
    ensures (front + rest)[|front| := m] == front + [m] + rest[1..]
  {
  }

  /** The edits that memory_mapping_filter makes to an entry it keeps. */
  method Edit(m: Mapping, begin: nat, length: nat) returns (cur: Mapping)
    requires !Outside(m, begin, length)
    ensures cur == Clip(m, begin, length)
    ensures forall a: nat :: Maps(cur, a) <==> Maps(m, a) && begin <= a < begin + length
  {
    cur := m;
    if cur.phys < begin {
      cur := cur.(length := cur.length - (begin - cur.phys));
      if cur.virt != 0 {
        cur := cur.(virt := cur.virt + (begin - cur.phys));
      }
      cur := cur.(phys := begin);
    }
    if cur.phys + cur.length > begin + length {
      cur := cur.(length := cur.length - (cur.phys + cur.length - begin - length));
    }
  }
}
