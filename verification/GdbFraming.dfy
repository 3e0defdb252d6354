/** Packet framing of the GDB remote serial protocol in gdbstub.c: the encoder put_packet_binary, the
    escaping memtox, the hex coding memtohex and hextomem, and the decoder automaton gdb_read_byte. */
module GdbFraming {
  type byte = x: int | 0 <= x < 256

  const MAX_PACKET_LENGTH: nat := 4096
  const DOLLAR: byte := 0x24
  const HASH: byte := 0x23
  const STAR: byte := 0x2a
  const BRACE: byte := 0x7d
  const PLUS: byte := 0x2b
  const MINUS: byte := 0x2d

  // ---------------------------------------------------------------------------------------------
  // Hex digits
  // ---------------------------------------------------------------------------------------------

  /** fromhex; anything that is not a digit counts as zero. */
  function FromHex(v: byte): (r: nat)
    ensures r < 16
  {
    if 0x30 <= v <= 0x39 then v - 0x30
    else if 0x41 <= v <= 0x46 then v - 0x41 + 10
    else if 0x61 <= v <= 0x66 then v - 0x61 + 10
    else 0
  }

  function ToHex(v: nat): (r: byte)
    requires v < 16
    ensures FromHex(r) == v && r != HASH && r != DOLLAR
  {
    if v < 10 then v + 0x30 else v - 10 + 0x61
  }

  function HexOf(mem: seq<byte>): (r: seq<byte>)
    ensures |r| == 2 * |mem|
  {
    if mem == [] then []
    else HexOf(mem[..|mem| - 1]) + [ToHex(mem[|mem| - 1] / 16), ToHex(mem[|mem| - 1] % 16)]
  }

  lemma {:induction false} HexAt(mem: seq<byte>, k: nat)
    requires k < |mem|
    ensures 16 * FromHex(HexOf(mem)[2 * k]) + FromHex(HexOf(mem)[2 * k + 1]) == mem[k]
  {
    if k < |mem| - 1 {
      HexAt(mem[..|mem| - 1], k);
    }
  }

  /** memtohex.  The closing zero stands behind the digits, and so outside the buffer if they fill it. */
  method MemToHex(buf: array<byte>, mem: seq<byte>) returns (closed: bool)
    requires 2 * |mem| <= buf.Length
    modifies buf
    ensures buf[..2 * |mem|] == HexOf(mem) && closed == (2 * |mem| < buf.Length) && (closed ==> buf[2 * |mem|] == 0)
    ensures closed ==> buf[2 * |mem| + 1..] == old(buf[2 * |mem| + 1..])
  {
    for i := 0 to |mem|
      invariant buf[..2 * i] == HexOf(mem[..i]) && buf[2 * |mem|..] == old(buf[2 * |mem|..])
    {
      var c := mem[i];
      buf[2 * i] := ToHex(c / 16);
      buf[2 * i + 1] := ToHex(c % 16);
      assert mem[..i + 1][..i] == mem[..i];
      assert buf[..2 * (i + 1)] == buf[..2 * i] + [ToHex(c / 16), ToHex(c % 16)];
    }
    assert mem[..|mem|] == mem;
    closed := 2 * |mem| < buf.Length;
    if closed {
      ghost var rest := buf[2 * |mem| + 1..];
      assert rest == old(buf[2 * |mem|..])[1..];
      buf[2 * |mem|] := 0;
    }
  }

  /** The answer to an 'm' packet: every length that its guard lets through gives all digits, and the closing
      zero is inside the buffer for every such length but the largest. */
  method ReadMemory(mem: seq<byte>) returns (refused: bool, buf: array<byte>, closed: bool)
    ensures refused <==> |mem| > MAX_PACKET_LENGTH / 2
    ensures !refused ==> buf.Length == MAX_PACKET_LENGTH && buf[..2 * |mem|] == HexOf(mem)
    ensures !refused ==> (closed <==> |mem| < MAX_PACKET_LENGTH / 2)
  {
    buf := new byte[MAX_PACKET_LENGTH](_ => 0);
    refused, closed := |mem| > MAX_PACKET_LENGTH / 2, false;
    if !refused {
      closed := MemToHex(buf, mem);
    }
  }

  /** hextomem undoes memtohex. */
  method HexToMem(mem: array<byte>, buf: seq<byte>, len: nat)
    requires len <= mem.Length && 2 * len <= |buf|
    modifies mem
    ensures forall k :: 0 <= k < len ==> mem[k] == 16 * FromHex(buf[2 * k]) + FromHex(buf[2 * k + 1])
    ensures forall m: seq<byte> :: |m| == len && buf[..2 * len] == HexOf(m) ==> mem[..len] == m
    ensures mem[len..] == old(mem[len..])
  {
    for i := 0 to len
      invariant forall k :: 0 <= k < i ==> mem[k] == 16 * FromHex(buf[2 * k]) + FromHex(buf[2 * k + 1])
      invariant mem[len..] == old(mem[len..])
    {
      mem[i] := 16 * FromHex(buf[2 * i]) + FromHex(buf[2 * i + 1]);
    }
    forall m: seq<byte> | |m| == len && buf[..2 * len] == HexOf(m)
      ensures mem[..len] == m
    {
      forall k | 0 <= k < len
        ensures mem[k] == m[k]
      {
        HexAt(m, k);
      }
    }
  }

  // ---------------------------------------------------------------------------------------------
  // Escaping for 'x' packets
  // ---------------------------------------------------------------------------------------------

  /** c ^ 0x20 */
  function Flip(c: byte): (r: byte)
    ensures r != c && (c / 32 % 2 == 1 ==> r == c - 32) && (c / 32 % 2 == 0 ==> r == c + 32)
  {
    if c / 32 % 2 == 1 then c - 32 else c + 32
  }

  lemma {:induction false} FlipFlip(c: byte)
    ensures Flip(Flip(c)) == c
  {
  }

  predicate Special(c: byte) {
    c == HASH || c == DOLLAR || c == STAR || c == BRACE
  }

  function Escape(mem: seq<byte>): seq<byte> {
    if mem == [] then []
    else Escape(mem[..|mem| - 1]) + if Special(mem[|mem| - 1]) then [BRACE, Flip(mem[|mem| - 1])] else [mem[|mem| - 1]]
  }

  /** What the receiver does with an escaped payload. */
  function Unescape(s: seq<byte>): seq<byte> {
    if s == [] then []
    else if s[0] == BRACE && |s| > 1 then [Flip(s[1])] + Unescape(s[2..])
    else [s[0]] + Unescape(s[1..])
  }

  /** memtox */
  method MemToX(buf: array<byte>, mem: seq<byte>) returns (n: nat)
    requires 2 * |mem| <= buf.Length
    modifies buf
    ensures n <= 2 * |mem| && buf[..n] == Escape(mem) && buf[n..] == old(buf[n..])
  {
    n := 0;
    for i := 0 to |mem|
      invariant n <= 2 * i && buf[..n] == Escape(mem[..i]) && buf[n..] == old(buf[n..])
    {
      var c := mem[i];
      ghost var done := buf[..n];
      assert mem[..i + 1][..i] == mem[..i];
      if Special(c) {
        buf[n] := BRACE;
        buf[n + 1] := Flip(c);
        n := n + 2;
        assert buf[..n] == done + [BRACE, Flip(c)];
      } else {
        buf[n] := c;
        n := n + 1;
        assert buf[..n] == done + [c];
      }
    }
    assert mem[..|mem|] == mem;
  }

  /** Escaping one more byte, seen from the front. */
  lemma {:induction false} EscapeFront(mem: seq<byte>)
    requires mem != []
    ensures Escape(mem) == (if Special(mem[0]) then [BRACE, Flip(mem[0])] else [mem[0]]) + Escape(mem[1..])
  {
    if |mem| > 1 {
      var front := mem[..|mem| - 1];
      EscapeFront(front);
      assert front[1..] == mem[1..][..|mem| - 2];
    }
  }

  /** Unescaping undoes escaping, and no framing byte is left in an escaped payload. */
  lemma {:induction false} EscapeRoundTrip(mem: seq<byte>)
    ensures Unescape(Escape(mem)) == mem
    ensures HASH !in Escape(mem) && DOLLAR !in Escape(mem) && STAR !in Escape(mem)
  {
    if mem != [] {
      EscapeFront(mem);
      EscapeRoundTrip(mem[1..]);
      var e, rest := Escape(mem), Escape(mem[1..]);
      if Special(mem[0]) {
        FlipFlip(mem[0]);
        assert e[0] == BRACE && e[1] == Flip(mem[0]) && e[2..] == rest;
      } else {
        assert e[0] == mem[0] && e[1..] == rest;
      }
      assert mem == [mem[0]] + mem[1..];
    }
  }

  // ---------------------------------------------------------------------------------------------
  // Frames
  // ---------------------------------------------------------------------------------------------

  function Sum(s: seq<byte>): nat {
    if s == [] then 0 else Sum(s[..|s| - 1]) + s[|s| - 1]
  }

  /** A byte as the source's signed char. */
  function Signed(c: byte): int {
    if c < 128 then c else c - 256
  }

  /** The checksum digits. */
  function Digits(p: seq<byte>): (r: seq<byte>)
    ensures |r| == 2
  {
    [ToHex(Sum(p) / 16 % 16), ToHex(Sum(p) % 16)]
  }

  function Frame(p: seq<byte>): (r: seq<byte>)
    ensures |r| == |p| + 4
  {
    [DOLLAR] + p + [HASH] + Digits(p)
  }

  /** The value of two hex digits. */
  function Value(h: byte, l: byte): nat {
    16 * FromHex(h) + FromHex(l)
  }

  lemma {:induction false} DigitsValue(p: seq<byte>)
    ensures Value(Digits(p)[0], Digits(p)[1]) == Sum(p) % 256
  {
    var x := Sum(p);
    HexValue(x / 16 % 16);
    HexValue(x % 16);
    TwoDigits(x);
  }

  lemma {:induction false} HexValue(v: nat)
    requires v < 16
    ensures FromHex(ToHex(v)) == v
  {
  }

  lemma {:induction false} TwoDigits(x: nat)
    ensures 16 * (x / 16 % 16) + x % 16 == x % 256
  {
    var q := x / 16;
    By256(x, q / 16, 16 * (q % 16) + x % 16);
  }

  /** Summing signed characters gives the same low eight bits. */
  method Checksum(s: seq<byte>) returns (csum: int)
    ensures csum % 256 == Sum(s) % 256 && csum / 16 % 16 == Sum(s) / 16 % 16 && csum % 16 == Sum(s) % 16
  {
    csum := 0;
    ghost var wraps := 0;
    for i := 0 to |s|
      invariant csum == Sum(s[..i]) - 256 * wraps
    {
      assert s[..i + 1][..i] == s[..i];
      csum := csum + Signed(s[i]);
      if s[i] >= 128 {
        wraps := wraps + 1;
      }
    }
    assert s[..|s|] == s;
    SameLowBits(Sum(s), wraps);
  }

  lemma {:induction false} SameLowBits(x: int, k: int)
    ensures (x - 256 * k) % 256 == x % 256 && (x - 256 * k) / 16 % 16 == x / 16 % 16 && (x - 256 * k) % 16 == x % 16
  {
    var c, q, r := x / 256, x / 16, x % 16;
    By256(x - 256 * k, c - k, x % 256);
    By16(x - 256 * k, q - 16 * k, r);
    By16(q - 16 * k, q / 16 - k, q % 16);
  }

  lemma {:induction false} By16(x: int, q: int, r: int)
    requires x == 16 * q + r && 0 <= r < 16
    ensures x / 16 == q && x % 16 == r
  {
  }

  lemma {:induction false} By256(x: int, q: int, r: int)
    requires x == 256 * q + r && 0 <= r < 256
    ensures x % 256 == r
  {
  }

  // ---------------------------------------------------------------------------------------------
  // The decoder automaton
  // ---------------------------------------------------------------------------------------------

  datatype RsState = Idle | GetLine | ChkSum1 | ChkSum2

  /** The parsing state: `line` is line_buf up to line_buf_index. */
  datatype Parser = Parser(state: RsState, line: seq<byte>, csum: nat)

  datatype Event = Quiet | Nack | Deliver(packet: seq<byte>)

  function Step(d: Parser, ch: byte): Parser {
    match d.state
    case Idle => if ch == DOLLAR then Parser(GetLine, [], d.csum) else d
    case GetLine =>
      if ch == HASH then d.(state := ChkSum1)
      else if |d.line| >= MAX_PACKET_LENGTH - 1 then d.(state := Idle)
      else d.(line := d.line + [ch])
    case ChkSum1 => d.(state := ChkSum2, csum := 16 * FromHex(ch))
    case ChkSum2 => d.(state := Idle, csum := d.csum + FromHex(ch))
  }

  function Emit(d: Parser, ch: byte): Event {
    if d.state != ChkSum2 then Quiet
    else if d.csum + FromHex(ch) == Sum(d.line) % 256 then Deliver(d.line)
    else Nack
  }

  function Run(d: Parser, s: seq<byte>): Parser {
    if s == [] then d else Step(Run(d, s[..|s| - 1]), s[|s| - 1])
  }

  /** The packets delivered and the packets refused. */
  function Delivered(d: Parser, s: seq<byte>): seq<seq<byte>> {
    if s == [] then [] else Delivered(d, s[..|s| - 1]) + Packets(Emit(Run(d, s[..|s| - 1]), s[|s| - 1]))
  }

  function Packets(e: Event): seq<seq<byte>> {
    if e.Deliver? then [e.packet] else []
  }

  function Nacks(d: Parser, s: seq<byte>): nat {
    if s == [] then 0
    else Nacks(d, s[..|s| - 1]) + if Emit(Run(d, s[..|s| - 1]), s[|s| - 1]).Nack? then 1 else 0
  }

  /** A line as gdb_handle_packet gets it: a string that ends at its first zero byte. */
  function Text(line: seq<byte>): (r: seq<byte>)
    ensures r <= line && 0 !in r && (|r| < |line| ==> line[|r|] == 0)
  {
    if line == [] || line[0] == 0 then [] else [line[0]] + Text(line[1..])
  }

  function Texts(lines: seq<seq<byte>>): (r: seq<seq<byte>>)
    ensures |r| == |lines|
  {
    seq(|lines|, i requires 0 <= i < |lines| => Text(lines[i]))
  }

  lemma {:induction false} TextsJoin(a: seq<seq<byte>>, b: seq<seq<byte>>)
    ensures Texts(a + b) == Texts(a) + Texts(b)
  {
  }

  lemma {:induction false} TextIs(line: seq<byte>, n: nat)
    requires n <= |line| && 0 !in line[..n] && (n < |line| ==> line[n] == 0)
    ensures Text(line) == line[..n]
  {
    var t := Text(line);
    assert t == line[..|t|];
  }

  lemma {:induction false} TextWhole(line: seq<byte>)
    ensures Text(line) == line <==> 0 !in line
  {
  }

  /** What the packet handler is given. */
  function Handed(d: Parser, s: seq<byte>): seq<seq<byte>> {
    Texts(Delivered(d, s))
  }

  lemma {:induction false} RunNext(d: Parser, s: seq<byte>, ch: byte)
    ensures Run(d, s + [ch]) == Step(Run(d, s), ch)
    ensures Delivered(d, s + [ch]) == Delivered(d, s) + Packets(Emit(Run(d, s), ch))
    ensures Nacks(d, s + [ch]) == Nacks(d, s) + if Emit(Run(d, s), ch).Nack? then 1 else 0
  {
    assert (s + [ch])[..|s|] == s;
  }

  lemma {:induction false} LineByte(d: Parser, ch: byte)
    requires d.state == GetLine && ch != HASH && |d.line| < MAX_PACKET_LENGTH - 1
    ensures Step(d, ch) == d.(line := d.line + [ch]) && Emit(d, ch) == Quiet
  {
  }

  lemma {:induction false} Rejoin(a: seq<seq<byte>>, b: seq<seq<byte>>, c: seq<seq<byte>>)
    ensures a + b + c == a + (b + c)
  {
  }

  /** Reading a line: as long as it fits, its bytes are collected. */
  lemma {:induction false} RunLine(d: Parser, p: seq<byte>)
    requires d.state == Idle && HASH !in p && |p| < MAX_PACKET_LENGTH
    ensures Run(d, [DOLLAR] + p) == Parser(GetLine, p, d.csum)
    ensures Delivered(d, [DOLLAR] + p) == [] && Nacks(d, [DOLLAR] + p) == 0
  {
    if p == [] {
      assert [DOLLAR] + p == p + [DOLLAR];
      RunNext(d, p, DOLLAR);
    } else {
      var front, ch := p[..|p| - 1], p[|p| - 1];
      var s := [DOLLAR] + front;
      RunLine(d, front);
      assert [DOLLAR] + p == s + [ch];
      RunNext(d, s, ch);
      LineByte(Run(d, s), ch);
    }
  }

  /** What becomes of a line of payload `p` closed with digits `h` and `l`. */
  lemma {:induction false} RunFrame(d: Parser, p: seq<byte>, h: byte, l: byte)
    requires d.state == Idle && HASH !in p && |p| < MAX_PACKET_LENGTH
    ensures var s := [DOLLAR] + p + [HASH] + [h, l];
      && Run(d, s).state == Idle
      && Delivered(d, s) == (if Value(h, l) == Sum(p) % 256 then [p] else [])
      && Nacks(d, s) == (if Value(h, l) == Sum(p) % 256 then 0 else 1)
  {
    var s0 := [DOLLAR] + p;
    RunLine(d, p);
    RunNext(d, s0, HASH);
    RunNext(d, s0 + [HASH], h);
    RunNext(d, s0 + [HASH] + [h], l);
    assert [DOLLAR] + p + [HASH] + [h, l] == s0 + [HASH] + [h] + [l];
  }

  /** The decoder never delivers a line that is too long or contains the end mark. */
  lemma {:induction false} LinesAreShort(d: Parser, s: seq<byte>)
    requires d.state == Idle
    ensures var r := Run(d, s); r.state != Idle ==> HASH !in r.line && |r.line| < MAX_PACKET_LENGTH
    ensures forall i :: 0 <= i < |Delivered(d, s)| ==>
              HASH !in Delivered(d, s)[i] && |Delivered(d, s)[i]| < MAX_PACKET_LENGTH
  {
    if s != [] {
      LinesAreShort(d, s[..|s| - 1]);
    }
  }

  /** Framing round trip, exactly: a framed payload is delivered if and only if it fits the line
      buffer and has no end mark in it.  put_packet_binary itself has room for one byte more. */
  lemma {:induction false} FrameRoundTrip(d: Parser, p: seq<byte>)
    requires d.state == Idle
    ensures Delivered(d, Frame(p)) == [p] <==> |p| < MAX_PACKET_LENGTH && HASH !in p
    ensures |p| < MAX_PACKET_LENGTH && HASH !in p ==> Run(d, Frame(p)).state == Idle && Nacks(d, Frame(p)) == 0
  {
    if |p| < MAX_PACKET_LENGTH && HASH !in p {
      DigitsValue(p);
      RunFrame(d, p, Digits(p)[0], Digits(p)[1]);
      assert Frame(p) == [DOLLAR] + p + [HASH] + [Digits(p)[0], Digits(p)[1]];
    } else {
      LinesAreShort(d, Frame(p));
      assert Delivered(d, Frame(p)) == [p] ==> Delivered(d, Frame(p))[0] == p;
    }
  }

  /** The handler is given a framed payload whole if and only if, besides, it has no zero byte. */
  lemma {:induction false} HandedRoundTrip(d: Parser, p: seq<byte>)
    requires d.state == Idle
    ensures Handed(d, Frame(p)) == [p] <==> |p| < MAX_PACKET_LENGTH && HASH !in p && 0 !in p
    ensures |p| < MAX_PACKET_LENGTH && HASH !in p ==> Handed(d, Frame(p)) == [Text(p)]
  {
    FrameRoundTrip(d, p);
    TextWhole(p);
    if |p| < MAX_PACKET_LENGTH && HASH !in p {
      assert Texts([p]) == [Text(p)];
    } else if Handed(d, Frame(p)) == [p] {
      HandedLine(d, p);
    }
  }

  /** A handed payload that is whole fits the line buffer: the line it was cut from stood in the frame. */
  lemma {:induction false} HandedLine(d: Parser, p: seq<byte>)
    requires d.state == Idle && Handed(d, Frame(p)) == [p]
    ensures |p| < MAX_PACKET_LENGTH && HASH !in p
  {
    LinesAreShort(d, Frame(p));
    assert Handed(d, Frame(p))[0] == p;
  }

  /** A zero byte inside a payload ends it for the handler. */
  lemma {:induction false} ZeroCuts(d: Parser)
    requires d.state == Idle
    ensures Delivered(d, Frame([0x41, 0, 0x42])) == [[0x41, 0, 0x42]] && Handed(d, Frame([0x41, 0, 0x42])) == [[0x41]]
  {
    var p := [0x41, 0, 0x42];
    FrameRoundTrip(d, p);
    HandedRoundTrip(d, p);
    assert p[..1] == [0x41];
    TextIs(p, 1);
  }

  lemma {:induction false} TextAfter(head: seq<byte>, rest: seq<byte>)
    requires 0 !in head
    ensures Text(head + rest) == head + Text(rest)
  {
    var n := |head| + |Text(rest)|;
    assert (head + rest)[..n] == head + rest[..|Text(rest)|];
    TextIs(head + rest, n);
  }

  lemma {:induction false} EscapePush(c: byte, rest: seq<byte>)
    ensures Escape([c] + rest) == (if Special(c) then [BRACE, Flip(c)] else [c]) + Escape(rest)
  {
    EscapeFront([c] + rest);
    assert ([c] + rest)[1..] == rest;
  }

  lemma {:induction false} FlipNotZero(c: byte)
    requires Special(c)
    ensures Flip(c) != 0
  {
  }

  /** Zero bytes are not escaped, and cutting at the first one commutes with escaping. */
  lemma {:induction false} TextEscapes(mem: seq<byte>)
    ensures Text(Escape(mem)) == Escape(Text(mem)) && (0 in Escape(mem) <==> 0 in mem)
  {
    if mem != [] {
      var c, rest := mem[0], mem[1..];
      assert mem == [c] + rest;
      TextEscapes(rest);
      EscapePush(c, rest);
      var h := if Special(c) then [BRACE, Flip(c)] else [c];
      if c == 0 {
        assert Escape(mem)[0] == 0;
      } else {
        if Special(c) {
          FlipNotZero(c);
        }
        TextAfter(h, Escape(rest));
        EscapePush(c, Text(rest));
      }
    }
  }

  /** Memory sent in an 'x' packet: it is accepted whole if its escaped form fits; the handler is given it up
      to its first zero byte, which is not escaped. */
  lemma {:induction false} BinaryRoundTrip(d: Parser, mem: seq<byte>)
    requires d.state == Idle
    ensures Delivered(d, Frame(Escape(mem))) == [Escape(mem)] <==> |Escape(mem)| < MAX_PACKET_LENGTH
    ensures Handed(d, Frame(Escape(mem))) == [Escape(mem)] <==> |Escape(mem)| < MAX_PACKET_LENGTH && 0 !in mem
    ensures |Escape(mem)| < MAX_PACKET_LENGTH ==> Handed(d, Frame(Escape(mem))) == [Escape(Text(mem))]
    ensures Unescape(Escape(mem)) == mem && Unescape(Escape(Text(mem))) == Text(mem)
  {
    EscapeRoundTrip(mem);
    EscapeRoundTrip(Text(mem));
    FrameRoundTrip(d, Escape(mem));
    HandedRoundTrip(d, Escape(mem));
    TextEscapes(mem);
  }

  /** A payload of 4096 bytes, which put_packet_binary accepts, is lost. */
  lemma {:induction false} FullPacketLost(d: Parser, p: seq<byte>)
    requires d.state == Idle && |p| == MAX_PACKET_LENGTH
    ensures Delivered(d, Frame(p)) != [p]
  {
    FrameRoundTrip(d, p);
  }

  // ---------------------------------------------------------------------------------------------
  // Damaged and unrelated input
  // ---------------------------------------------------------------------------------------------

  lemma {:induction false} SumUpdate(p: seq<byte>, i: nat, b: byte)
    requires i < |p|
    ensures Sum(p[i := b]) == Sum(p) - p[i] + b
  {
    var q := p[i := b];
    if i < |p| - 1 {
      SumUpdate(p[..|p| - 1], i, b);
      assert q[..|p| - 1] == p[..|p| - 1][i := b];
    } else {
      assert q[..|p| - 1] == p[..|p| - 1];
    }
  }

  /** Damage to one byte of a payload is detected, unless it makes an end mark of it. */
  lemma {:induction false} DamageIsDetected(d: Parser, p: seq<byte>, i: nat, b: byte)
    requires d.state == Idle && i < |p| < MAX_PACKET_LENGTH && HASH !in p && b != p[i] && b != HASH
    ensures var s := [DOLLAR] + p[i := b] + [HASH] + Digits(p); Delivered(d, s) == [] && Nacks(d, s) == 1
  {
    SumUpdate(p, i, b);
    DigitsValue(p);
    assert Sum(p[i := b]) % 256 != Sum(p) % 256;
    RunFrame(d, p[i := b], Digits(p)[0], Digits(p)[1]);
    assert Digits(p) == [Digits(p)[0], Digits(p)[1]];
  }

  /** Packet `p` is framed in `s` at position `at`, with the right checksum. */
  predicate Framed(s: seq<byte>, at: nat, p: seq<byte>) {
    && at + |p| + 4 <= |s| && s[at] == DOLLAR && s[at + 1..at + 1 + |p|] == p && s[at + 1 + |p|] == HASH
    && Value(s[at + 2 + |p|], s[at + 3 + |p|]) == Sum(p) % 256
  }

  /** What the automaton has read of the line it is in. */
  predicate Reading(s: seq<byte>, r: Parser) {
    var n := |r.line|;
    match r.state
    case Idle => true
    case GetLine => n < |s| && s[|s| - n - 1] == DOLLAR && s[|s| - n..] == r.line
    case ChkSum1 =>
      n + 1 < |s| && s[|s| - n - 2] == DOLLAR && s[|s| - n - 1..|s| - 1] == r.line && s[|s| - 1] == HASH
    case ChkSum2 =>
      && n + 2 < |s| && s[|s| - n - 3] == DOLLAR && s[|s| - n - 2..|s| - 2] == r.line && s[|s| - 2] == HASH
      && r.csum == 16 * FromHex(s[|s| - 1])
  }

  lemma {:induction false} ReadingNext(s: seq<byte>, r: Parser, ch: byte)
    requires Reading(s, r)
    ensures Reading(s + [ch], Step(r, ch))
    ensures Emit(r, ch).Deliver? ==> Framed(s + [ch], |s| - |r.line| - 3, r.line)
  {
  }

  predicate IsFramed(s: seq<byte>, p: seq<byte>) {
    exists at :: 0 <= at < |s| && Framed(s, at, p)
  }

  predicate AllFramed(s: seq<byte>, packets: seq<seq<byte>>) {
    forall i :: 0 <= i < |packets| ==> IsFramed(s, packets[i])
  }

  /** Whatever the input, every delivered packet stands in it with its frame and checksum. */
  lemma {:induction false} DeliveredWasFramed(d: Parser, s: seq<byte>)
    requires d.state == Idle
    ensures Reading(s, Run(d, s)) && AllFramed(s, Delivered(d, s))
  {
    if s == [] {
      assert Delivered(d, s) == [];
    } else {
      var front, ch := s[..|s| - 1], s[|s| - 1];
      var r := Run(d, front);
      DeliveredWasFramed(d, front);
      ReadingNext(front, r, ch);
      assert s == front + [ch];
      forall p | IsFramed(front, p)
        ensures IsFramed(s, p)
      {
        var at :| 0 <= at < |front| && Framed(front, at, p);
        StillFramed(front, ch, at, p);
      }
      assert Emit(r, ch).Deliver? ==> IsFramed(s, r.line);
    }
  }

  lemma {:induction false} StillFramed(s: seq<byte>, ch: byte, at: nat, p: seq<byte>)
    requires Framed(s, at, p)
    ensures Framed(s + [ch], at, p)
  {
  }

  // ---------------------------------------------------------------------------------------------
  // The stub
  // ---------------------------------------------------------------------------------------------

  function Reply(e: Event): seq<byte> {
    match e
    case Quiet => []
    case Nack => [MINUS]
    case Deliver(_) => [PLUS]
  }

  /** GDBState; `sent` is what put_buffer has written, `handled` what gdb_handle_packet was given. */
  class GdbState {
    var state: RsState
    const lineBuf: array<byte>
    var index: nat
    var csum: nat
    const lastPacket: array<byte>
    var lastPacketLen: nat
    var sent: seq<byte>
    var handled: seq<seq<byte>>

    ghost predicate Valid()
      reads this
    {
      && lineBuf.Length == MAX_PACKET_LENGTH && index < MAX_PACKET_LENGTH
      && lastPacket.Length == MAX_PACKET_LENGTH + 4 && lastPacketLen <= MAX_PACKET_LENGTH + 4
      && lineBuf != lastPacket && (state == ChkSum2 ==> csum % 16 == 0)
    }

    ghost function Abs(): Parser
      requires Valid()
      reads this, lineBuf
    {
      Parser(state, lineBuf[..index], csum)
    }

    constructor ()
      ensures Valid() && state == Idle && lastPacketLen == 0 && sent == [] && handled == []
    {
      state, index, csum, lastPacketLen := Idle, 0, 0, 0;
      sent, handled := [], [];
      lineBuf := new byte[MAX_PACKET_LENGTH](_ => 0);
      lastPacket := new byte[MAX_PACKET_LENGTH + 4](_ => 0);
    }

    /** put_packet_binary, as built for system emulation. */
    method PutPacketBinary(buf: seq<byte>)
      requires Valid() && |buf| <= MAX_PACKET_LENGTH
      modifies this`lastPacketLen, this`sent, lastPacket
      ensures Valid() && lastPacketLen == |buf| + 4
      ensures lastPacket[..lastPacketLen] == Frame(buf) && sent == old(sent) + Frame(buf)
    {
      lastPacket[0] := DOLLAR;
      forall i | 0 <= i < |buf| {
        lastPacket[1 + i] := buf[i];
      }
      var sum := Checksum(buf);
      lastPacket[|buf| + 1] := HASH;
      lastPacket[|buf| + 2] := ToHex(sum / 16 % 16);
      lastPacket[|buf| + 3] := ToHex(sum % 16);
      lastPacketLen := |buf| + 4;
      assert lastPacket[..lastPacketLen] == Frame(buf);
      sent := sent + lastPacket[..lastPacketLen];
    }

    /** gdb_read_byte.  `running` is runstate_is_running; `answer` is what the packet handler replies,
        if anything. */
    method ReadByte(ch: byte, running: bool, answer: seq<seq<byte>>) returns (stop: bool)
      requires Valid() && |answer| <= 1 && (answer != [] ==> |answer[0]| <= MAX_PACKET_LENGTH)
      modifies this, lineBuf, lastPacket
      ensures Valid()
      ensures old(lastPacketLen) > 0 && ch != DOLLAR ==>
                !stop && Abs() == old(Abs()) && handled == old(handled)
                && lastPacket[..] == old(lastPacket[..])
                && lastPacketLen == (if ch == PLUS then 0 else old(lastPacketLen))
                && sent == old(sent) + if ch == MINUS then old(lastPacket[..lastPacketLen]) else []
      ensures (old(lastPacketLen) == 0 || ch == DOLLAR) && running ==>
                stop && Abs() == old(Abs()) && handled == old(handled) && lastPacketLen == 0 && sent == old(sent)
      ensures var e := Emit(old(Abs()), ch);
        (old(lastPacketLen) == 0 || ch == DOLLAR) && !running ==>
          (!stop && Abs() == Step(old(Abs()), ch) && handled == old(handled) + Texts(Packets(e))
           && (if e.Deliver? && answer != []
               then sent == old(sent) + Reply(e) + Frame(answer[0]) && lastPacketLen == |answer[0]| + 4
               else sent == old(sent) + Reply(e) && lastPacketLen == 0))
    {
      stop := false;
      if lastPacketLen > 0 {
        if ch == MINUS {
          sent := sent + lastPacket[..lastPacketLen];
        }
        if ch == PLUS || ch == DOLLAR {
          lastPacketLen := 0;
        }
        if ch != DOLLAR {
          return;
        }
      }
      if running {
        stop := true;
        return;
      }
      Automaton(ch, answer);
    }

    /** The switch of gdb_read_byte. */
    method Automaton(ch: byte, answer: seq<seq<byte>>)
      requires Valid() && lastPacketLen == 0 && |answer| <= 1 && (answer != [] ==> |answer[0]| <= MAX_PACKET_LENGTH)
      modifies this, lineBuf, lastPacket
      ensures Valid()
      ensures var e := Emit(old(Abs()), ch);
        && Abs() == Step(old(Abs()), ch) && handled == old(handled) + Texts(Packets(e))
        && (if e.Deliver? && answer != []
            then sent == old(sent) + Reply(e) + Frame(answer[0]) && lastPacketLen == |answer[0]| + 4
            else sent == old(sent) + Reply(e) && lastPacketLen == 0)
    {
      match state {
        case Idle =>
          if ch == DOLLAR {
            index := 0;
            state := GetLine;
          }
        case GetLine =>
          if ch == HASH {
            state := ChkSum1;
          } else if index >= MAX_PACKET_LENGTH - 1 {
            state := Idle;
          } else {
            lineBuf[index] := ch;
            index := index + 1;
          }
        case ChkSum1 =>
          lineBuf[index] := 0;
          csum := 16 * FromHex(ch);
          state := ChkSum2;
        case ChkSum2 =>
          CheckLine(ch, answer);
      }
    }

    /** The last state: the line is delivered if the checksum is right. */
    method CheckLine(ch: byte, answer: seq<seq<byte>>)
      requires Valid() && lastPacketLen == 0 && |answer| <= 1 && (answer != [] ==> |answer[0]| <= MAX_PACKET_LENGTH)
      requires state == ChkSum2
      modifies this, lastPacket
      ensures Valid()
      ensures var e := Emit(old(Abs()), ch);
        && Abs() == Step(old(Abs()), ch) && handled == old(handled) + Texts(Packets(e))
        && (if e.Deliver? && answer != []
            then sent == old(sent) + Reply(e) + Frame(answer[0]) && lastPacketLen == |answer[0]| + 4
            else sent == old(sent) + Reply(e) && lastPacketLen == 0)
    {
      csum := csum + FromHex(ch);   // an or of disjoint bits
      var sum := Checksum(lineBuf[..index]);
      state := Idle;
      if csum != sum % 256 {
        sent := sent + [MINUS];
      } else {
        sent := sent + [PLUS];
        var text := CString(index);
        handled := handled + [text];
        if answer != [] {
          PutPacketBinary(answer[0]);
        }
      }
    }

    method ReceiveByte(ch: byte, ghost d: Parser, ghost s: seq<byte>, ghost before: seq<seq<byte>>)
      requires Valid() && (lastPacketLen == 0 || ch == DOLLAR)
      requires Abs() == Run(d, s) && handled == before + Handed(d, s)
      modifies this, lineBuf, lastPacket
      ensures Valid() && lastPacketLen == 0
      ensures Abs() == Run(d, s + [ch]) && handled == before + Handed(d, s + [ch])
    {
      RunNext(d, s, ch);
      TextsJoin(Delivered(d, s), Packets(Emit(Run(d, s), ch)));
      Rejoin(before, Handed(d, s), Texts(Packets(Emit(Run(d, s), ch))));
      ReadQuietly(ch);
    }

    method ReadQuietly(ch: byte)
      requires Valid() && (lastPacketLen == 0 || ch == DOLLAR)
      modifies this, lineBuf, lastPacket
      ensures Valid() && lastPacketLen == 0 && Abs() == Step(old(Abs()), ch)
      ensures handled == old(handled) + Texts(Packets(Emit(old(Abs()), ch)))
    {
      var stop := ReadByte(ch, false, []);
    }

    /** line_buf as gdb_handle_packet reads it. */
    method CString(len: nat) returns (text: seq<byte>)
      requires Valid() && len < MAX_PACKET_LENGTH
      ensures text == Text(lineBuf[..len])
    {
      var n := 0;
      while n < len && lineBuf[n] != 0
        invariant 0 <= n <= len && 0 !in lineBuf[..n]
      {
        n := n + 1;
      }
      text := lineBuf[..n];
      TextIs(lineBuf[..len], n);
    }

    /** Reading a stretch of input while the machine is stopped and the handler stays silent. */
    method Receive(s: seq<byte>)
      requires Valid() && (lastPacketLen == 0 || (s != [] && s[0] == DOLLAR))
      modifies this, lineBuf, lastPacket
      ensures Valid() && lastPacketLen == 0
      ensures Abs() == Run(old(Abs()), s) && handled == old(handled) + Handed(old(Abs()), s)
    {
      ghost var d := Abs();
      for i := 0 to |s|
        invariant Valid() && (lastPacketLen == 0 || (i == 0 && s != [] && s[0] == DOLLAR))
        invariant Abs() == Run(d, s[..i]) && handled == old(handled) + Handed(d, s[..i])
      {
        assert s[..i + 1] == s[..i] + [s[i]];
        ReceiveByte(s[i], d, s[..i], old(handled));
      }
      assert s[..|s|] == s;
    }
  }

  /** Two stubs: what one sends escaped and framed, the other handles up to the first zero byte; afterwards
      it is ready again. */
  method Transfer(from: GdbState, to: GdbState, mem: seq<byte>)
    requires from.Valid() && to.Valid() && to.state == Idle && |Escape(mem)| < MAX_PACKET_LENGTH
    requires from != to && from.lastPacket != to.lastPacket && from.lastPacket != to.lineBuf
    modifies from, from.lastPacket, to, to.lineBuf, to.lastPacket
    ensures to.Valid() && to.state == Idle
    ensures |to.handled| == |old(to.handled)| + 1 && to.handled[..|old(to.handled)|] == old(to.handled)
    ensures Unescape(to.handled[|old(to.handled)|]) == Text(mem)
    ensures Unescape(to.handled[|old(to.handled)|]) == mem <==> 0 !in mem
  {
    var buf := new byte[2 * |mem|](_ => 0);
    var n := MemToX(buf, mem);
    from.PutPacketBinary(buf[..n]);
    ghost var d := to.Abs();
    to.Receive(from.lastPacket[..from.lastPacketLen]);
    BinaryRoundTrip(d, mem);
    FrameRoundTrip(d, Escape(mem));
    EscapeRoundTrip(mem);
    TextWhole(mem);
  }
}
