/** Numbers as they are stored in a vmcore: cpu_to_dump32 and cpu_to_dump64 in dump.c, and the copy of the
    word into the buffer. */
module DumpWords {
  import opened FlatFile

  // ---------------------------------------------------------------------------------------------
  // Bytes as numbers, bit by bit
  // ---------------------------------------------------------------------------------------------

  function Pack(a: bool, b: bool, c: bool, d: bool, e: bool, f: bool, g: bool, h: bool): byte {
    (if a then 1 else 0) | (if b then 2 else 0) | (if c then 4 else 0) | (if d then 8 else 0)
    | (if e then 16 else 0) | (if f then 32 else 0) | (if g then 64 else 0) | (if h then 128 else 0)
  }

  function One(b: bool): nat {
    if b then 1 else 0
  }

  function Quad(a: bool, b: bool, c: bool, d: bool): (r: nat)
    ensures r < 16
  {
    One(a) + 2 * One(b) + 4 * One(c) + 8 * One(d)
  }

  function Weigh(a: bool, b: bool, c: bool, d: bool, e: bool, f: bool, g: bool, h: bool): (r: nat)
    ensures r < 256
  {
    Quad(a, b, c, d) + 16 * Quad(e, f, g, h)
  }

  function Val(x: byte): (r: nat)
    ensures r < 256
  {
    Weigh(x & 1 != 0, x & 2 != 0, x & 4 != 0, x & 8 != 0, x & 16 != 0, x & 32 != 0, x & 64 != 0, x & 128 != 0)
  }

  lemma {:induction false} PackVal(a: bool, b: bool, c: bool, d: bool, e: bool, f: bool, g: bool, h: bool)
    returns (x: byte)
    ensures Val(x) == Weigh(a, b, c, d, e, f, g, h)
  {
    x := Pack(a, b, c, d, e, f, g, h);
    assert (x & 1 != 0) == a && (x & 2 != 0) == b && (x & 4 != 0) == c && (x & 8 != 0) == d;
    assert (x & 16 != 0) == e && (x & 32 != 0) == f && (x & 64 != 0) == g && (x & 128 != 0) == h;
  }

  predicate Odd(n: nat) {
    n % 2 == 1
  }

  lemma {:induction false} Halved(n: nat)
    ensures n == 2 * (n / 2) + One(Odd(n))
  {
  }

  lemma {:induction false} Quarters(n: nat, n1: nat, n2: nat, n3: nat)
    requires n1 == n / 2 && n2 == n1 / 2 && n3 == n2 / 2
    ensures n == Quad(Odd(n), Odd(n1), Odd(n2), Odd(n3)) + 16 * (n3 / 2)
  {
    Halved(n);
    Halved(n1);
    Halved(n2);
    Halved(n3);
  }

  lemma {:induction false} Eighths(n: nat, n1: nat, n2: nat, n3: nat, n4: nat, n5: nat, n6: nat, n7: nat)
    requires n < 256 && n1 == n / 2 && n2 == n1 / 2 && n3 == n2 / 2 && n4 == n3 / 2 && n5 == n4 / 2 && n6 == n5 / 2 &&
             n7 == n6 / 2
    ensures Weigh(Odd(n), Odd(n1), Odd(n2), Odd(n3), Odd(n4), Odd(n5), Odd(n6), Odd(n7)) == n
  {
    Quarters(n, n1, n2, n3);
    Quarters(n4, n5, n6, n7);
  }

  lemma {:induction false} ByteOf(n: nat) returns (b: byte)
    requires n < 256
    ensures Val(b) == n
  {
    var n1 := n / 2;
    var n2 := n1 / 2;
    var n3 := n2 / 2;
    var n4 := n3 / 2;
    var n5 := n4 / 2;
    var n6 := n5 / 2;
    var n7 := n6 / 2;
    Eighths(n, n1, n2, n3, n4, n5, n6, n7);
    b := PackVal(Odd(n), Odd(n1), Odd(n2), Odd(n3), Odd(n4), Odd(n5), Odd(n6), Odd(n7));
  }

  lemma {:induction false} QuadOnce(a: bool, b: bool, c: bool, d: bool, a': bool, b': bool, c': bool, d': bool)
    requires Quad(a, b, c, d) == Quad(a', b', c', d')
    ensures a == a' && b == b' && c == c' && d == d'
  {
  }

  lemma {:induction false} HalvesOnce(m: nat, n: nat, m': nat, n': nat)
    requires m < 16 && m' < 16 && m + 16 * n == m' + 16 * n'
    ensures m == m' && n == n'
  {
  }

  lemma {:induction false} ValOnce(x: byte, y: byte)
    requires Val(x) == Val(y)
    ensures x == y
  {
    HalvesOnce(Quad(x & 1 != 0, x & 2 != 0, x & 4 != 0, x & 8 != 0),
      Quad(x & 16 != 0, x & 32 != 0, x & 64 != 0, x & 128 != 0),
               Quad(y & 1 != 0, y & 2 != 0, y & 4 != 0, y & 8 != 0),
                 Quad(y & 16 != 0, y & 32 != 0, y & 64 != 0, y & 128 != 0));
    QuadOnce(x & 1 != 0, x & 2 != 0, x & 4 != 0, x & 8 != 0, y & 1 != 0, y & 2 != 0, y & 4 != 0, y & 8 != 0);
    QuadOnce(x & 16 != 0, x & 32 != 0, x & 64 != 0, x & 128 != 0, y & 16 != 0, y & 32 != 0, y & 64 != 0, y & 128 != 0);
  }

  lemma {:induction false} OneByte(n: nat)
    requires n < 256
    ensures exists b: byte :: Val(b) == n
    ensures forall b: byte, c: byte :: Val(b) == n && Val(c) == n ==> b == c
  {
    var w := ByteOf(n);
    forall b: byte, c: byte | Val(b) == n && Val(c) == n
      ensures b == c
    {
      ValOnce(b, c);
    }
  }

  /** The byte with the value of the low eight bits. */
  function Low(n: nat): (r: byte)
    ensures Val(r) == n % 256
  {
    OneByte(n % 256);
    var b: byte :| Val(b) == n % 256;
    b
  }

  // ---------------------------------------------------------------------------------------------
  // Words
  // ---------------------------------------------------------------------------------------------

  /** The low `len` bytes of a number, in the byte order of the dump. */
  function Enc(n: nat, len: nat, big: bool): (r: seq<byte>)
    ensures |r| == len
    decreases len
  {
    if len == 0 then []
    else if big then Enc(n / 256, len - 1, big) + [Low(n)]
    else [Low(n)] + Enc(n / 256, len - 1, big)
  }

  function Dec(s: seq<byte>, big: bool): nat {
    if s == [] then 0
    else if big then Val(s[|s| - 1]) + 256 * Dec(s[..|s| - 1], big)
    else Val(s[0]) + 256 * Dec(s[1..], big)
  }

  function Limit(len: nat): nat {
    if len == 0 then 1 else 256 * Limit(len - 1)
  }

  lemma {:induction false} EncDec(n: nat, len: nat, big: bool)
    requires n < Limit(len)
    ensures Dec(Enc(n, len, big), big) == n
    decreases len
  {
    if len > 0 {
      var s, rest := Enc(n, len, big), Enc(n / 256, len - 1, big);
      EncDec(n / 256, len - 1, big);
      if big {
        assert s == rest + [Low(n)] && s[..len - 1] == rest;
      } else {
        assert s == [Low(n)] + rest && s[1..] == rest;
      }
    }
  }

  lemma {:induction false} Limits()
    ensures Limit(4) == 0x1_0000_0000 && Limit(8) == 0x1_0000_0000_0000_0000
  {
    assert Limit(2) == 65536;
    assert Limit(4) == 0x1_0000_0000;
    assert Limit(6) == 0x1_0000_0000_0000;
  }

  lemma {:induction false} DecBelow(s: seq<byte>, big: bool)
    ensures Dec(s, big) < Limit(|s|)
    decreases |s|
  {
    if s != [] {
      DecBelow(if big then s[..|s| - 1] else s[1..], big);
    }
  }

  /** A word comes back exactly if it was small enough for its field. */
  lemma {:induction false} WordExact(n: nat, len: nat, big: bool)
    ensures Dec(Enc(n, len, big), big) == n <==> n < Limit(len)
  {
    DecBelow(Enc(n, len, big), big);
    if n < Limit(len) {
      EncDec(n, len, big);
    }
  }
}
