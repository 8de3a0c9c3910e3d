// Byte strings in the order of the database, and heights written so that this order is theirs.
module Keys {
  import opened Types
  import opened BigintCodec

  /** bytes.Compare(a, b) < 0 */
  predicate Less(a: seq<byte>, b: seq<byte>) {
    b != [] && (a == [] || a[0] < b[0] || (a[0] == b[0] && Less(a[1..], b[1..])))
  }

  lemma {:induction false} LessTrans(a: seq<byte>, b: seq<byte>, c: seq<byte>)
    requires Less(a, b) && Less(b, c)
    ensures Less(a, c)
  {
    if a != [] && a[0] == b[0] == c[0] { LessTrans(a[1..], b[1..], c[1..]); }
  }

  lemma {:induction false} LessTotal(a: seq<byte>, b: seq<byte>)
    ensures Less(a, b) || a == b || Less(b, a)
    ensures !(Less(a, b) && Less(b, a)) && !Less(a, a)
  {
    if a != [] { if b != [] && a[0] == b[0] { LessTotal(a[1..], b[1..]); } LessTotal(a[1..], a[1..]); }
  }

  /** A common beginning does not matter. */
  lemma {:induction false} LessAfter(p: seq<byte>, a: seq<byte>, b: seq<byte>)
    ensures Less(p + a, p + b) <==> Less(a, b)
  {
    if p == [] {
      assert p + a == a && p + b == b;
    } else {
      LessAfter(p[1..], a, b);
      assert (p + a)[1..] == p[1..] + a && (p + b)[1..] == p[1..] + b;
    }
  }

  /** Of beginnings of equal length that differ, the beginning decides. */
  lemma {:induction false} LessBefore(p: seq<byte>, q: seq<byte>, a: seq<byte>, b: seq<byte>)
    requires |p| == |q| && p != q
    ensures Less(p + a, q + b) <==> Less(p, q)
  {
    if p[0] == q[0] {
      assert p[1..] != q[1..] by { assert p == [p[0]] + p[1..] && q == [q[0]] + q[1..]; }
      LessBefore(p[1..], q[1..], a, b);
    }
    assert (p + a)[1..] == p[1..] + a && (q + b)[1..] == q[1..] + b;
  }

  // ---------------------------------------------------------------- heights

  /** Numbers in a fixed number of bytes are ordered as numbers. */
  lemma {:induction false} FixedOrder(x: nat, y: nat, n: nat)
    requires x < Pow256(n) && y < Pow256(n)
    ensures Less(Fixed(x, n), Fixed(y, n)) <==> x < y
  {
    if n > 0 {
      var p, q := Fixed(x / 256, n - 1), Fixed(y / 256, n - 1);
      FixedOrder(x / 256, y / 256, n - 1);
      var b, c := [(x % 256) as byte], [(y % 256) as byte];
      if x / 256 == y / 256 {
        LessAfter(p, b, c);
      } else {
        FixedRead(x / 256, n - 1);
        FixedRead(y / 256, n - 1);
        LessBefore(p, q, b, c);
      }
    }
  }

  lemma FourBytes()
    ensures Pow256(4) == U32
  {
    assert Pow256(1) == 256 && Pow256(2) == 0x1_0000 && Pow256(3) == 0x100_0000;
  }

  /** packUint */
  function PackUint(i: nat): seq<byte> { Fixed(i, 4) }

  /** unpackUint */
  function UnpackUint(s: seq<byte>): nat { FromBytes(s) }

  lemma UintOrder(x: nat, y: nat)
    requires x < U32 && y < U32
    ensures |PackUint(x)| == 4 && UnpackUint(PackUint(x)) == x
    ensures Less(PackUint(x), PackUint(y)) <==> x < y
  {
    FourBytes();
    FixedOrder(x, y, 4);
    FixedRead(x, 4);
  }
}
