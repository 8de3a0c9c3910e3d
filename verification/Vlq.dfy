// Variable-length integers: seven bits a byte, most significant first, the high bit set on all
// bytes but the last. Signed integers are folded onto the naturals.
module Vlq {
  import opened Types

  /** A value read from a buffer and the position after it, or that the buffer is too short. */
  datatype Parse<T> = Got(value: T, at: nat) | Short {
    predicate IsFailure() { Short? }
    function PropagateFailure<U>(): Parse<U>
      requires IsFailure()
    {
      Short
    }
    function Extract(): (T, nat)
      requires !IsFailure()
    {
      (value, at)
    }
  }

  /** `e` stands in `buf` at position `at`. */
  predicate At(buf: seq<byte>, at: nat, e: seq<byte>) { at + |e| <= |buf| && buf[at..at + |e|] == e }

  lemma AtJoin(buf: seq<byte>, at: nat, a: seq<byte>, b: seq<byte>)
    ensures At(buf, at, a + b) <==> At(buf, at, a) && At(buf, at + |a|, b)
  {
    if at + |a| + |b| <= |buf| {
      var x, y := buf[at..at + |a|], buf[at + |a|..at + |a| + |b|];
      assert buf[at..at + |a + b|] == x + y;
      assert (x + y)[..|a|] == x && (x + y)[|a|..] == y && (a + b)[..|a|] == a && (a + b)[|a|..] == b;
    }
  }

  // ---------------------------------------------------------------- naturals

  /** All groups but the last. */
  function High(m: nat): seq<byte> {
    if m == 0 then [] else High(m / 128) + [(128 + m % 128) as byte]
  }

  function PutUint(n: nat): (r: seq<byte>)
    ensures |r| > 0
  {
    High(n / 128) + [(n % 128) as byte]
  }

  function UintFrom(buf: seq<byte>, at: nat, acc: nat): (r: Parse<nat>)
    ensures r.Got? ==> at < r.at <= |buf|
    decreases |buf| - at
  {
    if at >= |buf| then Short
    else if buf[at] >= 128 then UintFrom(buf, at + 1, acc * 128 + buf[at] as nat - 128)
    else Got(acc * 128 + buf[at] as nat, at + 1)
  }

  function Uint(buf: seq<byte>, at: nat): (r: Parse<nat>)
    ensures r.Got? ==> at < r.at <= |buf|
  {
    UintFrom(buf, at, 0)
  }

  lemma {:induction false} HighRead(buf: seq<byte>, at: nat, m: nat)
    requires At(buf, at, High(m))
    ensures UintFrom(buf, at, 0) == UintFrom(buf, at + |High(m)|, m)
  {
    if m != 0 {
      var b := (128 + m % 128) as byte;
      AtJoin(buf, at, High(m / 128), [b]);
      HighRead(buf, at, m / 128);
      assert buf[at + |High(m / 128)|] == b;
    }
  }

  lemma UintRead(buf: seq<byte>, at: nat, n: nat)
    requires At(buf, at, PutUint(n))
    ensures Uint(buf, at) == Got(n, at + |PutUint(n)|)
  {
    var b := (n % 128) as byte;
    AtJoin(buf, at, High(n / 128), [b]);
    HighRead(buf, at, n / 128);
    assert buf[at + |High(n / 128)|] == b;
  }

  // ---------------------------------------------------------------- integers

  function Fold(i: int): nat { if i >= 0 then 2 * i else -2 * i - 1 }

  function Unfold(n: nat): int { if n % 2 == 0 then n / 2 else -(n / 2) - 1 }

  function PutInt(i: int): seq<byte> { PutUint(Fold(i)) }

  function Int(buf: seq<byte>, at: nat): (r: Parse<int>)
    ensures r.Got? ==> at < r.at <= |buf|
  {
    var (n, l) :- Uint(buf, at);
    Got(Unfold(n), l)
  }

  lemma IntRead(buf: seq<byte>, at: nat, i: int)
    requires At(buf, at, PutInt(i))
    ensures Int(buf, at) == Got(i, at + |PutInt(i)|)
  {
    hide Uint, PutUint, At;
    UintRead(buf, at, Fold(i));
  }

  // ---------------------------------------------------------------- bytes

  /** The next `n` bytes. */
  function Take(buf: seq<byte>, at: nat, n: nat): (r: Parse<seq<byte>>)
    ensures r.Got? ==> r.at == at + n <= |buf| && |r.value| == n
  {
    if at + n > |buf| then Short else Got(buf[at..at + n], at + n)
  }
}
