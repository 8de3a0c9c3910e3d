// Amounts as stored: one byte of length, then the bytes of the number, most significant first.
module BigintCodec {
  import opened Types

  const WORD: nat := 0x1_0000_0000_0000_0000
  const MAX_PACKED_WORDS := 31
  const MAX_PACKED_BYTES := 249

  function Pow256(n: nat): (r: nat)
    ensures r > 0
  {
    if n == 0 then 1 else 256 * Pow256(n - 1)
  }

  /** The number written by `s`. */
  function FromBytes(s: seq<byte>): nat {
    if s == [] then 0 else FromBytes(s[..|s| - 1]) * 256 + s[|s| - 1] as nat
  }

  /** The shortest way to write `v`. */
  function Bytes(v: nat): (s: seq<byte>)
    ensures v == 0 <==> s == []
    ensures v != 0 ==> s[0] != 0
  {
    if v == 0 then [] else Bytes(v / 256) + [(v % 256) as byte]
  }

  lemma {:induction false} BytesRead(v: nat)
    ensures FromBytes(Bytes(v)) == v
  {
    if v != 0 {
      BytesRead(v / 256);
      assert Bytes(v)[..|Bytes(v)| - 1] == Bytes(v / 256);
    }
  }

  lemma {:induction false} ShortestIsUnique(s: seq<byte>)
    requires s != [] ==> s[0] != 0
    ensures Bytes(FromBytes(s)) == s
  {
    if s != [] {
      var n := |s| - 1;
      ShortestIsUnique(s[..n]);
      var v := FromBytes(s[..n]);
      assert (v * 256 + s[n] as nat) / 256 == v && (v * 256 + s[n] as nat) % 256 == s[n] as nat;
      assert s == s[..n] + [s[n]];
      if n == 0 { assert s[..n] == []; } else { assert v != 0; }
    }
  }

  lemma {:induction false} FromBytesJoin(a: seq<byte>, b: seq<byte>)
    ensures FromBytes(a + b) == FromBytes(a) * Pow256(|b|) + FromBytes(b)
  {
    if b == [] {
      assert a + b == a;
    } else {
      var n := |b| - 1;
      FromBytesJoin(a, b[..n]);
      assert (a + b)[..|a + b| - 1] == a + b[..n];
      var x, p := FromBytes(a), Pow256(n);
      assert x * Pow256(|b|) == x * p * 256 by { assert x * (256 * p) == x * p * 256; }
    }
  }

  lemma {:induction false} FromBytesBound(s: seq<byte>)
    ensures FromBytes(s) < Pow256(|s|)
  {
    if s != [] { FromBytesBound(s[..|s| - 1]); }
  }

  lemma {:induction false} BytesLength(v: nat, n: nat)
    requires v < Pow256(n)
    ensures |Bytes(v)| <= n
  {
    if v != 0 { BytesLength(v / 256, n - 1); }
  }

  // ---------------------------------------------------------------- packed form

  /** A number whose bytes may be counted in one byte. */
  predicate Packable(v: nat) { |Bytes(v)| < 256 }

  function Packed(v: nat): seq<byte>
    requires Packable(v)
  {
    [|Bytes(v)| as byte] + Bytes(v)
  }

  /** unpackBigint: the number and how many bytes it took; None when the buffer is too short. */
  function Unpack(buf: seq<byte>): (r: Option<(nat, nat)>)
    ensures r.Some? ==> 0 < r.value.1 <= |buf|
  {
    if buf == [] then None
    else
      var l := buf[0] as nat + 1;
      if l > |buf| then None else Some((FromBytes(buf[1..l]), l))
  }

  /** packedBigintLen */
  function PackedLen(buf: seq<byte>): Option<nat> {
    if buf == [] then None else Some(buf[0] as nat + 1)
  }

  lemma UnpackPacked(v: nat, rest: seq<byte>)
    requires Packable(v)
    ensures Unpack(Packed(v) + rest) == Some((v, |Packed(v)|))
  {
    BytesRead(v);
    assert (Packed(v) + rest)[1..|Packed(v)|] == Bytes(v);
  }

  lemma LenIsConsumed(buf: seq<byte>)
    requires Unpack(buf).Some?
    ensures PackedLen(buf) == Some(Unpack(buf).value.1)
  {
  }

  // ---------------------------------------------------------------- words

  /** The number held in machine words, least significant first. */
  function Value(w: seq<nat>): nat {
    if w == [] then 0 else w[0] + WORD * Value(w[1..])
  }

  ghost predicate Words(w: seq<nat>) {
    (forall i :: 0 <= i < |w| ==> w[i] < WORD) && (w != [] ==> w[|w| - 1] != 0)
  }

  function PowWord(n: nat): (r: nat)
    ensures r > 0
  {
    if n == 0 then 1 else WORD * PowWord(n - 1)
  }

  lemma {:induction false} ValueDropped(w: seq<nat>, s: nat)
    requires s <= |w| && forall i :: 0 <= i < |w| ==> w[i] < WORD
    ensures Value(w[s..]) == Value(w) / PowWord(s)
  {
    if s == 0 {
      assert w[0..] == w;
    } else {
      ValueDropped(w[1..], s - 1);
      assert w[1..][s - 1..] == w[s..];
      DivTwice(w[0], Value(w[1..]), PowWord(s - 1));
    }
  }

  /** (low + W * high) / (W * p) == high / p */
  lemma DivTwice(low: nat, high: nat, p: nat)
    requires low < WORD && p > 0
    ensures (low + WORD * high) / (WORD * p) == high / p
  {
    var q, r := high / p, high % p;
    var n := WORD * p;
    assert low + WORD * high == q * n + (WORD * r + low) by {
      assert high == q * p + r;
      assert WORD * high == WORD * (q * p) + WORD * r;
      assert WORD * (q * p) == q * n;
    }
    assert 0 <= WORD * r + low < n by { assert WORD * (r + 1) <= WORD * p; }
    Quotient(q, n, WORD * r + low);
  }

  lemma MulAtLeast(d: nat, n: nat)
    requires d >= 1
    ensures d * n >= n
  {
  }

  lemma MulMore(a: nat, b: nat, n: nat)
    requires a >= b
    ensures a * n >= b * n
  {
  }

  lemma Apart(a: nat, b: nat, n: nat, r: nat, m: nat)
    requires a * n + r == b * n + m && r < n && m < n
    ensures a == b
  {
    if a > b { MulAtLeast(a - b, n); }
    if b > a { MulAtLeast(b - a, n); }
  }

  lemma Quotient(q: nat, n: nat, r: nat)
    requires r < n
    ensures (q * n + r) / n == q
  {
    var x := q * n + r;
    var y, m := x / n, x % n;
    assert x == y * n + m;
    Apart(q, y, n, r, m);
  }

  // ---------------------------------------------------------------- packing word by word

  /** `d` in exactly `n` bytes. */
  function Fixed(d: nat, n: nat): (s: seq<byte>)
    ensures |s| == n
  {
    if n == 0 then [] else Fixed(d / 256, n - 1) + [(d % 256) as byte]
  }

  lemma {:induction false} FixedRead(d: nat, n: nat)
    requires d < Pow256(n)
    ensures FromBytes(Fixed(d, n)) == d
    ensures n > 0 && d >= Pow256(n - 1) ==> Fixed(d, n)[0] != 0
  {
    if n > 0 {
      FixedRead(d / 256, n - 1);
      assert Fixed(d, n)[..n - 1] == Fixed(d / 256, n - 1);
      if n > 1 && d >= Pow256(n - 1) {
        assert Pow256(n - 1) == 256 * Pow256(n - 2);
      }
    }
  }

  /** Writes the `n` low bytes of `d` after position `at`, least significant byte last. */
  method WriteWord(buf: array<byte>, at: nat, n: nat, d: nat)
    requires at + n < buf.Length
    modifies buf
    ensures buf[at + 1..at + n + 1] == Fixed(d, n)
    ensures buf[..at + 1] == old(buf[..at + 1])
  {
    var i, d' := at + n, d;
    while i > at
      invariant at <= i <= at + n
      invariant Fixed(d', i - at) + buf[i + 1..at + n + 1] == Fixed(d, n)
      invariant buf[..at + 1] == old(buf[..at + 1])
    {
      ghost var tail := buf[i + 1..at + n + 1];
      buf[i] := (d' % 256) as byte;
      assert buf[i..at + n + 1] == [(d' % 256) as byte] + tail;
      d' := d' / 256;
      i := i - 1;
    }
  }

  lemma WordBytes()
    ensures Pow256(8) == WORD
  {
    assert Pow256(1) == 256 && Pow256(2) == 0x1_0000 && Pow256(3) == 0x100_0000 && Pow256(4) == 0x1_0000_0000;
    assert Pow256(5) == 0x100_0000_0000 && Pow256(6) == 0x1_0000_0000_0000 && Pow256(7) == 0x100_0000_0000_0000;
  }

  /** The number of bytes of a non-zero word, found by masking from the top. */
  method SignificantBytes(w0: nat) returns (fb: nat)
    requires 0 < w0 < WORD
    ensures 1 <= fb <= 8 && Pow256(fb - 1) <= w0 < Pow256(fb)
  {
    WordBytes();
    fb := 8;
    while (w0 / Pow256(fb - 1)) % 256 == 0
      invariant 1 <= fb <= 8 && w0 < Pow256(fb)
      decreases fb
    {
      TopByteZero(w0, Pow256(fb - 1));
      if fb == 1 {
        assert false;
      }
      fb := fb - 1;
    }
    TopByte(w0, Pow256(fb - 1));
  }

  lemma TopByteZero(w: nat, p: nat)
    requires p > 0 && w < 256 * p && (w / p) % 256 == 0
    ensures w < p
  {
    TopBound(w, p);
  }

  lemma TopByte(w: nat, p: nat)
    requires p > 0 && (w / p) % 256 != 0
    ensures w >= p
  {
  }

  lemma TopBound(w: nat, p: nat)
    requires p > 0 && w < 256 * p
    ensures w / p < 256
  {
    var q, r := w / p, w % p;
    assert w == q * p + r;
    if q >= 256 { MulMore(q, 256, p); }
  }

  /** How many words are left out of a number of `lw` words. */
  function Skipped(lw: nat): nat { if lw > MAX_PACKED_WORDS then lw - MAX_PACKED_WORDS else 0 }

  /** How many words a number takes. */
  function WordCount(v: nat): nat { if v == 0 then 0 else 1 + WordCount(v / WORD) }

  /** What packing leaves of a number: its 31 most significant words. */
  function Truncated(v: nat): nat { Divided(v, PowWord(Skipped(WordCount(v)))) }

  function Divided(v: nat, p: nat): (q: nat)
    requires p > 0
    ensures q == v / p
  {
    v / p
  }

  /** packBigint as a function of the number. */
  function PackedAmount(v: nat): (s: seq<byte>)
    ensures 1 <= |s| <= MAX_PACKED_BYTES
  {
    TruncatedFits(v);
    Packed(Truncated(v))
  }

  lemma {:induction false} WordCountBound(v: nat)
    ensures v < PowWord(WordCount(v)) && (v > 0 <==> WordCount(v) > 0)
    ensures v > 0 ==> v >= PowWord(WordCount(v) - 1)
  {
    if v > 0 {
      WordCountBound(v / WORD);
      var q, p := v / WORD, PowWord(WordCount(v) - 1);
      assert v == q * WORD + v % WORD && q + 1 <= p;
      MulMore(p, q + 1, WORD);
    }
  }

  lemma {:induction false} PowWordAdd(a: nat, b: nat)
    ensures PowWord(a + b) == PowWord(a) * PowWord(b)
  {
    if a > 0 {
      PowWordAdd(a - 1, b);
      Times(WORD, PowWord(a - 1), PowWord(b));
    }
  }

  lemma Times(x: nat, y: nat, z: nat)
    ensures x * (y * z) == x * y * z
  {
  }

  lemma {:induction false} PowWordBytes(n: nat)
    ensures PowWord(n) == Pow256(8 * n)
  {
    if n > 0 {
      PowWordBytes(n - 1);
      EightMore(8 * n - 8);
    }
  }

  lemma EightMore(k: nat)
    ensures Pow256(k + 8) == WORD * Pow256(k)
  {
    assert Pow256(k + 2) == 0x1_0000 * Pow256(k);
    assert Pow256(k + 4) == 0x1_0000 * Pow256(k + 2);
    assert Pow256(k + 6) == 0x1_0000 * Pow256(k + 4);
    assert Pow256(k + 8) == 0x1_0000 * Pow256(k + 6);
  }

  lemma DivBound(v: nat, p: nat, q: nat)
    requires p > 0 && v < p * q
    ensures v / p < q
  {
    var y := v / p;
    assert v == y * p + v % p;
    if y >= q { MulMore(y, q, p); }
  }

  /** What is left of a number fits into a count byte. */
  lemma TruncatedFits(v: nat)
    ensures Truncated(v) < PowWord(MAX_PACKED_WORDS)
    ensures |Bytes(Truncated(v))| < MAX_PACKED_BYTES && Packable(Truncated(v))
  {
    hide PowWord, WordCount, Bytes, Pow256;
    var n := WordCount(v);
    WordCountBound(v);
    if n > MAX_PACKED_WORDS {
      PowWordAdd(n - MAX_PACKED_WORDS, MAX_PACKED_WORDS);
      DivBound(v, PowWord(n - MAX_PACKED_WORDS), PowWord(MAX_PACKED_WORDS));
    } else {
      PowWordAdd(n, MAX_PACKED_WORDS - n);
      MulAtLeast(PowWord(MAX_PACKED_WORDS - n), PowWord(n));
      NoDivision(v);
    }
    PowWordBytes(MAX_PACKED_WORDS);
    BytesLength(Truncated(v), 8 * MAX_PACKED_WORDS);
  }

  lemma NoDivision(v: nat)
    ensures v / PowWord(0) == v
  {
  }

  lemma {:induction false} WordsCounted(w: seq<nat>)
    requires Words(w)
    ensures WordCount(Value(w)) == |w|
  {
    if w != [] {
      ValuePositive(w);
      WordsCounted(w[1..]);
      assert (w[0] + WORD * Value(w[1..])) / WORD == Value(w[1..]);
    }
  }

  /** Nothing is left out exactly of numbers of at most 31 words. */
  lemma TruncatedExactly(v: nat)
    ensures Truncated(v) == v <==> v < PowWord(MAX_PACKED_WORDS)
    ensures WordCount(v) <= MAX_PACKED_WORDS <==> v < PowWord(MAX_PACKED_WORDS)
  {
    hide PowWord, WordCount;
    var n := WordCount(v);
    WordCountBound(v);
    if n > MAX_PACKED_WORDS {
      PowWordMore(n - 1, MAX_PACKED_WORDS);
      PowWordGrows(n - MAX_PACKED_WORDS);
      Smaller(v, PowWord(n - MAX_PACKED_WORDS));
    } else {
      PowWordMore(MAX_PACKED_WORDS, n);
      NoDivision(v);
    }
  }

  lemma PowWordMore(a: nat, b: nat)
    requires a >= b
    ensures PowWord(a) >= PowWord(b) > 0
  {
    hide PowWord;
    PowWordAdd(a - b, b);
    MulAtLeast(PowWord(a - b), PowWord(b));
  }

  /** Writes word `j` behind the bytes of the words above it. */
  method AppendWord(w: seq<nat>, j: nat, buf: array<byte>, fb: nat)
    requires Words(w) && j + 1 < |w| && 1 <= fb && fb + 8 < buf.Length
    requires FromBytes(buf[1..fb + 1]) == Value(w[j + 1..]) && buf[1] != 0
    modifies buf
    ensures FromBytes(buf[1..fb + 9]) == Value(w[j..]) && buf[1] != 0
  {
    hide FromBytes, Fixed, Value;
    ghost var head := buf[1..fb + 1];
    WriteWord(buf, fb, 8, w[j]);
    NextWord(head, buf[fb + 1..fb + 9], w, j);
    assert buf[1..fb + 1] == head by { assert buf[..fb + 1][1..] == buf[1..fb + 1]; }
    assert buf[1..fb + 9] == head + buf[fb + 1..fb + 9];
    assert head[0] == buf[1];
  }

  method PackWords(w: seq<nat>, buf: array<byte>) returns (fb: nat)
    requires Words(w) && w != [] && buf.Length >= MAX_PACKED_BYTES
    modifies buf
    ensures 1 <= fb < MAX_PACKED_BYTES
    ensures FromBytes(buf[1..fb + 1]) == Value(w[Skipped(|w|)..]) && buf[1] != 0
  {
    hide FromBytes, Fixed, Value, Pow256;
    var lw := |w|;
    // the most significant word without its leading zeros
    fb := SignificantBytes(w[lw - 1]);
    WriteWord(buf, 0, fb, w[lw - 1]);
    FixedRead(w[lw - 1], fb);
    LastValue(w);
    var s := Skipped(lw);
    var j := lw - 1;
    while j > s
      invariant s <= j < lw && 1 <= fb <= 8 * (lw - j)
      invariant FromBytes(buf[1..fb + 1]) == Value(w[j..]) && buf[1] != 0
    {
      j := j - 1;
      AppendWord(w, j, buf, fb);
      fb := fb + 8;
    }
  }

  /** packBigint stays within the buffer and writes the 31 most significant words of the number. */
  method PackBigint(w: seq<nat>, buf: array<byte>) returns (n: nat)
    requires Words(w) && buf.Length >= MAX_PACKED_BYTES
    modifies buf
    ensures 1 <= n <= MAX_PACKED_BYTES && buf[..n] == PackedAmount(Value(w))
  {
    WordsCounted(w);
    if w == [] {
      buf[0] := 0;
      return 1;
    }
    hide FromBytes, Bytes, Value, PowWord, WordCount;
    var fb := PackWords(w, buf);
    ghost var body := buf[1..fb + 1];
    buf[0] := fb as byte;
    ValueDropped(w, Skipped(|w|));
    ShortestIsUnique(body);
    assert buf[..fb + 1] == [fb as byte] + body;
    return fb + 1;
  }

  lemma LastValue(w: seq<nat>)
    requires w != []
    ensures Value(w[|w| - 1..]) == w[|w| - 1]
  {
    assert w[|w| - 1..] == [w[|w| - 1]];
  }

  lemma NextWord(head: seq<byte>, word: seq<byte>, w: seq<nat>, j: nat)
    requires j + 1 < |w| && FromBytes(head) == Value(w[j + 1..]) && w[j] < WORD && word == Fixed(w[j], 8)
    ensures FromBytes(head + word) == Value(w[j..])
  {
    WordBytes();
    FixedRead(w[j], 8);
    FromBytesJoin(head, word);
    assert w[j..][1..] == w[j + 1..];
  }

  lemma PowWordGrows(s: nat)
    requires s > 0
    ensures PowWord(s) >= 2
  {
    MulAtLeast(PowWord(s - 1), WORD);
  }

  /** What is packed reads back as what packing leaves. */
  lemma PackedRead(v: nat, rest: seq<byte>)
    ensures Unpack(PackedAmount(v) + rest) == Some((Truncated(v), |PackedAmount(v)|))
  {
    hide Packed, Unpack, Truncated, PowWord, Bytes;
    TruncatedFits(v);
    UnpackPacked(Truncated(v), rest);
  }

  /** It reads back as the number itself exactly up to 31 words. */
  lemma PackIsExact(v: nat, rest: seq<byte>)
    ensures Unpack(PackedAmount(v) + rest) == Some((v, |PackedAmount(v)|)) <==> v < PowWord(MAX_PACKED_WORDS)
  {
    hide PackedAmount, Unpack, Truncated, PowWord;
    PackedRead(v, rest);
    TruncatedExactly(v);
  }

  /** The least number that does not read back comes back without its lowest word. */
  lemma LeastNumberCut(rest: seq<byte>)
    ensures var v := PowWord(MAX_PACKED_WORDS);
            Unpack(PackedAmount(v) + rest) == Some((PowWord(MAX_PACKED_WORDS - 1), |PackedAmount(v)|))
  {
    hide PackedAmount, Unpack, PowWord;
    var v := PowWord(MAX_PACKED_WORDS);
    PackedRead(v, rest);
    PowWordCounted(MAX_PACKED_WORDS);
    PowWordAdd(1, MAX_PACKED_WORDS - 1);
    Quotient(PowWord(MAX_PACKED_WORDS - 1), PowWord(1), 0);
    assert PowWord(MAX_PACKED_WORDS - 1) * PowWord(1) == PowWord(1) * PowWord(MAX_PACKED_WORDS - 1);
  }

  lemma {:induction false} PowWordCounted(n: nat)
    ensures WordCount(PowWord(n)) == n + 1
  {
    if n > 0 {
      PowWordCounted(n - 1);
      assert WORD * PowWord(n - 1) / WORD == PowWord(n - 1);
    }
  }

  lemma {:induction false} ValuePositive(w: seq<nat>)
    requires w != [] && w[|w| - 1] != 0
    ensures Value(w) > 0
  {
    if |w| > 1 { ValuePositive(w[1..]); }
  }

  lemma Smaller(v: nat, p: nat)
    requires v > 0 && p >= 2
    ensures v / p < v
  {
    MulMore(p, 2, v);
    DivBound(v, p, v);
  }
}
