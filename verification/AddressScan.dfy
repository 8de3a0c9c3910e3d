// The history of an address, read by walking the ordered keys of the addresses column.
module AddressScan {
  import opened Types
  import opened Vlq
  import opened Keys

  const MAX_NON_MATCHING: nat := 1000

  /** The places of an address in one transaction: outputs i, inputs as -i-1. */
  datatype TxIdx = TxIdx(txid: seq<byte>, indexes: seq<int>)

  /** What the callback is given. */
  datatype Hit = Hit(txid: seq<byte>, height: nat, indexes: seq<int>)

  datatype Place = Place(addr: seq<byte>, height: nat)
  type Column = map<Place, seq<TxIdx>>

  // ---------------------------------------------------------------- keys

  /** packAddressKey: the complement makes newer blocks come first. */
  function Key(a: seq<byte>, h: nat): seq<byte>
    requires h < U32
  {
    a + PackUint(U32 - 1 - h)
  }

  /** unpackAddressKey of a key long enough to hold a height. */
  function HeightOf(key: seq<byte>): int
    requires |key| >= 4
  {
    U32 - 1 - UnpackUint(key[|key| - 4..])
  }

  lemma KeyRead(a: seq<byte>, h: nat)
    requires h < U32
    ensures |Key(a, h)| == |a| + 4 && HeightOf(Key(a, h)) == h && Key(a, h)[..|a|] == a
  {
    UintOrder(U32 - 1 - h, 0);
    assert Key(a, h)[|a|..] == PackUint(U32 - 1 - h);
  }

  lemma KeyOrder(a: seq<byte>, h: nat, h': nat)
    requires h < U32 && h' < U32
    ensures Less(Key(a, h), Key(a, h')) <==> h > h'
  {
    LessAfter(a, PackUint(U32 - 1 - h), PackUint(U32 - 1 - h'));
    UintOrder(U32 - 1 - h, U32 - 1 - h');
  }

  /** A key of the length of `a`'s keys lies between two of them exactly when it is one of them, of a height in
      between. */
  lemma KeyBetween(a: seq<byte>, lower: nat, higher: nat, b: seq<byte>, h: nat)
    requires lower < U32 && higher < U32 && h < U32 && |b| == |a|
    ensures !Less(Key(b, h), Key(a, higher)) && !Less(Key(a, lower), Key(b, h)) <==> b == a && lower <= h <= higher
  {
    if b == a {
      KeyOrder(a, h, higher);
      KeyOrder(a, lower, h);
    } else {
      LessBefore(b, a, PackUint(U32 - 1 - h), PackUint(U32 - 1 - higher));
      LessBefore(a, b, PackUint(U32 - 1 - lower), PackUint(U32 - 1 - h));
      LessTotal(a, b);
    }
  }

  // ---------------------------------------------------------------- values

  /** An int32 keeps the low 32 bits. */
  function Wrap32(x: int): int { (x + 0x8000_0000) % U32 - 0x8000_0000 }

  /** An index shifted left within 32 bits; the last one of a transaction carries a mark in its lowest bit. */
  function Shift(i: int, last: bool): int { Wrap32(2 * i) + if last then 1 else 0 }

  /** What is left of an index when it is shifted back. */
  function KeptIndex(i: int): int { Wrap32(2 * i) / 2 }

  function KeptIndexes(idx: seq<int>): (r: seq<int>)
    ensures |r| == |idx| && forall i :: 0 <= i < |idx| ==> r[i] == KeptIndex(idx[i])
  {
    if idx == [] then [] else [KeptIndex(idx[0])] + KeptIndexes(idx[1..])
  }

  predicate In31Bits(i: int) { -0x4000_0000 <= i < 0x4000_0000 }

  lemma ShiftBack(i: int, last: bool)
    ensures Wrap32(Shift(i, last)) / 2 == KeptIndex(i) && Wrap32(Shift(i, last)) % 2 == if last then 1 else 0
  {
    hide Wrap32;
    var m := WrapEven(i);
    WrapInRange(Wrap32(2 * i) + if last then 1 else 0);
    HalfOf(m, if last then 1 else 0);
    HalfOf(m, 0);
  }

  lemma WrapEven(i: int) returns (m: int)
    ensures Wrap32(2 * i) == 2 * m && -0x4000_0000 <= m < 0x4000_0000
  {
    var x := 2 * i + 0x8000_0000;
    var q, r := x / U32, x % U32;
    assert x == q * U32 + r;
    m := i - q * 0x8000_0000;
  }

  lemma WrapInRange(x: int)
    requires -0x8000_0000 <= x < 0x8000_0000
    ensures Wrap32(x) == x
  {
  }

  lemma HalfOf(m: int, b: int)
    requires 0 <= b < 2
    ensures (2 * m + b) / 2 == m && (2 * m + b) % 2 == b
  {
  }

  /** Indexes come back exactly when they fit into 31 bits. */
  lemma IndexesKeptExactly(idx: seq<int>)
    ensures KeptIndexes(idx) == idx <==> forall i :: 0 <= i < |idx| ==> In31Bits(idx[i])
  {
    forall i | 0 <= i < |idx| ensures KeptIndex(idx[i]) == idx[i] <==> In31Bits(idx[i]) { IndexKeptExactly(idx[i]); }
  }

  lemma IndexKeptExactly(i: int)
    ensures KeptIndex(i) == i <==> In31Bits(i)
  {
  }

  function PackIndexes(idx: seq<int>): seq<byte>
    requires idx != []
  {
    if |idx| == 1 then PutInt(Shift(idx[0], true)) else PutInt(Shift(idx[0], false)) + PackIndexes(idx[1..])
  }

  /** The transactions of a block, the last one first. */
  function PackRow(txi: seq<TxIdx>): seq<byte>
    requires forall t :: t in txi ==> t.indexes != []
  {
    if txi == [] then []
    else
      var n := |txi| - 1;
      (txi[n].txid + PackIndexes(txi[n].indexes)) + PackRow(txi[..n])
  }

  function GetIndexes(val: seq<byte>, at: nat): (r: Parse<seq<int>>)
    ensures r.Got? ==> at < r.at <= |val|
    decreases |val| - at
  {
    var (n, l) :- Int(val, at);
    if Wrap32(n) % 2 == 1 || l == |val| then Got([Wrap32(n) / 2], l)
    else
      var (rest, l) :- GetIndexes(val, l);
      Got([Wrap32(n) / 2] + rest, l)
  }

  function GetRow(txidLen: nat, val: seq<byte>, at: nat, h: nat): seq<Hit>
    decreases |val| - at
  {
    if at + txidLen >= |val| then []
    else
      var r := GetIndexes(val, at + txidLen);
      if r.Short? then [] else [Hit(val[at..at + txidLen], h, r.value)] + GetRow(txidLen, val, r.at, h)
  }

  /** The transactions of a block in reverse, with what is left of their indexes. */
  function Reversed(txi: seq<TxIdx>, h: nat): seq<Hit> {
    if txi == [] then []
    else
      var n := |txi| - 1;
      [Hit(txi[n].txid, h, KeptIndexes(txi[n].indexes))] + Reversed(txi[..n], h)
  }

  lemma {:induction false} IndexesRead(val: seq<byte>, at: nat, idx: seq<int>)
    requires idx != [] && At(val, at, PackIndexes(idx))
    ensures GetIndexes(val, at) == Got(KeptIndexes(idx), at + |PackIndexes(idx)|)
    decreases |idx|
  {
    hide PutInt, Int, Shift, Wrap32, KeptIndex;
    ShiftBack(idx[0], |idx| == 1);
    if |idx| == 1 {
      IntRead(val, at, Shift(idx[0], true));
      assert KeptIndexes(idx) == [KeptIndex(idx[0])];
    } else {
      var e := PutInt(Shift(idx[0], false));
      AtJoin(val, at, e, PackIndexes(idx[1..]));
      IntRead(val, at, Shift(idx[0], false));
      IndexesRead(val, at + |e|, idx[1..]);
      IndexesNotEmpty(idx[1..]);
      assert idx == [idx[0]] + idx[1..];
    }
  }

  lemma IndexesNotEmpty(idx: seq<int>)
    requires idx != []
    ensures |PackIndexes(idx)| > 0
  {
  }

  ghost predicate RowOk(txidLen: nat, txi: seq<TxIdx>) {
    forall t :: t in txi ==> |t.txid| == txidLen && t.indexes != []
  }

  lemma AtSlice(val: seq<byte>, at: nat, x: seq<byte>)
    requires At(val, at, x)
    ensures at + |x| <= |val| && val[at..at + |x|] == x
  {
  }

  lemma {:induction false} RowRead(txidLen: nat, val: seq<byte>, at: nat, txi: seq<TxIdx>, h: nat)
    requires RowOk(txidLen, txi) && At(val, at, PackRow(txi)) && at + |PackRow(txi)| == |val|
    ensures GetRow(txidLen, val, at, h) == Reversed(txi, h)
    decreases |txi|
  {
    hide GetIndexes, PackIndexes, KeptIndexes, At;
    if txi != [] {
      var n := |txi| - 1;
      var x, y := txi[n].txid, PackIndexes(txi[n].indexes);
      AtJoin(val, at, x + y, PackRow(txi[..n]));
      AtJoin(val, at, x, y);
      AtSlice(val, at, x);
      IndexesRead(val, at + |x|, txi[n].indexes);
      IndexesNotEmpty(txi[n].indexes);
      RowRead(txidLen, val, at + |x| + |y|, txi[..n], h);
    }
  }

  // ---------------------------------------------------------------- the column as it is stored

  datatype Row = Row(key: seq<byte>, val: seq<byte>)

  ghost predicate PlaceOk(txidLen: nat, col: Column, p: Place) {
    p in col && p.height < U32 && |p.addr| > 0 && RowOk(txidLen, col[p])
  }

  ghost predicate IsRow(txidLen: nat, col: Column, r: Row, p: Place) {
    PlaceOk(txidLen, col, p) && r == Row(Key(p.addr, p.height), PackRow(col[p]))
  }

  /** `rows` are the packed entries of the column in key order; row `i` is that of `places[i]`. */
  ghost predicate Stores(txidLen: nat, rows: seq<Row>, places: seq<Place>, col: Column) {
    && |rows| == |places| && (forall i :: 0 <= i < |rows| ==> IsRow(txidLen, col, rows[i], places[i]))
    && (forall p :: p in col ==> p in places)
    && Sorted(rows)
  }

  ghost predicate Sorted(rows: seq<Row>) { forall i, j :: 0 <= i < j < |rows| ==> Less(rows[i].key, rows[j].key) }

  // ---------------------------------------------------------------- what is to be delivered

  /** Blocks from `higher` down to `lower`, each with its last transaction first. */
  function Expected(col: Column, a: seq<byte>, lower: nat, higher: int): seq<Hit>
    decreases higher - lower
  {
    if higher < lower then []
    else
      (if Place(a, higher) in col then Reversed(col[Place(a, higher)], higher) else [])
      + Expected(col, a, lower, higher - 1)
  }

  predicate InRange(key: seq<byte>, a: seq<byte>, lower: nat, higher: nat)
    requires lower < U32 && higher < U32
  {
    !Less(key, Key(a, higher)) && !Less(Key(a, lower), key)
  }

  /** What the rows from `i` on contribute. */
  function FromRows(txidLen: nat, rows: seq<Row>, i: nat, a: seq<byte>, lower: nat, higher: nat): seq<Hit>
    requires lower < U32 && higher < U32
    decreases |rows| - i
  {
    if i >= |rows| then []
    else
      Part(txidLen, rows[i], a, lower, higher) + FromRows(txidLen, rows, i + 1, a, lower, higher)
  }

  function Part(txidLen: nat, r: Row, a: seq<byte>, lower: nat, higher: nat): seq<Hit>
    requires lower < U32 && higher < U32
  {
    if InRange(r.key, a, lower, higher) && |r.key| == |a| + 4 && HeightOf(r.key) >= 0
    then GetRow(txidLen, r.val, 0, HeightOf(r.key)) else []
  }

  // ---------------------------------------------------------------- key order is delivery order

  predicate Wanted(p: Place, a: seq<byte>, lower: nat, higher: nat) { p.addr == a && lower <= p.height <= higher }

  /** A row is of `a` and in range exactly when the scan takes it, and then holds that block's transactions. */
  lemma RowTaken(txidLen: nat, col: Column, r: Row, p: Place, a: seq<byte>, lower: nat, higher: nat)
    requires IsRow(txidLen, col, r, p) && lower < U32 && higher < U32
    ensures |r.key| == |p.addr| + 4 && HeightOf(r.key) == p.height
    ensures InRange(r.key, a, lower, higher) && |r.key| == |a| + 4 <==> Wanted(p, a, lower, higher)
    ensures GetRow(txidLen, r.val, 0, p.height) == Reversed(col[p], p.height)
    ensures Part(txidLen, r, a, lower, higher) == if Wanted(p, a, lower, higher) then Reversed(col[p], p.height) else []
  {
    hide GetRow, Reversed, Less, PackRow;
    KeyRead(p.addr, p.height);
    if |p.addr| == |a| { KeyBetween(a, lower, higher, p.addr, p.height); }
    RowRead(txidLen, r.val, 0, col[p], p.height);
  }

  /** The blocks of `a` from `top` down to `lower` are among the places from `i` on, and no other blocks in range. */
  ghost predicate Left(places: seq<Place>, i: nat, col: Column, a: seq<byte>, lower: nat, higher: nat, top: int)
    requires i <= |places|
  {
    && (forall h: nat :: lower <= h <= top && Place(a, h) in col ==> Place(a, h) in places[i..])
    && (forall j :: i <= j < |places| && Wanted(places[j], a, lower, higher) ==> places[j].height <= top)
  }

  lemma {:induction false} NothingExpected(col: Column, a: seq<byte>, lower: nat, top: int)
    requires forall h: nat :: lower <= h <= top ==> Place(a, h) !in col
    ensures Expected(col, a, lower, top) == []
    decreases top - lower
  {
    if top >= lower { NothingExpected(col, a, lower, top - 1); }
  }

  /** Of two blocks of an address the newer one is stored first. */
  lemma NewerFirst(txidLen: nat, rows: seq<Row>, places: seq<Place>, col: Column, i: nat, j: nat)
    requires Stores(txidLen, rows, places, col) && i < j < |places| && places[i].addr == places[j].addr
    ensures places[i].height > places[j].height
  {
    hide Less, PackRow;
    assert IsRow(txidLen, col, rows[i], places[i]) && IsRow(txidLen, col, rows[j], places[j]);
    KeyOrder(places[i].addr, places[i].height, places[j].height);
  }

  lemma LeftAfter(txidLen: nat, rows: seq<Row>, places: seq<Place>, i: nat, col: Column, a: seq<byte>, lower: nat,
                  higher: nat, top: int)
    requires Stores(txidLen, rows, places, col) && i < |places| && Left(places, i, col, a, lower, higher, top)
             && top <= higher
    ensures !Wanted(places[i], a, lower, higher) ==> Left(places, i + 1, col, a, lower, higher, top)
    ensures Wanted(places[i], a, lower, higher) ==>
            places[i] == Place(a, places[i].height) && lower <= places[i].height <= top
    ensures Wanted(places[i], a, lower, higher) && places[i].height == top ==>
            Left(places, i + 1, col, a, lower, higher, top - 1)
    ensures Wanted(places[i], a, lower, higher) && places[i].height < top ==>
            Place(a, top) !in col && Left(places, i, col, a, lower, higher, top - 1)
  {
    forall j | i < j < |places| && places[j].addr == places[i].addr ensures places[i].height > places[j].height {
      NewerFirst(txidLen, rows, places, col, i, j);
    }
    hide Stores;
    assert places[i..] == [places[i]] + places[i + 1..];
  }

  lemma StoredRow(txidLen: nat, rows: seq<Row>, places: seq<Place>, i: nat, col: Column)
    requires Stores(txidLen, rows, places, col) && i <= |rows|
    ensures |places| == |rows| && (i < |rows| ==> IsRow(txidLen, col, rows[i], places[i]) && places[i] in col)
  {
    hide Less;
  }

  lemma NothingLeft(places: seq<Place>, col: Column, a: seq<byte>, lower: nat, higher: nat, top: int)
    requires Left(places, |places|, col, a, lower, higher, top)
    ensures Expected(col, a, lower, top) == []
  {
    NothingExpected(col, a, lower, top);
  }

  lemma {:induction false} RowsFrom(txidLen: nat, rows: seq<Row>, places: seq<Place>, i: nat, col: Column,
                                    a: seq<byte>, lower: nat, higher: nat, top: int)
    requires Stores(txidLen, rows, places, col) && lower < U32 && higher < U32 && top <= higher && i <= |rows|
    requires Left(places, i, col, a, lower, higher, top)
    ensures FromRows(txidLen, rows, i, a, lower, higher) == Expected(col, a, lower, top)
    decreases |rows| - i, top + 1
  {
    hide Left, Stores, GetRow, Reversed, InRange, IsRow, HeightOf, Part, Wanted;
    StoredRow(txidLen, rows, places, i, col);
    if i == |rows| {
      NothingLeft(places, col, a, lower, higher, top);
    } else {
      var p := places[i];
      RowTaken(txidLen, col, rows[i], p, a, lower, higher);
      LeftAfter(txidLen, rows, places, i, col, a, lower, higher, top);
      if !Wanted(p, a, lower, higher) {
        RowsFrom(txidLen, rows, places, i + 1, col, a, lower, higher, top);
      } else if p.height == top {
        RowsFrom(txidLen, rows, places, i + 1, col, a, lower, higher, top - 1);
      } else {
        RowsFrom(txidLen, rows, places, i, col, a, lower, higher, top - 1);
      }
    }
  }

  lemma AllRows(txidLen: nat, rows: seq<Row>, places: seq<Place>, col: Column, a: seq<byte>, lower: nat, higher: nat)
    requires Stores(txidLen, rows, places, col) && lower < U32 && higher < U32
    ensures FromRows(txidLen, rows, 0, a, lower, higher) == Expected(col, a, lower, higher)
  {
    hide Less;
    assert places[0..] == places;
    RowsFrom(txidLen, rows, places, 0, col, a, lower, higher, higher);
  }

  // ---------------------------------------------------------------- the scan

  datatype Reply = Continue | Stop | Fail
  datatype Outcome = Complete | Stopped | CallbackFailed | LimitExceeded

  /** How many of the first `n` rows lie between the keys of `a` and are not its own. */
  function Others(rows: seq<Row>, n: nat, a: seq<byte>, lower: nat, higher: nat): nat
    requires n <= |rows| && lower < U32 && higher < U32
  {
    if n == 0 then 0
    else Others(rows, n - 1, a, lower, higher)
         + if InRange(rows[n - 1].key, a, lower, higher) && |rows[n - 1].key| != |a| + 4 then 1 else 0
  }

  lemma {:induction false} OthersGrow(rows: seq<Row>, n: nat, k: nat, a: seq<byte>, lower: nat, higher: nat)
    requires n <= k <= |rows| && lower < U32 && higher < U32
    ensures Others(rows, n, a, lower, higher) <= Others(rows, k, a, lower, higher)
  {
    if n < k { OthersGrow(rows, n, k - 1, a, lower, higher); }
  }

  /** What the rows from `i` on contribute before the first foreign key too many. */
  function UntilLimit(txidLen: nat, rows: seq<Row>, i: nat, a: seq<byte>, lower: nat, higher: nat): seq<Hit>
    requires lower < U32 && higher < U32
    decreases |rows| - i
  {
    if i >= |rows| || Others(rows, i + 1, a, lower, higher) > MAX_NON_MATCHING then []
    else Part(txidLen, rows[i], a, lower, higher) + UntilLimit(txidLen, rows, i + 1, a, lower, higher)
  }

  /** Behind a row past the last key there is nothing more to take. */
  lemma {:induction false} PastStop(txidLen: nat, rows: seq<Row>, i: nat, a: seq<byte>, lower: nat, higher: nat)
    requires Sorted(rows) && lower < U32 && higher < U32 && (i < |rows| ==> Less(Key(a, lower), rows[i].key))
    ensures FromRows(txidLen, rows, i, a, lower, higher) == [] && UntilLimit(txidLen, rows, i, a, lower, higher) == []
    ensures i <= |rows| ==> Others(rows, |rows|, a, lower, higher) == Others(rows, i, a, lower, higher)
    decreases |rows| - i
  {
    if i < |rows| {
      if i + 1 < |rows| { LessTrans(Key(a, lower), rows[i].key, rows[i + 1].key); }
      PastStop(txidLen, rows, i + 1, a, lower, higher);
    }
  }

  method Seek(rows: seq<Row>, txidLen: nat, a: seq<byte>, lower: nat, higher: nat) returns (i: nat)
    requires lower < U32 && higher < U32 && Sorted(rows)
    ensures i <= |rows| && forall j :: i <= j < |rows| ==> !Less(rows[j].key, Key(a, higher))
    ensures FromRows(txidLen, rows, i, a, lower, higher) == FromRows(txidLen, rows, 0, a, lower, higher)
    ensures UntilLimit(txidLen, rows, i, a, lower, higher) == UntilLimit(txidLen, rows, 0, a, lower, higher)
    ensures Others(rows, i, a, lower, higher) == 0
  {
    hide Less, GetRow;
    i := 0;
    while i < |rows| && Less(rows[i].key, Key(a, higher))
      invariant i <= |rows| && Others(rows, i, a, lower, higher) == 0
      invariant FromRows(txidLen, rows, i, a, lower, higher) == FromRows(txidLen, rows, 0, a, lower, higher)
      invariant UntilLimit(txidLen, rows, i, a, lower, higher) == UntilLimit(txidLen, rows, 0, a, lower, higher)
    {
      i := i + 1;
    }
    forall j | i <= j < |rows| ensures !Less(rows[j].key, Key(a, higher)) {
      if i < j && Less(rows[j].key, Key(a, higher)) { LessTrans(rows[i].key, rows[j].key, Key(a, higher)); }
    }
  }

  method ReadIndexes(val: seq<byte>, at: nat) returns (r: Parse<seq<int>>)
    ensures r == GetIndexes(val, at)
  {
    hide Int;
    var l, idx, more := at, [], true;
    ghost var all := GetIndexes(val, at);
    assert all.Got? ==> [] + all.value == all.value;
    while more
      invariant more ==>
                all == if GetIndexes(val, l).Short?
                    then Short else Got(idx + GetIndexes(val, l).value, GetIndexes(val, l).at)
      invariant !more ==> all == Got(idx, l)
      decreases more, |val| - l
    {
      var n :- Int(val, l);
      l, more := n.1, !(Wrap32(n.0) % 2 == 1 || n.1 == |val|);
      ghost var rest := if more then GetIndexes(val, l) else Short;
      assert rest.Got? ==> idx + ([Wrap32(n.0) / 2] + rest.value) == idx + [Wrap32(n.0) / 2] + rest.value;
      idx := idx + [Wrap32(n.0) / 2];
    }
    return Got(idx, l);
  }

  /** The replies to all hits but perhaps the last were to go on. */
  ghost predicate WentOn(reply: seq<Hit> -> Reply, hits: seq<Hit>, n: nat)
    requires n <= |hits|
  {
    forall k :: 0 < k <= n ==> reply(hits[..k]) == Continue
  }

  /** Delivers the transactions of one row until the callback objects. */
  method Deliver(txidLen: nat, val: seq<byte>, h: nat, before: seq<Hit>, reply: seq<Hit> -> Reply)
    returns (hits: seq<Hit>, answer: Reply)
    requires WentOn(reply, before, |before|)
    ensures hits <= before + GetRow(txidLen, val, 0, h) && |before| <= |hits|
    ensures answer == Continue ==> hits == before + GetRow(txidLen, val, 0, h) && WentOn(reply, hits, |hits|)
    ensures answer != Continue ==> hits != [] && answer == reply(hits) && WentOn(reply, hits, |hits| - 1)
  {
    hide WentOn, GetIndexes;
    hits := before;
    var at := 0;
    ghost var all := before + GetRow(txidLen, val, 0, h);
    while at + txidLen < |val|
      invariant all == hits + GetRow(txidLen, val, at, h) && WentOn(reply, hits, |hits|) && |before| <= |hits|
      decreases |val| - at
    {
      var r := ReadIndexes(val, at + txidLen);
      if r.Short? {
        return hits, Continue;
      }
      var hit := Hit(val[at..at + txidLen], h, r.value);
      assert hits + ([hit] + GetRow(txidLen, val, r.at, h)) == hits + [hit] + GetRow(txidLen, val, r.at, h);
      GoneOn(reply, hits, hit);
      hits := hits + [hit];
      if reply(hits) != Continue {
        return hits, reply(hits);
      }
      at := r.at;
    }
    return hits, Continue;
  }

  lemma GoneOn(reply: seq<Hit> -> Reply, hits: seq<Hit>, hit: Hit)
    requires WentOn(reply, hits, |hits|)
    ensures WentOn(reply, hits + [hit], |hits|)
    ensures reply(hits + [hit]) == Continue ==> WentOn(reply, hits + [hit], |hits| + 1)
  {
    forall k | 0 < k <= |hits| ensures reply((hits + [hit])[..k]) == Continue {
      assert (hits + [hit])[..k] == hits[..k];
    }
    assert (hits + [hit])[..|hits| + 1] == hits + [hit];
  }

  /** What a scan ends with when `all` is to be delivered, `foreign` other keys lie in between, and `before` is what
      comes before the first one too many. */
  ghost predicate Result(all: seq<Hit>, before: seq<Hit>, hits: seq<Hit>, outcome: Outcome, reply: seq<Hit> -> Reply,
                         foreign: nat)
  {
    && hits <= all && (foreign > MAX_NON_MATCHING ==> hits <= before)
    && match outcome
       case Complete => hits == all && foreign <= MAX_NON_MATCHING && WentOn(reply, hits, |hits|)
       case Stopped => hits != [] && reply(hits) == Stop && WentOn(reply, hits, |hits| - 1)
       case CallbackFailed => hits != [] && reply(hits) == Fail && WentOn(reply, hits, |hits| - 1)
       case LimitExceeded => hits == before && foreign > MAX_NON_MATCHING && WentOn(reply, hits, |hits|)
  }

  /** Which outcome it is: the limit is exceeded exactly when there are too many foreign keys and the callback goes on
      up to the first one too many; the scan completes exactly when there are not and the callback always goes on. */
  lemma OutcomeExactly(all: seq<Hit>, before: seq<Hit>, hits: seq<Hit>, outcome: Outcome, reply: seq<Hit> -> Reply,
                       foreign: nat)
    requires Result(all, before, hits, outcome, reply, foreign)
    ensures outcome == LimitExceeded <==> foreign > MAX_NON_MATCHING && WentOn(reply, before, |before|)
    ensures outcome == Complete <==> foreign <= MAX_NON_MATCHING && WentOn(reply, all, |all|)
  {
    if outcome == Stopped || outcome == CallbackFailed {
      if foreign > MAX_NON_MATCHING { assert before[..|hits|] == hits; } else { assert all[..|hits|] == hits; }
    }
  }

  /** What is to be delivered: what has been, and the rest. */
  ghost predicate Splits(all: seq<Hit>, hits: seq<Hit>, rest: seq<Hit>) {
    all == hits + rest
  }

  lemma ResultComplete(all: seq<Hit>, before: seq<Hit>, hits: seq<Hit>, rest: seq<Hit>, until: seq<Hit>,
                       reply: seq<Hit> -> Reply, foreign: nat)
    requires Splits(all, hits, rest) && Splits(before, hits, until) && WentOn(reply, hits, |hits|)
    ensures rest == [] && foreign <= MAX_NON_MATCHING ==> Result(all, before, hits, Complete, reply, foreign)
    ensures until == [] && foreign > MAX_NON_MATCHING ==> Result(all, before, hits, LimitExceeded, reply, foreign)
  {
  }

  lemma ResultStopped(all: seq<Hit>, before: seq<Hit>, hits: seq<Hit>, row: seq<Hit>, rest: seq<Hit>, until: seq<Hit>,
                      answer: Reply, reply: seq<Hit> -> Reply, foreign: nat)
    requires Splits(all, row, rest) && Splits(before, row, until) && hits <= row && hits != []
    requires answer == reply(hits) && answer != Continue && WentOn(reply, hits, |hits| - 1)
    ensures Result(all, before, hits, if answer == Stop then Stopped else CallbackFailed, reply, foreign)
  {
  }

  /** GetAddrDescTransactions: whatever other keys are interleaved, a scan that completes has delivered exactly the
      transactions of the blocks in range, newest first. It stops early when the callback says so, or with an error at
      the first of more than 1000 foreign keys that is one too many. */
  method GetAddrDescTransactions(rows: seq<Row>, txidLen: nat, a: seq<byte>, lower: nat, higher: nat,
                                 reply: seq<Hit> -> Reply, ghost places: seq<Place>, ghost col: Column)
    returns (hits: seq<Hit>, outcome: Outcome)
    requires Stores(txidLen, rows, places, col) && lower < U32 && higher < U32
    ensures Result(Expected(col, a, lower, higher), UntilLimit(txidLen, rows, 0, a, lower, higher),
                   hits, outcome, reply, Others(rows, |rows|, a, lower, higher))
  {
    hide *;
    ghost var all, foreign := Expected(col, a, lower, higher), Others(rows, |rows|, a, lower, higher);
    ghost var before := UntilLimit(txidLen, rows, 0, a, lower, higher);
    AllRows(txidLen, rows, places, col, a, lower, higher);
    InOrder(txidLen, rows, places, col);
    hits := [];
    Nothing(reply, all);
    Nothing(reply, before);
    var nonMatching := 0;
    var i := Seek(rows, txidLen, a, lower, higher);
    while i < |rows|
      invariant i <= |rows| && Splits(all, hits, FromRows(txidLen, rows, i, a, lower, higher))
      invariant Splits(before, hits, UntilLimit(txidLen, rows, i, a, lower, higher))
      invariant nonMatching == Others(rows, i, a, lower, higher) <= MAX_NON_MATCHING && WentOn(reply, hits, |hits|)
      invariant forall j :: i <= j < |rows| ==> !Less(rows[j].key, Key(a, higher))
    {
      var key := rows[i].key;
      ghost var rest := FromRows(txidLen, rows, i + 1, a, lower, higher);
      ghost var until := UntilLimit(txidLen, rows, i + 1, a, lower, higher);
      if Less(Key(a, lower), key) {
        break;
      }
      NextRow(txidLen, rows, places, i, col, a, lower, higher, all, before, hits);
      if |key| != |a| + 4 {
        nonMatching := nonMatching + 1;
        if nonMatching > MAX_NON_MATCHING {
          OthersGrow(rows, i + 1, |rows|, a, lower, higher);
          ResultComplete(all, before, hits, rest, [], reply, foreign);
          return hits, LimitExceeded;
        }
      } else {
        ghost var row := hits + GetRow(txidLen, rows[i].val, 0, HeightOf(key));
        var answer;
        hits, answer := Deliver(txidLen, rows[i].val, HeightOf(key), hits, reply);
        if answer != Continue {
          ResultStopped(all, before, hits, row, rest, until, answer, reply, foreign);
          return hits, if answer == Stop then Stopped else CallbackFailed;
        }
      }
      i := i + 1;
    }
    PastStop(txidLen, rows, i, a, lower, higher);
    ResultComplete(all, before, hits, [], [], reply, foreign);
    return hits, Complete;
  }

  lemma InOrder(txidLen: nat, rows: seq<Row>, places: seq<Place>, col: Column)
    requires Stores(txidLen, rows, places, col)
    ensures Sorted(rows)
  {
  }

  lemma Nothing(reply: seq<Hit> -> Reply, all: seq<Hit>)
    ensures WentOn(reply, [], 0) && Splits(all, [], all)
  {
  }

  /** What one row between the keys of `a` adds. */
  lemma RowPassed(txidLen: nat, rows: seq<Row>, places: seq<Place>, i: nat, col: Column, a: seq<byte>, lower: nat,
                  higher: nat)
    requires Stores(txidLen, rows, places, col) && i < |rows| && lower < U32 && higher < U32
    requires !Less(rows[i].key, Key(a, higher)) && !Less(Key(a, lower), rows[i].key)
    ensures |rows[i].key| >= 4 && HeightOf(rows[i].key) >= 0
    ensures FromRows(txidLen, rows, i, a, lower, higher)
         == (if |rows[i].key| == |a| + 4 then GetRow(txidLen, rows[i].val, 0, HeightOf(rows[i].key)) else [])
            + FromRows(txidLen, rows, i + 1, a, lower, higher)
    ensures |rows[i].key| != |a| + 4 ==>
            FromRows(txidLen, rows, i, a, lower, higher) == FromRows(txidLen, rows, i + 1, a, lower, higher)
    ensures UntilLimit(txidLen, rows, i, a, lower, higher)
         == if Others(rows, i + 1, a, lower, higher) > MAX_NON_MATCHING then []
            else (if |rows[i].key| == |a| + 4 then GetRow(txidLen, rows[i].val, 0, HeightOf(rows[i].key)) else [])
                 + UntilLimit(txidLen, rows, i + 1, a, lower, higher)
    ensures Others(rows, i + 1, a, lower, higher)
         == Others(rows, i, a, lower, higher) + if |rows[i].key| != |a| + 4 then 1 else 0
  {
    hide Less, GetRow;
    assert IsRow(txidLen, col, rows[i], places[i]);
    KeyRead(places[i].addr, places[i].height);
  }

  /** How far the delivery is after one more row. */
  lemma NextRow(txidLen: nat, rows: seq<Row>, places: seq<Place>, i: nat, col: Column, a: seq<byte>, lower: nat,
                higher: nat, all: seq<Hit>, before: seq<Hit>, hits: seq<Hit>)
    requires Stores(txidLen, rows, places, col) && i < |rows| && lower < U32 && higher < U32
    requires !Less(rows[i].key, Key(a, higher)) && !Less(Key(a, lower), rows[i].key)
    requires Splits(all, hits, FromRows(txidLen, rows, i, a, lower, higher))
    requires Splits(before, hits, UntilLimit(txidLen, rows, i, a, lower, higher))
    ensures |rows[i].key| >= 4 && HeightOf(rows[i].key) >= 0
    ensures Others(rows, i + 1, a, lower, higher)
         == Others(rows, i, a, lower, higher) + if |rows[i].key| != |a| + 4 then 1 else 0
    ensures var got := hits + if |rows[i].key| == |a| + 4 then GetRow(txidLen, rows[i].val, 0, HeightOf(rows[i].key))
                              else [];
            && (|rows[i].key| != |a| + 4 ==> got == hits)
            && Splits(all, got, FromRows(txidLen, rows, i + 1, a, lower, higher))
            && if Others(rows, i + 1, a, lower, higher) > MAX_NON_MATCHING then Splits(before, hits, [])
               else Splits(before, got, UntilLimit(txidLen, rows, i + 1, a, lower, higher))
  {
    hide Less, GetRow, FromRows, UntilLimit, Others, Stores, Key, HeightOf;
    RowPassed(txidLen, rows, places, i, col, a, lower, higher);
  }
}
