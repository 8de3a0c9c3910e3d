// Exchange rates at or after given times: one lookup at a time, and many in a single pass.
module FiatTickers {
  import opened Types

  /** A stored ticker as it decodes for the wanted currency and token: broken, without the wanted rate, or usable. */
  datatype Decoded<T> = Broken | Unsuitable | Suitable(ticker: T)

  datatype Row<T> = Row(time: int, decoded: Decoded<T>)

  datatype Result<T> = Err | Ok(value: T)

  ghost predicate Sorted<T>(rows: seq<Row<T>>) { forall i, j :: 0 <= i < j < |rows| ==> rows[i].time < rows[j].time }

  ghost predicate Ascending(ts: seq<int>) { forall i, j :: 0 <= i < j < |ts| ==> ts[i] <= ts[j] }

  /** The first row at or after `t`. */
  function SeekFrom<T>(rows: seq<Row<T>>, t: int, i: nat): (r: nat)
    requires i <= |rows|
    ensures i <= r <= |rows| && (forall k :: i <= k < r ==> rows[k].time < t) && (r < |rows| ==> rows[r].time >= t)
    decreases |rows| - i
  {
    if i == |rows| || rows[i].time >= t then i else SeekFrom(rows, t, i + 1)
  }

  /** What the rows from `i` on give: the first one that is broken or usable decides. */
  function FindFrom<T>(rows: seq<Row<T>>, i: nat): Result<Option<T>>
    requires i <= |rows|
    decreases |rows| - i
  {
    if i == |rows| then Ok(None)
    else match rows[i].decoded
         case Broken => Err
         case Suitable(t) => Ok(Some(t))
         case Unsuitable => FindFrom(rows, i + 1)
  }

  /** FiatRatesFindTicker */
  function FindTicker<T>(rows: seq<Row<T>>, t: int): Result<Option<T>> { FindFrom(rows, SeekFrom(rows, t, 0)) }

  /** The first row at or after `t` that is not unsuitable. */
  ghost predicate Decides<T>(rows: seq<Row<T>>, t: int, i: int) {
    && 0 <= i < |rows| && rows[i].time >= t && rows[i].decoded != Unsuitable
    && forall j :: 0 <= j < |rows| && t <= rows[j].time < rows[i].time ==> rows[j].decoded == Unsuitable
  }

  lemma {:induction false} FindFromIs<T>(rows: seq<Row<T>>, i: nat) returns (j: nat)
    requires i <= |rows|
    ensures i <= j <= |rows| && forall k :: i <= k < j ==> rows[k].decoded == Unsuitable
    ensures j == |rows| ==> FindFrom(rows, i) == Ok(None)
    ensures j < |rows| ==>
              && rows[j].decoded != Unsuitable
              && FindFrom(rows, i) == if rows[j].decoded.Broken? then Err else Ok(Some(rows[j].decoded.ticker))
    decreases |rows| - i
  {
    j := i;
    if i < |rows| && rows[i].decoded == Unsuitable { j := FindFromIs(rows, i + 1); }
  }

  /** A lookup fails if the deciding row is broken, gives the ticker of the deciding row if it is usable, and nothing if
      no row decides. */
  lemma TickerFound<T>(rows: seq<Row<T>>, t: int)
    requires Sorted(rows)
    ensures FindTicker(rows, t) == Err <==> exists i :: Decides(rows, t, i) && rows[i].decoded == Broken
    ensures forall x ::
              FindTicker(rows, t) == Ok(Some(x)) <==> exists i :: Decides(rows, t, i) && rows[i].decoded == Suitable(x)
    ensures FindTicker(rows, t) == Ok(None) <==>
              forall i :: 0 <= i < |rows| && rows[i].time >= t ==> rows[i].decoded == Unsuitable
  {
    hide FindFrom;
    var s := SeekFrom(rows, t, 0);
    var j := FindFromIs(rows, s);
    if j < |rows| {
      assert rows[j].time >= t by { if s < j { assert rows[s].time < rows[j].time; } }
      assert Decides(rows, t, j);
    }
    forall i | Decides(rows, t, i) ensures j < |rows| && i == j {
      assert s <= i;
    }
  }

  /** Unsuitable rows may be skipped. */
  lemma {:induction false} SkipUnsuitable<T>(rows: seq<Row<T>>, i: nat, j: nat)
    requires i <= j <= |rows| && forall k :: i <= k < j ==> rows[k].decoded == Unsuitable
    ensures FindFrom(rows, i) == FindFrom(rows, j)
    decreases j - i
  {
    if i < j { SkipUnsuitable(rows, i + 1, j); }
  }

  lemma SeekIsFirst<T>(rows: seq<Row<T>>, t: int, j: nat)
    requires Sorted(rows) && j <= |rows| && (j < |rows| ==> rows[j].time >= t)
    ensures SeekFrom(rows, t, 0) <= j
    ensures (forall k :: 0 <= k < j ==> rows[k].time < t) ==> SeekFrom(rows, t, 0) == j
  {
  }

  lemma SeekLater<T>(rows: seq<Row<T>>, t: int, t': int)
    requires t <= t'
    ensures SeekFrom(rows, t, 0) <= SeekFrom(rows, t', 0)
  {
  }

  /** The iterator stands where nothing between the place of `t` and here is of use. */
  ghost predicate Stands<T>(rows: seq<Row<T>>, t: int, at: nat) {
    SeekFrom(rows, t, 0) <= at <= |rows| && forall k :: SeekFrom(rows, t, 0) <= k < at ==> rows[k].decoded == Unsuitable
  }

  /** What was decoded last belongs to the key it is kept under. */
  ghost predicate CacheOk<T>(rows: seq<Row<T>>, cache: Option<(int, Option<T>)>) {
    cache.Some? ==> forall k :: 0 <= k < |rows| && rows[k].time == cache.value.0 ==>
      rows[k].decoded == if cache.value.1.Some? then Suitable(cache.value.1.value) else Unsuitable
  }

  /** Moves on to the next row that decides; the row decoded last is not decoded again. */
  method Advance<T>(rows: seq<Row<T>>, from: nat, cache: Option<(int, Option<T>)>)
    returns (r: Result<Option<T>>, at: nat, cache': Option<(int, Option<T>)>)
    requires from <= |rows| && CacheOk(rows, cache) && Sorted(rows)
    ensures r == FindFrom(rows, from) && CacheOk(rows, cache')
    ensures from <= at <= |rows| && forall k :: from <= k < at ==> rows[k].decoded == Unsuitable
  {
    at, cache' := from, cache;
    while at < |rows|
      invariant from <= at <= |rows| && CacheOk(rows, cache') && FindFrom(rows, from) == FindFrom(rows, at)
      invariant forall k :: from <= k < at ==> rows[k].decoded == Unsuitable
    {
      var key := rows[at].time;
      if cache'.Some? && cache'.value.0 == key {
        if cache'.value.1.Some? {
          return Ok(cache'.value.1), at, cache';
        }
      } else {
        if rows[at].decoded.Broken? {
          return Err, at, cache';
        }
        var ticker := if rows[at].decoded.Suitable? then Some(rows[at].decoded.ticker) else None;
        cache' := Some((key, ticker));
        if ticker.Some? {
          return Ok(ticker), at, cache';
        }
      }
      at := at + 1;
    }
    return Ok(None), at, cache';
  }

  /** The latest of the first `n` times. */
  function Latest(ts: seq<int>, n: nat): (m: int)
    requires 0 < n <= |ts|
    ensures (forall k :: 0 <= k < n ==> ts[k] <= m) && exists k :: 0 <= k < n && ts[k] == m
  {
    if n == 1 || Latest(ts, n - 1) < ts[n - 1] then ts[n - 1] else Latest(ts, n - 1)
  }

  lemma LatestIsLast(ts: seq<int>, i: nat)
    requires Ascending(ts) && i < |ts|
    ensures Latest(ts, i + 1) == ts[i]
  {
  }

  /** What `r` should be by lookups of the latest time so far. */
  ghost predicate ByLatest<T>(rows: seq<Row<T>>, ts: seq<int>, r: Result<seq<Option<T>>>) {
    && (r.Ok? <==> forall n :: 0 < n <= |ts| ==> FindTicker(rows, Latest(ts, n)).Ok?)
    && (r.Ok? ==>
         |r.value| == |ts| && forall n :: 0 < n <= |ts| ==> Ok(r.value[n - 1]) == FindTicker(rows, Latest(ts, n)))
  }

  /** What `r` should be by a lookup for each time. */
  ghost predicate ByLookups<T>(rows: seq<Row<T>>, ts: seq<int>, r: Result<seq<Option<T>>>) {
    && (r.Ok? <==> forall i :: 0 <= i < |ts| ==> FindTicker(rows, ts[i]).Ok?)
    && (r.Ok? ==> |r.value| == |ts| && forall i :: 0 <= i < |ts| ==> Ok(r.value[i]) == FindTicker(rows, ts[i]))
  }

  lemma LatestIsLookup<T>(rows: seq<Row<T>>, ts: seq<int>, r: Result<seq<Option<T>>>)
    requires ByLatest(rows, ts, r) && Ascending(ts)
    ensures ByLookups(rows, ts, r)
  {
    hide FindTicker;
    forall i | 0 <= i < |ts| ensures Latest(ts, i + 1) == ts[i] { LatestIsLast(ts, i); }
    forall n | 0 < n <= |ts| ensures Latest(ts, n) == ts[n - 1] { LatestIsLast(ts, n - 1); }
  }

  /** What the pass gives is what lookups give. */
  ghost predicate AsLookups<T>(rows: seq<Row<T>>, ts: seq<int>) {
    forall i :: 0 <= i < |ts| ==> FindTicker(rows, Latest(ts, i + 1)) == FindTicker(rows, ts[i])
  }

  /** It does so for all tickers exactly when the times ascend. */
  lemma AsLookupsIfAscending(ts: seq<int>)
    ensures Ascending(ts) <==> forall rows: seq<Row<bool>> :: Sorted(rows) ==> AsLookups(rows, ts)
  {
    if Ascending(ts) {
      forall i | 0 <= i < |ts| ensures Latest(ts, i + 1) == ts[i] { LatestIsLast(ts, i); }
    } else {
      var i, j :| 0 <= i < j < |ts| && ts[i] > ts[j];
      NotAsLookups(ts, i, j);
    }
  }

  lemma NotAsLookups(ts: seq<int>, i: nat, j: nat)
    requires i < j < |ts| && ts[i] > ts[j]
    ensures exists rows: seq<Row<bool>> :: Sorted(rows) && !AsLookups(rows, ts)
  {
    var m := Latest(ts, j + 1);
    var rows := [Row(ts[j], Suitable(false)), Row(m, Suitable(true))];
    assert FindTicker(rows, ts[j]) == Ok(Some(false));
    assert SeekFrom(rows, m, 0) == 1;
    assert FindTicker(rows, m) == Ok(Some(true));
    assert Sorted(rows) && !AsLookups(rows, ts);
  }

  /** FiatRatesFindTickers: the iterator never goes back, so that one pass gives at each place what a lookup of the
      latest time so far gives, and fails iff one of these fails; for ascending times that is the lookup of the time
      itself. */
  method FindTickers<T>(rows: seq<Row<T>>, ts: seq<int>) returns (r: Result<seq<Option<T>>>)
    requires Sorted(rows)
    ensures ByLatest(rows, ts, r)
    ensures Ascending(ts) ==> ByLookups(rows, ts, r)
  {
    hide FindFrom, Sorted, Ascending, ByLookups;
    if |ts| == 1 {
      assert Latest(ts, 1) == ts[0];
      var one := FindTicker(rows, ts[0]);
      r := if one.Err? then Err else Ok([one.value]);
    } else {
      r := OnePass(rows, ts);
    }
    if Ascending(ts) { LatestIsLookup(rows, ts, r); }
  }

  /** Stands the iterator on the row to look at for time `i`. */
  method Reseek<T>(rows: seq<Row<T>>, ts: seq<int>, i: nat, from: nat) returns (at: nat)
    requires Sorted(rows) && i < |ts| && from <= |rows| && (i > 0 ==> Stands(rows, Latest(ts, i), from))
    ensures at <= |rows| && Stands(rows, Latest(ts, i + 1), at)
  {
    hide FindFrom;
    at := from;
    if i == 0 || (at < |rows| && rows[at].time < ts[i]) {
      at := SeekFrom(rows, ts[i], 0);
    } else {
      Standing(rows, Latest(ts, i), Latest(ts, i + 1), at);
    }
  }

  method OnePass<T>(rows: seq<Row<T>>, ts: seq<int>) returns (r: Result<seq<Option<T>>>)
    requires Sorted(rows)
    ensures ByLatest(rows, ts, r)
  {
    hide FindFrom, SeekFrom, Sorted, CacheOk, Latest;
    var tickers: seq<Option<T>> := [];
    var at: nat, cache: Option<(int, Option<T>)>, i := 0, None, 0;
    Undecoded(rows);
    while i < |ts|
      invariant 0 <= i <= |ts| && |tickers| == i && CacheOk(rows, cache) && at <= |rows|
      invariant forall n :: 0 < n <= i ==> Ok(tickers[n - 1]) == FindTicker(rows, Latest(ts, n))
      invariant i > 0 ==> Stands(rows, Latest(ts, i), at)
    {
      at := Reseek(rows, ts, i, at);
      SkipUnsuitable(rows, SeekFrom(rows, Latest(ts, i + 1), 0), at);
      var found;
      found, at, cache := Advance(rows, at, cache);
      if found.Err? {
        return Err;
      }
      tickers := tickers + [found.value];
      i := i + 1;
    }
    return Ok(tickers);
  }

  lemma Undecoded<T>(rows: seq<Row<T>>)
    ensures CacheOk(rows, None)
  {
  }

  /** An iterator at or past the key of a later time stands well for it too. */
  lemma Standing<T>(rows: seq<Row<T>>, t: int, t': int, at: nat)
    requires Sorted(rows) && Stands(rows, t, at) && t <= t' && (t < t' && at < |rows| ==> rows[at].time >= t')
    ensures Stands(rows, t', at)
  {
    if t < t' {
      SeekLater(rows, t, t');
      SeekIsFirst(rows, t', at);
    }
  }
}
