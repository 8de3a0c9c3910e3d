// Every elementary step of connecting a block keeps the invariant, so connecting does.
module LedgerConnect {
  import opened Types
  import opened UtxoIndex
  import opened LedgerModel
  import opened LedgerInvariant

  // ---------------------------------------------------------------- what a coin does to the txAddresses column

  /** `now` is `was` with the coin `c` at one more place of transaction `t`. */
  ghost predicate CoinAdded(was: TxColumn, now: TxColumn, t: TxId, c: Coin) {
    && t in was && now.Keys == was.Keys
    && (forall x :: x in was ==> now[x].height == was[x].height)
    && (forall x, k {:trigger TxHits(now[x], k)} :: x in was ==>
         (TxHits(now[x], k) <==> TxHits(was[x], k) || (x == t && Hits(c, k))))
  }

  /** The new place of `c` in `t` is listed last; nothing else moves. */
  ghost predicate IndexAdded(was: TxColumn, now: TxColumn, t: TxId, c: Coin, index: int) {
    && t in was && now.Keys == was.Keys
    && forall x, a {:trigger Indexes(now[x], a)} :: x in was && Indexable(a) ==>
         Indexes(now[x], a) == Indexes(was[x], a) + if x == t && a == c.addr then [index] else []
  }

  lemma {:induction false} OutputIndexesUpdate(outs: seq<TxOutput>, i: nat, o: TxOutput, a: AddrDesc)
    requires i < |outs| && Indexable(a)
    requires outs[i].coin.addr == o.coin.addr || forall k :: i <= k < |outs| ==> outs[k] == NoOutput
    ensures OutputIndexes(outs[i := o], a)
         == OutputIndexes(outs, a) + if o.coin.addr == a && outs[i].coin.addr != a then [i] else []
  {
    var n := |outs| - 1;
    if i < n {
      assert outs[i := o][..n] == outs[..n][i := o];
      OutputIndexesUpdate(outs[..n], i, o, a);
    } else {
      assert outs[i := o][..n] == outs[..n];
    }
  }

  lemma {:induction false} InputIndexesUpdate(ins: seq<TxInput>, i: nat, o: TxInput, a: AddrDesc)
    requires i < |ins| && Indexable(a)
    requires forall k :: i <= k < |ins| ==> ins[k] == NoInput
    ensures InputIndexes(ins[i := o], a) == InputIndexes(ins, a) + if o.coin.addr == a then [-1 - i] else []
  {
    var n := |ins| - 1;
    if i < n {
      assert ins[i := o][..n] == ins[..n][i := o];
      InputIndexesUpdate(ins[..n], i, o, a);
    } else {
      assert ins[i := o][..n] == ins[..n];
    }
  }

  lemma {:induction false} OutputsHitUpdate(outs: seq<TxOutput>, i: nat, o: TxOutput, k: Key)
    requires i < |outs| && (outs[i] == NoOutput || outs[i].coin == o.coin)
    ensures OutputsHit(outs[i := o], k) <==> OutputsHit(outs, k) || Hits(o.coin, k)
  {
    var n := |outs| - 1;
    if i < n {
      assert outs[i := o][..n] == outs[..n][i := o];
      OutputsHitUpdate(outs[..n], i, o, k);
    } else {
      assert outs[i := o][..n] == outs[..n];
    }
  }

  lemma {:induction false} InputsHitUpdate(ins: seq<TxInput>, i: nat, o: TxInput, k: Key)
    requires i < |ins| && ins[i] == NoInput
    ensures InputsHit(ins[i := o], k) <==> InputsHit(ins, k) || Hits(o.coin, k)
  {
    var n := |ins| - 1;
    if i < n {
      assert ins[i := o][..n] == ins[..n][i := o];
      InputsHitUpdate(ins[..n], i, o, k);
    } else {
      assert ins[i := o][..n] == ins[..n];
    }
  }

  lemma {:induction false} OutputsHitAt(outs: seq<TxOutput>, i: nat, k: Key)
    requires i < |outs| && Hits(outs[i].coin, k)
    ensures OutputsHit(outs, k)
  {
    if i < |outs| - 1 { OutputsHitAt(outs[..|outs| - 1], i, k); }
  }

  /** Filling in a blank output. */
  lemma OutputAdded(txs: TxColumn, t: TxId, i: nat, c: Coin)
    requires t in txs && i < |txs[t].outputs| && txs[t].inputs == []
    requires forall x :: i <= x < |txs[t].outputs| ==> txs[t].outputs[x] == NoOutput
    ensures var now := SetOutput(txs, t, i, TxOutput(c, false, None));
            CoinAdded(txs, now, t, c) && IndexAdded(txs, now, t, c, i)
  {
    var o := TxOutput(c, false, None);
    forall k { OutputsHitUpdate(txs[t].outputs, i, o, k); }
    forall a | Indexable(a) {
      OutputIndexesUpdate(txs[t].outputs, i, o, a);
    }
  }

  lemma OutputAddedTotals(txs: TxColumn, t: TxId, i: nat, c: Coin, k: Key)
    requires t in txs && i < |txs[t].outputs| && txs[t].outputs[i] == NoOutput
    ensures var now := SetOutput(txs, t, i, TxOutput(c, false, None));
            UnspentTotal(now, k) == UnspentTotal(txs, k) + Amount(c, k) && SpentTotal(now, k) == SpentTotal(txs, k)
  {
    var o := TxOutput(c, false, None);
    var ta := txs[t].(outputs := txs[t].outputs[i := o]);
    UnspentInUpdate(txs[t].outputs, i, o, k);
    UnspentTotalUpdate(txs, t, ta, k);
    SpentTotalUpdate(txs, t, ta, k);
  }

  /** Marking an output spent changes no transaction's places. */
  lemma SpentFlag(txs: TxColumn, t: TxId, i: nat, o: TxOutput)
    requires t in txs && i < |txs[t].outputs| && txs[t].outputs[i].coin == o.coin
    ensures var now := SetOutput(txs, t, i, o);
            CoinAdded(txs, now, t, NoCoin) && IndexAdded(txs, now, t, NoCoin, 0)
  {
    forall k ensures OutputsHit(txs[t].outputs[i := o], k) <==> OutputsHit(txs[t].outputs, k) {
      OutputsHitUpdate(txs[t].outputs, i, o, k);
      if Hits(o.coin, k) { OutputsHitAt(txs[t].outputs, i, k); }
    }
    forall a | Indexable(a) {
      OutputIndexesUpdate(txs[t].outputs, i, o, a);
    }
  }

  lemma InputAdded(txs: TxColumn, t: TxId, i: nat, o: TxInput)
    requires t in txs && i < |txs[t].inputs|
    requires forall x :: i <= x < |txs[t].inputs| ==> txs[t].inputs[x] == NoInput
    ensures var now := SetInput(txs, t, i, o);
            CoinAdded(txs, now, t, o.coin) && IndexAdded(txs, now, t, o.coin, -1 - i)
  {
    forall k { InputsHitUpdate(txs[t].inputs, i, o, k); }
    var now := SetInput(txs, t, i, o);
    forall x, a | x in txs && Indexable(a)
      ensures Indexes(now[x], a) == Indexes(txs[x], a) + if x == t && a == o.coin.addr then [-1 - i] else []
    {
      InputIndexesUpdate(txs[t].inputs, i, o, a);
    }
  }

  /** Spending as done to the column: the source output is flagged, the input filled in. */
  function SpendColumn(txs: TxColumn, op: OutPoint, t: TxId, i: nat, o: TxOutput, input: TxInput): TxColumn {
    SetInput(SetOutput(txs, op.txid, op.vout, o), t, i, input)
  }

  ghost predicate SpendReady(txs: TxColumn, op: OutPoint, t: TxId, i: nat, o: TxOutput, input: TxInput) {
    && op.txid in txs && op.vout < |txs[op.txid].outputs|
    && t in txs && i < |txs[t].inputs| && (forall k :: i <= k < |txs[t].inputs| ==> txs[t].inputs[k] == NoInput)
    && var was := txs[op.txid].outputs[op.vout];
       (was.spent ==> !Indexable(was.coin.addr)) && o.spent && o.coin == was.coin && input.coin == was.coin
  }

  lemma AddedAfterFlag(a: TxColumn, b: TxColumn, c: TxColumn, s: TxId, t: TxId, coin: Coin, index: int)
    requires CoinAdded(a, b, s, NoCoin) && IndexAdded(a, b, s, NoCoin, 0)
    requires CoinAdded(b, c, t, coin) && IndexAdded(b, c, t, coin, index)
    ensures CoinAdded(a, c, t, coin) && IndexAdded(a, c, t, coin, index)
  {
    assert CoinAdded(a, c, t, coin) by {
      forall x, k | x in a
        ensures TxHits(c[x], k) <==> TxHits(a[x], k) || (x == t && Hits(coin, k))
      {
        assert !Hits(NoCoin, k);
        assert TxHits(b[x], k) <==> TxHits(a[x], k);
      }
    }
    forall x, d | x in a && Indexable(d)
      ensures Indexes(c[x], d) == Indexes(a[x], d) + if x == t && d == coin.addr then [index] else []
    {
      assert Indexes(b[x], d) == Indexes(a[x], d);
    }
  }

  lemma SpendAdded(txs: TxColumn, op: OutPoint, t: TxId, i: nat, o: TxOutput, input: TxInput)
    requires SpendReady(txs, op, t, i, o, input)
    ensures var now := SpendColumn(txs, op, t, i, o, input);
            CoinAdded(txs, now, t, o.coin) && IndexAdded(txs, now, t, o.coin, -1 - i)
  {
    var mid := SetOutput(txs, op.txid, op.vout, o);
    assert mid[t].inputs == txs[t].inputs;
    var now := SetInput(mid, t, i, input);
    assert CoinAdded(mid, now, t, o.coin) && IndexAdded(mid, now, t, o.coin, -1 - i) by {
      InputAdded(mid, t, i, input);
    }
    assert CoinAdded(txs, mid, op.txid, NoCoin) && IndexAdded(txs, mid, op.txid, NoCoin, 0) by {
      SpentFlag(txs, op.txid, op.vout, o);
    }
    AddedAfterFlag(txs, mid, now, op.txid, t, o.coin, -1 - i);
  }

  lemma SpendTotals(txs: TxColumn, op: OutPoint, t: TxId, i: nat, o: TxOutput, input: TxInput, k: Key)
    requires SpendReady(txs, op, t, i, o, input)
    ensures var now := SpendColumn(txs, op, t, i, o, input);
            && UnspentTotal(now, k) == UnspentTotal(txs, k) - Amount(o.coin, k)
            && SpentTotal(now, k) == SpentTotal(txs, k) + Amount(o.coin, k)
            && Amount(o.coin, k) <= UnspentTotal(txs, k)
  {
    var s := op.txid;
    var mid := SetOutput(txs, s, op.vout, o);
    var sa := txs[s].(outputs := txs[s].outputs[op.vout := o]);
    UnspentTotalAtLeast(txs, s, op.vout, k);
    UnspentInUpdate(txs[s].outputs, op.vout, o, k);
    UnspentTotalUpdate(txs, s, sa, k);
    SpentTotalUpdate(txs, s, sa, k);
    var ta := mid[t].(inputs := mid[t].inputs[i := input]);
    SpentInUpdate(mid[t].inputs, i, input, k);
    UnspentTotalUpdate(mid, t, ta, k);
    SpentTotalUpdate(mid, t, ta, k);
  }

  // ---------------------------------------------------------------- counters

  lemma OneMore(s: set<TxId>, s': set<TxId>, t: TxId, add: bool)
    requires forall x :: x in s' <==> x in s || (add && x == t)
    ensures |s'| == |s| + OneIf(add && t !in s)
  {
    if add && t !in s {
      assert s' == s + {t};
    } else {
      assert s' == s;
    }
  }

  lemma TouchingGrows(was: TxColumn, now: TxColumn, t: TxId, c: Coin, k: Key)
    requires CoinAdded(was, now, t, c)
    ensures Touching(now, k) == Touching(was, k) + if Hits(c, k) then {t} else {}
    ensures |Touching(now, k)| == |Touching(was, k)| + OneIf(Hits(c, k) && !TxHits(was[t], k))
  {
    assert Touching(now, k) == Touching(was, k) + if Hits(c, k) then {t} else {};
    OneMore(Touching(was, k), Touching(now, k), t, Hits(c, k));
  }

  // ---------------------------------------------------------------- what a coin does to the other columns

  /** Whether `t` was already counted for the key in the block of height `h`. */
  ghost predicate Counted(w: Work, h: nat, t: TxId, k: Key) {
    match k
    case AddrKey(a) => Listed(RowOf(w.l, AddrRow(a, h)), t)
    case HoldingKey(a, g) => Moved(g, t, a) in w.moved
    case AssetKey(g) => AssetListed(AssetRowOf(w.l, AssetRow(g, h)), t)
  }

  /** Common to receiving and spending the coin `c` in transaction `t`. */
  ghost predicate Recorded(w: Work, w': Work, h: nat, t: TxId, c: Coin, index: int) {
    && w'.l.txs == w.l.txs && w'.l.blockTxs == w.l.blockTxs && w'.l.heights == w.l.heights
    && (forall k {:trigger CountOf(w'.l, k)} ::
         CountOf(w'.l, k) == CountOf(w.l, k) + OneIf(Hits(c, k) && !Counted(w, h, t, k)))
    && w'.l.rows == w.l.rows[AddrRow(c.addr, h) := AddIndex(RowOf(w.l, AddrRow(c.addr, h)), t, index)]
    && (forall k, x {:trigger AssetListed(AssetRowOf(w'.l, k), x)} ::
          AssetListed(AssetRowOf(w'.l, k), x) <==>
          AssetListed(AssetRowOf(w.l, k), x) || (k.height == h && x == t && CarriesAsset(c, k.guid)))
    && (forall m :: m in w'.moved <==> m in w.moved || (m.txid == t && m.addr == c.addr && CarriesAsset(c, m.guid)))
    && w'.l.bals.Keys == w.l.bals.Keys + {c.addr}
    && (forall a :: a != c.addr ==> Bal(w'.l, a) == Bal(w.l, a))
  }

  lemma AppendListed(row: seq<AssetTx>, e: AssetTx, x: TxId)
    ensures AssetListed(row + [e], x) <==> AssetListed(row, x) || x == e.txid
  {
    var r := row + [e];
    if x == e.txid { assert r[|row|].txid == x; }
    if AssetListed(row, x) {
      var i :| 0 <= i < |row| && row[i].txid == x;
      assert r[i].txid == x;
    }
  }

  lemma ConnectAssetRow(w: Work, h: nat, t: TxId, version: int, a: AddrDesc, b: AddrBalance, info: Option<AssetInfo>,
                        spend: bool, k: AssetRow, x: TxId)
    ensures var (w', b') := ConnectAssetOpt(w, h, t, version, a, b, info, spend);
            AssetListed(AssetRowOf(w'.l, k), x) <==>
            AssetListed(AssetRowOf(w.l, k), x) || (k.height == h && x == t && info.Some? && info.value.guid == k.guid)
  {
    if info.Some? && k == AssetRow(info.value.guid, h) {
      AppendListed(AssetRowOf(w.l, k), AssetTx(t, version), x);
    }
  }

  lemma ReceiveKey(w: Work, h: nat, t: TxId, version: int, c: Coin, i: nat, k: Key)
    requires Indexable(c.addr)
    ensures var w' := Receive(w, h, t, version, c, i);
            && CountOf(w'.l, k) == CountOf(w.l, k) + OneIf(Hits(c, k) && !Counted(w, h, t, k))
            && (!k.AssetKey? ==>
                  BalanceOf(w'.l, k) == BalanceOf(w.l, k) + Amount(c, k) && SentOf(w'.l, k) == SentOf(w.l, k))
  {
  }

  lemma ReceiveRest(w: Work, h: nat, t: TxId, version: int, c: Coin, i: nat)
    requires Indexable(c.addr)
    ensures var w' := Receive(w, h, t, version, c, i);
            && w'.l.txs == w.l.txs && w'.l.blockTxs == w.l.blockTxs && w'.l.heights == w.l.heights
            && w'.l.rows == w.l.rows[AddrRow(c.addr, h) := AddIndex(RowOf(w.l, AddrRow(c.addr, h)), t, i)]
            && (forall m :: m in w'.moved
                 <==> m in w.moved || (m.txid == t && m.addr == c.addr && CarriesAsset(c, m.guid)))
            && w'.l.bals.Keys == w.l.bals.Keys + {c.addr}
            && (forall a :: a != c.addr ==> Bal(w'.l, a) == Bal(w.l, a))
            && Bal(w'.l, c.addr).utxos == Append(Bal(w.l, c.addr).utxos, Utxo(t, i, h, c.value, c.asset))
  {
    hide Append, AddIndex;
  }

  lemma ReceiveEffect(w: Work, h: nat, t: TxId, version: int, c: Coin, i: nat)
    requires Indexable(c.addr)
    ensures var w' := Receive(w, h, t, version, c, i);
            && Recorded(w, w', h, t, c, i)
            && (forall k: Key {:trigger BalanceOf(w'.l, k)} {:trigger SentOf(w'.l, k)} :: !k.AssetKey? ==>
                  BalanceOf(w'.l, k) == BalanceOf(w.l, k) + Amount(c, k) && SentOf(w'.l, k) == SentOf(w.l, k))
            && Bal(w'.l, c.addr).utxos == Append(Bal(w.l, c.addr).utxos, Utxo(t, i, h, c.value, c.asset))
  {
    forall k { ReceiveKey(w, h, t, version, c, i, k); }
    ReceiveRest(w, h, t, version, c, i);
    var b := Bal(w.l, c.addr);
    var w' := Receive(w, h, t, version, c, i);
    forall k, x
      ensures AssetListed(AssetRowOf(w'.l, k), x) <==>
              AssetListed(AssetRowOf(w.l, k), x) || (k.height == h && x == t && CarriesAsset(c, k.guid))
    {
      ConnectAssetRow(w, h, t, version, c.addr, b.(balance := b.balance + c.value), c.asset, false, k, x);
    }
  }

  lemma SpendKey(w: Work, h: nat, t: TxId, version: int, c: Coin, op: OutPoint, i: nat, k: Key)
    requires Indexable(c.addr)
    requires forall k: Key :: !k.AssetKey? && Hits(c, k) ==> BalanceOf(w.l, k) >= Amount(c, k)
    ensures var w' := Spend(w, h, t, version, c, op, i);
            && CountOf(w'.l, k) == CountOf(w.l, k) + OneIf(Hits(c, k) && !Counted(w, h, t, k))
            && (!k.AssetKey? ==>
                  BalanceOf(w'.l, k) == BalanceOf(w.l, k) - Amount(c, k)
                      && SentOf(w'.l, k) == SentOf(w.l, k) + Amount(c, k))
  {
    hide MarkSpent, AddIndex, Listed, AssetListed, Touching, UnspentTotal;
    assert BalanceOf(w.l, AddrKey(c.addr)) >= Amount(c, AddrKey(c.addr));
    if c.asset.Some? {
      var holding := HoldingKey(c.addr, c.asset.value.guid);
      assert BalanceOf(w.l, holding) >= Amount(c, holding);
    }
  }

  lemma SpendRest(w: Work, h: nat, t: TxId, version: int, c: Coin, op: OutPoint, i: nat)
    requires Indexable(c.addr)
    ensures var w' := Spend(w, h, t, version, c, op, i);
            && w'.l.txs == w.l.txs && w'.l.blockTxs == w.l.blockTxs && w'.l.heights == w.l.heights
            && w'.l.rows == w.l.rows[AddrRow(c.addr, h) := AddIndex(RowOf(w.l, AddrRow(c.addr, h)), t, -1 - i)]
            && (forall m :: m in w'.moved
                 <==> m in w.moved || (m.txid == t && m.addr == c.addr && CarriesAsset(c, m.guid)))
            && w'.l.bals.Keys == w.l.bals.Keys + {c.addr}
            && (forall a :: a != c.addr ==> Bal(w'.l, a) == Bal(w.l, a))
            && Bal(w'.l, c.addr).utxos == MarkSpent(Bal(w.l, c.addr).utxos, op.txid, op.vout)
  {
  }

  lemma SpendEffect(w: Work, h: nat, t: TxId, version: int, c: Coin, op: OutPoint, i: nat)
    requires Indexable(c.addr)
    requires forall k: Key :: !k.AssetKey? && Hits(c, k) ==> BalanceOf(w.l, k) >= Amount(c, k)
    ensures var w' := Spend(w, h, t, version, c, op, i);
            && Recorded(w, w', h, t, c, -1 - i)
            && (forall k: Key {:trigger BalanceOf(w'.l, k)} {:trigger SentOf(w'.l, k)} :: !k.AssetKey? ==>
                  BalanceOf(w'.l, k) == BalanceOf(w.l, k) - Amount(c, k)
                      && SentOf(w'.l, k) == SentOf(w.l, k) + Amount(c, k))
            && Bal(w'.l, c.addr).utxos == MarkSpent(Bal(w.l, c.addr).utxos, op.txid, op.vout)
  {
    forall k { SpendKey(w, h, t, version, c, op, i, k); }
    SpendRest(w, h, t, version, c, op, i);
    var w' := Spend(w, h, t, version, c, op, i);
    forall k, x
      ensures AssetListed(AssetRowOf(w'.l, k), x) <==>
              AssetListed(AssetRowOf(w.l, k), x) || (k.height == h && x == t && CarriesAsset(c, k.guid))
    {
      ConnectAssetRow(w, h, t, version, c.addr, Bal(w.l, c.addr), c.asset, true, k, x);
    }
  }

  // ---------------------------------------------------------------- counters and rows under one more coin

  lemma CountedIsHit(w: Work, txs: TxColumn, h: nat, t: TxId, k: Key)
    requires RowsOk(w.l, txs) && AssetRowsOk(w.l, txs) && MovedOk(w.moved, txs, h)
    requires t in txs && txs[t].height == h && Countable(k)
    ensures Counted(w, h, t, k) <==> TxHits(txs[t], k)
  {
    match k
    case AddrKey(a) =>
      assert RowOk(RowOf(w.l, AddrRow(a, h)), txs, a, h);
    case HoldingKey(a, g) =>
    case AssetKey(g) =>
      assert AssetListed(AssetRowOf(w.l, AssetRow(g, h)), t) <==> TxHits(txs[t], k);
  }

  lemma CountsStep(w: Work, w': Work, txs: TxColumn, now: TxColumn, h: nat, t: TxId, c: Coin, index: int)
    requires CountsOk(w.l, txs) && RowsOk(w.l, txs) && AssetRowsOk(w.l, txs) && MovedOk(w.moved, txs, h)
    requires CoinAdded(txs, now, t, c) && txs[t].height == h
    requires Recorded(w, w', h, t, c, index)
    ensures CountsOk(w'.l, now)
  {
    forall k | Countable(k) ensures CountOf(w'.l, k) == |Touching(now, k)| {
      CountedIsHit(w, txs, h, t, k);
      TouchingGrows(txs, now, t, c, k);
    }
  }

  lemma FindEntryUnique(row: seq<TxIndexes>, i: nat)
    requires DistinctTxids(row) && i < |row|
    ensures FindEntry(row, row[i].txid, 0) == i
  {
  }

  lemma AddIndexListed(row: seq<TxIndexes>, t: TxId, index: int, x: TxId)
    ensures Listed(AddIndex(row, t, index), x) <==> Listed(row, x) || x == t
  {
    var r := AddIndex(row, t, index);
    var i := FindEntry(row, t, 0);
    var p, q := FindEntry(row, x, 0), FindEntry(r, x, 0);
    assert |r| >= |row| && forall m :: 0 <= m < |row| ==> r[m].txid == row[m].txid;
    if i < |row| { assert r[i].txid == t; } else { assert r[|row|].txid == t; }
    if p < |row| { assert r[p].txid == x; }
    if q < |r| { assert q < |row| ==> row[q].txid == x; }
  }

  lemma RowStepEntries(row: seq<TxIndexes>, txs: TxColumn, now: TxColumn, h: nat, t: TxId, c: Coin, index: int)
    requires RowOk(row, txs, c.addr, h) && Indexable(c.addr)
    requires CoinAdded(txs, now, t, c) && IndexAdded(txs, now, t, c, index) && txs[t].height == h
    requires !TxHits(txs[t], AddrKey(c.addr)) ==> Indexes(txs[t], c.addr) == []
    ensures var r := AddIndex(row, t, index);
            forall m :: 0 <= m < |r| ==> r[m].txid in now && r[m].indexes == Indexes(now[r[m].txid], c.addr)
  {
    var r := AddIndex(row, t, index);
    var i := FindEntry(row, t, 0);
    assert Listed(row, t) <==> TxHits(txs[t], AddrKey(c.addr));
    hide TxHits, Indexes;
    forall m | 0 <= m < |r| ensures r[m].txid in now && r[m].indexes == Indexes(now[r[m].txid], c.addr) {
      if m < |row| && m != i {
        assert r[m] == row[m];
        assert row[m].txid != t;
      }
    }
  }

  lemma RowStep(row: seq<TxIndexes>, txs: TxColumn, now: TxColumn, h: nat, t: TxId, c: Coin, index: int)
    requires RowOk(row, txs, c.addr, h) && Indexable(c.addr)
    requires CoinAdded(txs, now, t, c) && IndexAdded(txs, now, t, c, index) && txs[t].height == h
    requires !TxHits(txs[t], AddrKey(c.addr)) ==> Indexes(txs[t], c.addr) == []
    ensures RowOk(AddIndex(row, t, index), now, c.addr, h)
  {
    hide TxHits, Indexes, AddIndex, Listed, CoinAdded, DistinctTxids;
    var r := AddIndex(row, t, index);
    RowStepEntries(row, txs, now, h, t, c, index);
    forall x ensures Listed(r, x) <==> x in now && now[x].height == h && TxHits(now[x], AddrKey(c.addr)) {
      AddIndexListed(row, t, index, x);
      HitsStep(txs, now, t, c, h, x);
      assert Listed(row, x) <==> x in txs && txs[x].height == h && TxHits(txs[x], AddrKey(c.addr));
    }
    AddIndexDistinct(row, t, index);
  }

  lemma HitsStep(txs: TxColumn, now: TxColumn, t: TxId, c: Coin, h: nat, x: TxId)
    requires CoinAdded(txs, now, t, c) && txs[t].height == h && Indexable(c.addr)
    ensures x in now && now[x].height == h && TxHits(now[x], AddrKey(c.addr))
            <==> (x in txs && txs[x].height == h && TxHits(txs[x], AddrKey(c.addr))) || x == t
  {
    hide TxHits;
    assert x in txs ==> (TxHits(now[x], AddrKey(c.addr)) <==> TxHits(txs[x], AddrKey(c.addr)) || x == t);
  }

  lemma AddIndexDistinct(row: seq<TxIndexes>, t: TxId, index: int)
    requires DistinctTxids(row)
    ensures DistinctTxids(AddIndex(row, t, index))
  {
    var r := AddIndex(row, t, index);
    forall p, q | 0 <= p < q < |r| ensures r[p].txid != r[q].txid {
      if q < |row| { assert row[p].txid != row[q].txid; }
    }
  }

  /** A row of another address or height is not affected. */
  lemma OtherRow(row: seq<TxIndexes>, txs: TxColumn, now: TxColumn, a: AddrDesc, h: nat, t: TxId, c: Coin, index: int)
    requires RowOk(row, txs, a, h) && Indexable(a)
    requires CoinAdded(txs, now, t, c) && IndexAdded(txs, now, t, c, index)
    requires a != c.addr || txs[t].height != h
    ensures RowOk(row, now, a, h)
  {
    forall m | 0 <= m < |row| ensures row[m].txid in now && row[m].indexes == Indexes(now[row[m].txid], a) {
      var x := row[m].txid;
      FindEntryUnique(row, m);
      assert Listed(row, x);
      assert txs[x].height == h;
      assert Indexes(now[x], a) == Indexes(txs[x], a) + if x == t && a == c.addr then [index] else [];
    }
    forall x ensures Listed(row, x) <==> x in now && now[x].height == h && TxHits(now[x], AddrKey(a)) {
      assert Listed(row, x) <==> x in txs && txs[x].height == h && TxHits(txs[x], AddrKey(a));
      assert x in txs ==>
          (TxHits(now[x], AddrKey(a)) <==> TxHits(txs[x], AddrKey(a)) || (x == t && Hits(c, AddrKey(a))));
    }
  }

  lemma {:induction false} OutputIndexesNone(outs: seq<TxOutput>, a: AddrDesc)
    requires Indexable(a) && !OutputsHit(outs, AddrKey(a))
    ensures OutputIndexes(outs, a) == []
  {
    if outs != [] { OutputIndexesNone(outs[..|outs| - 1], a); }
  }

  lemma {:induction false} InputIndexesNone(ins: seq<TxInput>, a: AddrDesc)
    requires Indexable(a) && !InputsHit(ins, AddrKey(a))
    ensures InputIndexes(ins, a) == []
  {
    if ins != [] { InputIndexesNone(ins[..|ins| - 1], a); }
  }

  lemma RowsStep(w: Work, w': Work, txs: TxColumn, now: TxColumn, h: nat, t: TxId, c: Coin, index: int)
    requires RowsOk(w.l, txs) && Indexable(c.addr)
    requires CoinAdded(txs, now, t, c) && IndexAdded(txs, now, t, c, index) && txs[t].height == h
    requires Recorded(w, w', h, t, c, index)
    ensures RowsOk(w'.l, now)
  {
    var key := AddrRow(c.addr, h);
    if !TxHits(txs[t], AddrKey(c.addr)) {
      OutputIndexesNone(txs[t].outputs, c.addr);
      InputIndexesNone(txs[t].inputs, c.addr);
    }
    forall k: AddrRow | Indexable(k.addr) ensures RowOk(RowOf(w'.l, k), now, k.addr, k.height) {
      assert RowOk(RowOf(w.l, k), txs, k.addr, k.height);
      if k == key {
        RowStep(RowOf(w.l, k), txs, now, h, t, c, index);
      } else {
        assert RowOf(w'.l, k) == RowOf(w.l, k);
        OtherRow(RowOf(w.l, k), txs, now, k.addr, k.height, t, c, index);
      }
    }
  }

  lemma AssetRowsStep(w: Work, w': Work, txs: TxColumn, now: TxColumn, h: nat, t: TxId, c: Coin, index: int)
    requires AssetRowsOk(w.l, txs) && MovedOk(w.moved, txs, h) && Indexable(c.addr)
    requires CoinAdded(txs, now, t, c) && txs[t].height == h
    requires Recorded(w, w', h, t, c, index)
    ensures AssetRowsOk(w'.l, now) && MovedOk(w'.moved, now, h)
  {
    forall k, x
      ensures AssetListed(AssetRowOf(w'.l, k), x)
              <==> x in now && now[x].height == k.height && TxHits(now[x], AssetKey(k.guid))
    {
      assert AssetListed(AssetRowOf(w.l, k), x)
          <==> x in txs && txs[x].height == k.height && TxHits(txs[x], AssetKey(k.guid));
      assert x in txs ==>
          (TxHits(now[x], AssetKey(k.guid))
           <==> TxHits(txs[x], AssetKey(k.guid)) || (x == t && Hits(c, AssetKey(k.guid))));
    }
    forall g, x, a | Indexable(a)
      ensures Moved(g, x, a) in w'.moved <==> x in now && now[x].height == h && TxHits(now[x], HoldingKey(a, g))
    {
      assert x in txs ==>
          (TxHits(now[x], HoldingKey(a, g))
           <==> TxHits(txs[x], HoldingKey(a, g)) || (x == t && Hits(c, HoldingKey(a, g))));
    }
  }

  lemma PresenceStep(w: Work, w': Work, h: nat, t: TxId, c: Coin, index: int, now: TxColumn)
    requires PresenceOk(w.l) && Indexable(c.addr) && Recorded(w, w', h, t, c, index)
    requires CountsOk(w'.l, now) && t in now && TxHits(now[t], AddrKey(c.addr))
    ensures PresenceOk(w'.l)
  {
    forall a | a in w'.l.bals ensures Indexable(a) && w'.l.bals[a].txs > 0 {
      if a == c.addr {
        assert CountOf(w'.l, AddrKey(a)) == |Touching(now, AddrKey(a))|;
        assert t in Touching(now, AddrKey(a));
      } else {
        assert Bal(w'.l, a) == Bal(w.l, a);
      }
    }
  }

  // ---------------------------------------------------------------- steps without effect on any indexed address

  /** `now` says of every key and address what `was` says. */
  ghost predicate Neutral(was: TxColumn, now: TxColumn) {
    && was.Keys <= now.Keys
    && (forall x :: x in was ==> now[x].height == was[x].height)
    && (forall x, k {:trigger TxHits(now[x], k)} :: x in now && Countable(k) ==>
         (TxHits(now[x], k) <==> x in was && TxHits(was[x], k)))
    && (forall x, a {:trigger Indexes(now[x], a)} :: x in was && Indexable(a) ==>
         Indexes(now[x], a) == Indexes(was[x], a))
    && (forall k: Key {:trigger UnspentTotal(now, k)} :: !k.AssetKey? && Indexable(k.addr) ==>
         UnspentTotal(now, k) == UnspentTotal(was, k))
    && (forall k: Key {:trigger SpentTotal(now, k)} :: !k.AssetKey? && Indexable(k.addr) ==>
         SpentTotal(now, k) == SpentTotal(was, k))
    && (forall a, u {:trigger IsUnspent(now, a, u)} :: Indexable(a) ==>
         (IsUnspent(now, a, u) <==> IsUnspent(was, a, u)))
  }

  lemma NeutralRow(row: seq<TxIndexes>, was: TxColumn, now: TxColumn, a: AddrDesc, h: nat)
    requires RowOk(row, was, a, h) && Neutral(was, now) && Indexable(a)
    ensures RowOk(row, now, a, h)
  {
    forall m | 0 <= m < |row| ensures row[m].txid in now && row[m].indexes == Indexes(now[row[m].txid], a) {
      assert Indexes(now[row[m].txid], a) == Indexes(was[row[m].txid], a);
    }
    forall x ensures Listed(row, x) <==> x in now && now[x].height == h && TxHits(now[x], AddrKey(a)) {
      assert Listed(row, x) <==> x in was && was[x].height == h && TxHits(was[x], AddrKey(a));
      assert x in now ==> (TxHits(now[x], AddrKey(a)) <==> x in was && TxHits(was[x], AddrKey(a)));
    }
  }

  lemma NeutralRows(w: Work, now: TxColumn, h: nat)
    requires WorkInv(w, h) && Neutral(w.l.txs, now)
    ensures var l := w.l.(txs := now); RowsOk(l, now) && AssetRowsOk(l, now) && MovedOk(w.moved, now, h)
  {
    var l := w.l.(txs := now);
    forall k: AddrRow | Indexable(k.addr) ensures RowOk(RowOf(l, k), now, k.addr, k.height) {
      assert RowOf(l, k) == RowOf(w.l, k);
      assert RowOk(RowOf(w.l, k), w.l.txs, k.addr, k.height);
      NeutralRow(RowOf(l, k), w.l.txs, now, k.addr, k.height);
    }
    forall k, x
      ensures AssetListed(AssetRowOf(l, k), x)
              <==> x in now && now[x].height == k.height && TxHits(now[x], AssetKey(k.guid))
    {
      assert AssetRowOf(l, k) == AssetRowOf(w.l, k);
      assert AssetListed(AssetRowOf(w.l, k), x) <==>
             x in w.l.txs && w.l.txs[x].height == k.height && TxHits(w.l.txs[x], AssetKey(k.guid));
      assert x in now ==> (TxHits(now[x], AssetKey(k.guid)) <==> x in w.l.txs && TxHits(w.l.txs[x], AssetKey(k.guid)));
    }
    forall g, x, a | Indexable(a)
      ensures Moved(g, x, a) in w.moved <==> x in now && now[x].height == h && TxHits(now[x], HoldingKey(a, g))
    {
      assert x in now ==> (TxHits(now[x], HoldingKey(a, g)) <==> x in w.l.txs && TxHits(w.l.txs[x], HoldingKey(a, g)));
    }
  }

  lemma NeutralKeeps(w: Work, now: TxColumn, h: nat)
    requires WorkInv(w, h) && Neutral(w.l.txs, now)
    ensures WorkInv(w.(l := w.l.(txs := now)), h)
  {
    var l := w.l.(txs := now);
    NeutralRows(w, now, h);
    assert CountsOk(l, now) by {
      forall k | Countable(k) ensures CountOf(l, k) == |Touching(now, k)| {
        assert Touching(now, k) == Touching(w.l.txs, k);
        assert CountOf(l, k) == CountOf(w.l, k);
      }
    }
    assert AmountsOk(l, now) by {
      forall k: Key | !k.AssetKey? && Indexable(k.addr)
        ensures BalanceOf(l, k) == UnspentTotal(now, k) && SentOf(l, k) == SpentTotal(now, k)
      {
        assert BalanceOf(l, k) == BalanceOf(w.l, k) && SentOf(l, k) == SentOf(w.l, k);
      }
    }
    assert ListsOk(l, now) by {
      forall a | Indexable(a) ensures ListOk(Bal(l, a).utxos, now, a) {
        assert ListOk(Bal(w.l, a).utxos, w.l.txs, a);
      }
    }
  }

  // ---------------------------------------------------------------- UTXO lists under one more coin

  /** Every list has its slots of `t`, if any, at the end. */
  ghost predicate Tail(l: Ledger, t: TxId) {
    forall a :: Indexable(a) ==> TailOf(Bal(l, a).utxos.slots, t)
  }

  ghost predicate TailOf(s: seq<Utxo>, t: TxId) {
    forall i :: 0 <= i < |s| && s[i].txid == t ==> s[|s| - 1].txid == t
  }

  lemma OutputUnspent(txs: TxColumn, t: TxId, i: nat, c: Coin, a: AddrDesc, u: Utxo)
    requires t in txs && i < |txs[t].outputs| && txs[t].outputs[i] == NoOutput && Indexable(a)
    ensures IsUnspent(SetOutput(txs, t, i, TxOutput(c, false, None)), a, u)
       <==> IsUnspent(txs, a, u) || (a == c.addr && u == Utxo(t, i, txs[t].height, c.value, c.asset))
  {
  }

  lemma ReceiveList(list: UtxoList, txs: TxColumn, t: TxId, i: nat, c: Coin)
    requires Indexable(c.addr) && ListOk(list, txs, c.addr) && TailOf(list.slots, t)
    requires t in txs && i < |txs[t].outputs|
    requires forall x :: i <= x < |txs[t].outputs| ==> txs[t].outputs[x] == NoOutput
    ensures var u := Utxo(t, i, txs[t].height, c.value, c.asset);
            ListOk(Append(list, u), SetOutput(txs, t, i, TxOutput(c, false, None)), c.addr)
                && TailOf(Append(list, u).slots, t)
  {
    var u := Utxo(t, i, txs[t].height, c.value, c.asset);
    var s := list.slots;
    forall x | 0 <= x < |s| && s[x].txid == t ensures s[x].vout < i {
      if s[x].vout >= 0 {
        assert s[x] in LiveSet(s);
        assert IsUnspent(txs, c.addr, s[x]);
      }
    }
    AppendKeepsValid(list, u);
    AppendLive(list, u);
    forall v
      ensures v in LiveSet(Append(list, u).slots)
              <==> IsUnspent(SetOutput(txs, t, i, TxOutput(c, false, None)), c.addr, v)
    {
      OutputUnspent(txs, t, i, c, c.addr, v);
    }
  }

  lemma SpendUnspent(txs: TxColumn, op: OutPoint, t: TxId, i: nat, o: TxOutput, input: TxInput, a: AddrDesc, u: Utxo)
    requires SpendReady(txs, op, t, i, o, input) && Indexable(a)
    ensures IsUnspent(SpendColumn(txs, op, t, i, o, input), a, u)
       <==> IsUnspent(txs, a, u) && !(u.txid == op.txid && u.vout == op.vout)
  {
    var mid := SetOutput(txs, op.txid, op.vout, o);
    assert IsUnspent(mid, a, u) <==> IsUnspent(txs, a, u) && !(u.txid == op.txid && u.vout == op.vout);
  }

  lemma SpendList(list: UtxoList, txs: TxColumn, op: OutPoint, t: TxId, i: nat, o: TxOutput, input: TxInput)
    requires SpendReady(txs, op, t, i, o, input) && Indexable(o.coin.addr) && ListOk(list, txs, o.coin.addr)
    ensures ListOk(MarkSpent(list, op.txid, op.vout), SpendColumn(txs, op, t, i, o, input), o.coin.addr)
  {
    var u := Utxo(op.txid, op.vout, txs[op.txid].height, o.coin.value, o.coin.asset);
    assert IsUnspent(txs, o.coin.addr, u);
    MarkSpentLive(list, u);
    TombstoneKeepsValid(list, SpendSlot(list, op.txid, op.vout));
    var now := SpendColumn(txs, op, t, i, o, input);
    forall v ensures v in LiveSet(MarkSpent(list, op.txid, op.vout).slots) <==> IsUnspent(now, o.coin.addr, v) {
      SpendUnspent(txs, op, t, i, o, input, o.coin.addr, v);
    }
  }
}
