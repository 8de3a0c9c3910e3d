// Whole runs: after any sequence of connects and reorgs the index is the one obtained by
// connecting the surviving blocks from scratch.
module LedgerRuns {
  import opened Types
  import opened UtxoIndex
  import opened LedgerModel
  import opened LedgerInvariant
  import opened LedgerConnect
  import opened LedgerBlock
  import opened LedgerUndo
  import opened LedgerUndoSteps
  import opened LedgerUndoBlock
  import opened LedgerFinish
  import opened LedgerTheorems

  // ---------------------------------------------------------------- the column determines the rest

  lemma {:induction false} SameUnspentIn(outs: seq<TxOutput>, outs': seq<TxOutput>, k: Key)
    requires |outs| == |outs'| && forall i :: 0 <= i < |outs| ==> SameOutputs(outs[i], outs'[i])
    ensures UnspentIn(outs, k) == UnspentIn(outs', k)
  {
    if outs != [] { SameUnspentIn(outs[..|outs| - 1], outs'[..|outs'| - 1], k); }
  }

  lemma SameTotals(txs: TxColumn, txs': TxColumn, k: Key)
    requires SameColumn(txs, txs')
    ensures UnspentTotal(txs, k) == UnspentTotal(txs', k) && SpentTotal(txs, k) == SpentTotal(txs', k)
  {
    hide UnspentIn, SpentIn;
    forall t | t in txs
      ensures UnspentPerTx(txs, k)[t] == UnspentPerTx(txs', k)[t] && SpentPerTx(txs, k)[t] == SpentPerTx(txs', k)[t]
    {
      assert SameTx(txs[t], txs'[t]);
      SameUnspentIn(txs[t].outputs, txs'[t].outputs, k);
    }
    assert UnspentPerTx(txs, k) == UnspentPerTx(txs', k);
    assert SpentPerTx(txs, k) == SpentPerTx(txs', k);
  }

  lemma SameHits(ta: TxAddresses, ta': TxAddresses, k: Key)
    requires SameTx(ta, ta')
    ensures TxHits(ta, k) <==> TxHits(ta', k)
  {
    SameCoinsHit(ta.outputs, ta'.outputs, k);
  }

  lemma SameTouching(txs: TxColumn, txs': TxColumn, k: Key)
    requires SameColumn(txs, txs')
    ensures Touching(txs, k) == Touching(txs', k)
  {
    forall t | t in txs ensures TxHits(txs[t], k) <==> TxHits(txs'[t], k) {
      assert SameTx(txs[t], txs'[t]);
      SameHits(txs[t], txs'[t], k);
    }
  }

  lemma SameUnspent(txs: TxColumn, txs': TxColumn, a: AddrDesc, u: Utxo)
    requires SameColumn(txs, txs') && Indexable(a)
    ensures IsUnspent(txs, a, u) <==> IsUnspent(txs', a, u)
  {
    if u.txid in txs {
      assert SameTx(txs[u.txid], txs'[u.txid]);
      if 0 <= u.vout < |txs[u.txid].outputs| {
        assert SameOutputs(txs[u.txid].outputs[u.vout], txs'[u.txid].outputs[u.vout]);
      }
    }
  }

  /** Two ledgers that answer every question alike; lists may differ in order, rows in the order of transactions. */
  ghost predicate SameIndex(l: Ledger, l': Ledger) {
    && SameColumn(l.txs, l'.txs)
    && (forall k: Key {:trigger BalanceOf(l', k)} {:trigger SentOf(l', k)} :: !k.AssetKey? && Indexable(k.addr) ==>
          BalanceOf(l', k) == BalanceOf(l, k) && SentOf(l', k) == SentOf(l, k))
    && (forall k {:trigger CountOf(l', k)} :: Countable(k) ==> CountOf(l', k) == CountOf(l, k))
    && l'.bals.Keys == l.bals.Keys
    && (forall a :: Indexable(a) ==> LiveSet(Bal(l', a).utxos.slots) == LiveSet(Bal(l, a).utxos.slots))
    && (forall k: AddrRow, e :: Indexable(k.addr) ==> (e in RowOf(l', k) <==> e in RowOf(l, k)))
    && (forall k, t :: AssetListed(AssetRowOf(l', k), t) <==> AssetListed(AssetRowOf(l, k), t))
  }

  lemma ListedEntry(row: seq<TxIndexes>, txs: TxColumn, a: AddrDesc, h: nat, e: TxIndexes)
    requires RowOk(row, txs, a, h)
    ensures e in row
            <==> e.txid in txs && txs[e.txid].height == h && TxHits(txs[e.txid], AddrKey(a))
                 && e.indexes == Indexes(txs[e.txid], a)
  {
    if e in row {
      var i :| 0 <= i < |row| && row[i] == e;
      FindEntryUnique(row, i);
      assert Listed(row, e.txid);
    }
    if e.txid in txs && txs[e.txid].height == h && TxHits(txs[e.txid], AddrKey(a)) {
      assert Listed(row, e.txid);
      var i := FindEntry(row, e.txid, 0);
      assert row[i] in row;
    }
  }

  lemma SameRow(l: Ledger, l': Ledger, k: AddrRow, e: TxIndexes)
    requires RowsOk(l, l.txs) && RowsOk(l', l'.txs) && SameColumn(l.txs, l'.txs) && Indexable(k.addr)
    ensures e in RowOf(l', k) <==> e in RowOf(l, k)
  {
    assert RowOk(RowOf(l, k), l.txs, k.addr, k.height) && RowOk(RowOf(l', k), l'.txs, k.addr, k.height);
    ListedEntry(RowOf(l, k), l.txs, k.addr, k.height, e);
    ListedEntry(RowOf(l', k), l'.txs, k.addr, k.height, e);
    if e.txid in l.txs {
      assert SameTx(l.txs[e.txid], l'.txs[e.txid]);
      SameHits(l.txs[e.txid], l'.txs[e.txid], AddrKey(k.addr));
      SameCoinsIndexes(l.txs[e.txid].outputs, l'.txs[e.txid].outputs, k.addr);
    }
  }

  lemma SameAssetRow(l: Ledger, l': Ledger, k: AssetRow, t: TxId)
    requires AssetRowsOk(l, l.txs) && AssetRowsOk(l', l'.txs) && SameColumn(l.txs, l'.txs)
    ensures AssetListed(AssetRowOf(l', k), t) <==> AssetListed(AssetRowOf(l, k), t)
  {
    if t in l.txs {
      assert SameTx(l.txs[t], l'.txs[t]);
      SameHits(l.txs[t], l'.txs[t], AssetKey(k.guid));
    }
    assert AssetListed(AssetRowOf(l, k), t)
        <==> t in l.txs && l.txs[t].height == k.height && TxHits(l.txs[t], AssetKey(k.guid));
    assert AssetListed(AssetRowOf(l', k), t)
        <==> t in l'.txs && l'.txs[t].height == k.height && TxHits(l'.txs[t], AssetKey(k.guid));
  }

  lemma SamePresence(l: Ledger, l': Ledger, a: AddrDesc)
    requires Inv(l) && Inv(l') && SameColumn(l.txs, l'.txs) && a in l.bals
    ensures a in l'.bals
  {
    SameTouching(l.txs, l'.txs, AddrKey(a));
    assert CountOf(l, AddrKey(a)) == |Touching(l.txs, AddrKey(a))|;
    assert CountOf(l', AddrKey(a)) == |Touching(l'.txs, AddrKey(a))|;
  }

  lemma SameColumnSym(txs: TxColumn, txs': TxColumn)
    requires SameColumn(txs, txs')
    ensures SameColumn(txs', txs)
  {
    forall t | t in txs' ensures SameTx(txs'[t], txs[t]) {
      assert SameTx(txs[t], txs'[t]);
      forall i | 0 <= i < |txs[t].outputs| ensures SameOutputs(txs'[t].outputs[i], txs[t].outputs[i]) {
        assert SameOutputs(txs[t].outputs[i], txs'[t].outputs[i]);
      }
    }
  }

  lemma SameColumnTrans(x: TxColumn, y: TxColumn, z: TxColumn)
    requires SameColumn(x, y) && SameColumn(y, z)
    ensures SameColumn(x, z)
  {
    forall t | t in x ensures SameTx(x[t], z[t]) {
      assert SameTx(x[t], y[t]) && SameTx(y[t], z[t]);
      forall i | 0 <= i < |x[t].outputs| ensures SameOutputs(x[t].outputs[i], z[t].outputs[i]) {
        assert SameOutputs(x[t].outputs[i], y[t].outputs[i]) && SameOutputs(y[t].outputs[i], z[t].outputs[i]);
      }
    }
  }

  lemma InvDeterminesAmounts(l: Ledger, l': Ledger)
    requires Inv(l) && Inv(l') && SameColumn(l.txs, l'.txs)
    ensures forall k: Key {:trigger BalanceOf(l', k)} {:trigger SentOf(l', k)} :: !k.AssetKey? && Indexable(k.addr) ==>
              BalanceOf(l', k) == BalanceOf(l, k) && SentOf(l', k) == SentOf(l, k)
    ensures forall k {:trigger CountOf(l', k)} :: Countable(k) ==> CountOf(l', k) == CountOf(l, k)
  {
    forall k: Key | !k.AssetKey? && Indexable(k.addr)
      ensures BalanceOf(l', k) == BalanceOf(l, k) && SentOf(l', k) == SentOf(l, k)
    {
      SameTotals(l.txs, l'.txs, k);
    }
    forall k | Countable(k) ensures CountOf(l', k) == CountOf(l, k) {
      SameTouching(l.txs, l'.txs, k);
      assert CountOf(l, k) == |Touching(l.txs, k)|;
    }
  }

  /** The invariant leaves no freedom: two ledgers over the same transactions say the same. */
  lemma InvDetermines(l: Ledger, l': Ledger)
    requires Inv(l) && Inv(l') && SameColumn(l.txs, l'.txs)
    ensures SameIndex(l, l')
  {
    InvDeterminesAmounts(l, l');
    SameColumnSym(l.txs, l'.txs);
    forall a ensures a in l'.bals <==> a in l.bals {
      if a in l.bals { SamePresence(l, l', a); }
      if a in l'.bals { SamePresence(l', l, a); }
    }
    forall a | Indexable(a) ensures LiveSet(Bal(l', a).utxos.slots) == LiveSet(Bal(l, a).utxos.slots) {
      assert ListOk(Bal(l, a).utxos, l.txs, a) && ListOk(Bal(l', a).utxos, l'.txs, a);
      forall u ensures u in LiveSet(Bal(l', a).utxos.slots) <==> u in LiveSet(Bal(l, a).utxos.slots) {
        SameUnspent(l.txs, l'.txs, a, u);
      }
    }
    forall k: AddrRow, e | Indexable(k.addr) ensures e in RowOf(l', k) <==> e in RowOf(l, k) {
      SameRow(l, l', k, e);
    }
    forall k, t ensures AssetListed(AssetRowOf(l', k), t) <==> AssetListed(AssetRowOf(l, k), t) {
      SameAssetRow(l, l', k, t);
    }
  }

  // ---------------------------------------------------------------- one block there and back

  lemma {:induction false} DistinctOutpoints(s: seq<Utxo>, u: Utxo)
    requires LiveAscending(s) && AllLive(s)
    ensures multiset(s)[u] == if u in s then 1 else 0
  {
    if s != [] {
      var n := |s| - 1;
      DistinctOutpoints(s[..n], u);
      assert s == s[..n] + [s[n]];
      assert forall i :: 0 <= i < n && s[i].txid == s[n].txid ==> s[i].vout < s[n].vout;
    }
  }

  /** Stored lists with the same outputs are permutations of each other. */
  lemma SameOutputsPermuted(s: seq<Utxo>, s': seq<Utxo>)
    requires LiveAscending(s) && AllLive(s) && LiveAscending(s') && AllLive(s') && LiveSet(s) == LiveSet(s')
    ensures multiset(s) == multiset(s')
  {
    forall u ensures multiset(s)[u] == multiset(s')[u] {
      DistinctOutpoints(s, u);
      DistinctOutpoints(s', u);
      assert u in s <==> u in LiveSet(s);
      assert u in s' <==> u in LiveSet(s');
    }
  }

  /** Everything a disconnect gives back of a connect: `now` is the ledger after both. */
  ghost predicate Restored(l: Ledger, now: Ledger) {
    && SameIndex(l, now)
    && (forall a :: Indexable(a) ==>
          && multiset(Bal(now, a).utxos.slots) == multiset(Bal(l, a).utxos.slots)
          && SortedByHeight(Bal(now, a).utxos.slots) && SortedByHeight(Bal(l, a).utxos.slots))
    && now.rows == l.rows
    && (forall k {:trigger AssetRowOf(now, k)} :: AssetRowOf(now, k) == AssetRowOf(l, k))
    && now.blockTxs == l.blockTxs && now.heights == l.heights
  }

  lemma EmptyRowAt(l: Ledger, k: AddrRow)
    requires RowsOk(l, l.txs) && NewHeight(l.txs, k.height) && Indexable(k.addr)
    ensures RowOf(l, k) == []
  {
    var row := RowOf(l, k);
    assert RowOk(row, l.txs, k.addr, k.height);
    assert row != [] ==> Listed(row, row[0].txid);
  }

  lemma EmptyAssetRowAt(l: Ledger, k: AssetRow)
    requires AssetRowsOk(l, l.txs) && forall t :: t in l.txs ==> l.txs[t].height != k.height
    ensures AssetRowOf(l, k) == []
  {
    var row := AssetRowOf(l, k);
    assert row != [] ==> AssetListed(row, row[0].txid);
    assert forall t :: !AssetListed(AssetRowOf(l, k), t);
  }

  lemma RowsRestored(l: Ledger, mid: Ledger, now: Ledger, h: nat)
    requires RowsOk(l, l.txs) && RowsOk(now, now.txs) && NewHeight(l.txs, h)
    requires forall k: AddrRow :: k.height != h ==> RowOf(mid, k) == RowOf(l, k)
    requires RowsTakenOut(mid, now, h)
    ensures now.rows == l.rows
  {
    hide RowOk, Indexable;
    forall k: AddrRow | Indexable(k.addr) ensures RowOf(now, k) == RowOf(l, k) {
      assert RowOf(now, k) == if k.height == h then [] else RowOf(mid, k);
      if k.height == h { EmptyRowAt(l, k); }
    }
    forall k ensures k in now.rows <==> k in l.rows {
      assert RowOf(now, k) != [] ==> k in now.rows;
      assert RowOf(l, k) != [] ==> k in l.rows;
    }
    forall k | k in l.rows ensures now.rows[k] == l.rows[k] {
      assert RowOf(now, k) == RowOf(l, k);
    }
  }

  lemma ConnectRows(l: Ledger, ext: bool, b: Block)
    requires Inv(l) && Stored(l) && NewHeight(l.txs, b.height)
    ensures var mid := ConnectBlock(l, ext, b);
            && (forall k: AddrRow :: k.height != b.height ==> RowOf(mid, k) == RowOf(l, k))
            && (forall k: AssetRow :: k.height != b.height ==> AssetRowOf(mid, k) == AssetRowOf(l, k))
  {
    ConnectStored(l, ext, b);
    var p, mid := Process(l, ext, b), ConnectBlock(l, ext, b);
    forall k: AddrRow | k.height != b.height ensures RowOf(mid, k) == RowOf(l, k) {
      assert RowOf(mid, k) == RowOf(p, k);
    }
    forall k: AssetRow | k.height != b.height ensures AssetRowOf(mid, k) == AssetRowOf(l, k) {
      assert AssetRowOf(mid, k) == AssetRowOf(p, k);
    }
  }

  lemma ListsRestored(l: Ledger, now: Ledger)
    requires Inv(l) && Inv(now) && Stored(l) && Stored(now) && SameIndex(l, now)
    ensures forall a :: Indexable(a) ==>
              && multiset(Bal(now, a).utxos.slots) == multiset(Bal(l, a).utxos.slots)
              && SortedByHeight(Bal(now, a).utxos.slots) && SortedByHeight(Bal(l, a).utxos.slots)
  {
    forall a | Indexable(a)
      ensures multiset(Bal(now, a).utxos.slots) == multiset(Bal(l, a).utxos.slots)
      ensures SortedByHeight(Bal(now, a).utxos.slots) && SortedByHeight(Bal(l, a).utxos.slots)
    {
      assert ListOk(Bal(l, a).utxos, l.txs, a) && ListOk(Bal(now, a).utxos, now.txs, a);
      assert ListStored(Bal(l, a).utxos) && ListStored(Bal(now, a).utxos);
      SameOutputsPermuted(Bal(l, a).utxos.slots, Bal(now, a).utxos.slots);
    }
  }

  lemma ThereAndBack(l: Ledger, ext: bool, b: Block) returns (mid: Ledger, now: Ledger)
    requires Good(l) && ValidBlock(l.txs, b) && b.txs != []
    requires b.height !in l.blockTxs && b.height !in l.heights
    ensures mid == ConnectBlock(l, ext, b) && Disconnect(mid, b.height) == Some(now) && Good(now)
    ensures Extends(l.txs, mid.txs, b, ext) && TakenOut(mid.txs, now.txs, b) && RowsTakenOut(mid, now, b.height)
    ensures now.blockTxs == l.blockTxs && now.heights == l.heights
  {
    hide Good, Extends, TakenOut, ValidBlock, BlockOnTop, ConnectBlock, Disconnect;
    mid := ConnectBlock(l, ext, b);
    ConnectKeepsGood(l, ext, b);
    DisconnectKeepsGood(mid, b);
    now := Disconnect(mid, b.height).value;
    PutAndRemove(l.blockTxs, b.height, BlockTxsOf(b));
    PutAndRemove(l.heights, b.height, b.hash);
  }

  lemma PutAndRemove<V>(m: map<nat, V>, k: nat, v: V)
    requires k !in m
    ensures m[k := v] - {k} == m
  {
  }

  lemma BackIsRestored(l: Ledger, ext: bool, b: Block, mid: Ledger, now: Ledger)
    requires Good(l) && ValidBlock(l.txs, b) && mid == ConnectBlock(l, ext, b) && Good(now)
    requires Extends(l.txs, mid.txs, b, ext) && TakenOut(mid.txs, now.txs, b) && RowsTakenOut(mid, now, b.height)
    requires now.blockTxs == l.blockTxs && now.heights == l.heights
    ensures Restored(l, now)
  {
    hide Inv, Extends, TakenOut, ValidBlock, NewHeight, Stored, SpendersOk, RowsTakenOut, SameColumn, ConnectBlock;
    ColumnRestored(l.txs, mid.txs, now.txs, b, ext);
    HeightIsNew(l.txs, b);
    ConnectRows(l, ext, b);
    RestoredRest(l, mid, now, b.height);
    InvDetermines(l, now);
    ListsRestored(l, now);
  }

  lemma HeightIsNew(txs: TxColumn, b: Block)
    requires ValidBlock(txs, b)
    ensures NewHeight(txs, b.height)
  {
  }

  /** Disconnecting a just connected valid block restores every column; it is refused exactly when the block has
      no transactions. The txAddresses column is restored to the letter exactly when the block leaves no new
      spent mark on an output without descriptor. */
  lemma DisconnectUndoesConnect(l: Ledger, ext: bool, b: Block)
    requires Good(l) && ValidBlock(l.txs, b)
    requires b.height !in l.blockTxs && b.height !in l.heights
    ensures var r := Disconnect(ConnectBlock(l, ext, b), b.height);
            && (r.Some? <==> b.txs != [])
            && (r.Some? ==>
                 Good(r.value) && Restored(l, r.value) && (r.value.txs == l.txs <==> MarksInPlace(l.txs, b, ext)))
  {
    if b.txs != [] {
      var mid, now := ThereAndBack(l, ext, b);
      BackIsRestored(l, ext, b, mid, now);
      ColumnRestoredExactly(l.txs, mid.txs, now.txs, b, ext);
    }
  }

  lemma RestoredRest(l: Ledger, mid: Ledger, now: Ledger, h: nat)
    requires Inv(l) && Inv(now) && NewHeight(l.txs, h) && SameColumn(l.txs, now.txs)
    requires forall k: AddrRow :: k.height != h ==> RowOf(mid, k) == RowOf(l, k)
    requires forall k: AssetRow :: k.height != h ==> AssetRowOf(mid, k) == AssetRowOf(l, k)
    requires RowsTakenOut(mid, now, h)
    ensures now.rows == l.rows && forall k {:trigger AssetRowOf(now, k)} :: AssetRowOf(now, k) == AssetRowOf(l, k)
  {
    RowsRestored(l, mid, now, h);
    forall k ensures AssetRowOf(now, k) == AssetRowOf(l, k) {
      if k.height == h {
        forall t | t in now.txs ensures now.txs[t].height != h { assert SameTx(l.txs[t], now.txs[t]); }
        EmptyAssetRowAt(l, k);
        EmptyAssetRowAt(now, k);
      }
    }
  }

  // ---------------------------------------------------------------- columns that are the same stay the same

  lemma ValidOnSame(txs: TxColumn, txs': TxColumn, b: Block)
    requires SameColumn(txs, txs') && ValidBlock(txs, b)
    ensures ValidBlock(txs', b)
  {
    forall t | t in txs' ensures txs'[t].height < b.height { assert SameTx(txs[t], txs'[t]); }
    forall j, i | 0 <= j < |b.txs| && 0 <= i < |b.txs[j].vin| && b.txs[j].vin[i].Some?
      ensures FreeOutput(txs', b.txs[j].vin[i].value)
    {
      var op := b.txs[j].vin[i].value;
      assert FreeOutput(txs, op);
      if op.txid in txs {
        assert SameTx(txs[op.txid], txs'[op.txid]);
        if op.vout < |txs[op.txid].outputs| {
          assert SameOutputs(txs[op.txid].outputs[op.vout], txs'[op.txid].outputs[op.vout]);
        }
      }
    }
  }

  lemma OutputsAfterSame(s: TxColumn, s': TxColumn, base: TxColumn, base': TxColumn, now: TxColumn, now': TxColumn,
                         b: Block, ext: bool, t: TxId, i: nat)
    requires SameColumn(s, s') && BaseOf(s, base, b) && BaseOf(s', base', b)
    requires InputShape(base, now, b, ext, |b.txs|, -1) && InputShape(base', now', b, ext, |b.txs|, -1)
    requires t in now && t in now' && i < |now[t].outputs| && i < |now'[t].outputs|
    requires t in base && t in base' && SameTx(base[t], base'[t])
    ensures SameOutputs(now[t].outputs[i], now'[t].outputs[i])
  {
    OutputAfter(s, base, now, b, ext, t, i);
    OutputAfter(s', base', now', b, ext, t, i);
    assert SameOutputs(base[t].outputs[i], base'[t].outputs[i]);
    hide InputShape, BaseOf;
    var op := OutPoint(t, i);
    if Taken(b, op, |b.txs|, -1) {
      var x, y :| Takes(b, x, y, op) && Before(x, y, |b.txs|, -1);
    }
  }

  lemma BaseSame(s: TxColumn, s': TxColumn, base: TxColumn, base': TxColumn, b: Block, t: TxId)
    requires SameColumn(s, s') && BaseOf(s, base, b) && BaseOf(s', base', b)
    ensures t in base <==> t in base'
    ensures t in base ==> SameTx(base[t], base'[t])
  {
    if t in s {
      assert SameTx(s[t], s'[t]);
    } else if t in base {
      var j :| 0 <= j < |b.txs| && b.txs[j].txid == t;
      assert base[t] == Record(b, b.txs[j], |b.txs[j].vout|) && base'[t] == Record(b, b.txs[j], |b.txs[j].vout|);
    }
  }

  lemma InputForSame(s: TxColumn, s': TxColumn, base: TxColumn, base': TxColumn, b: Block, vin: Option<OutPoint>,
                     ext: bool)
    requires SameColumn(s, s') && BaseOf(s, base, b) && BaseOf(s', base', b)
    ensures InputFor(base, vin, ext) == InputFor(base', vin, ext)
  {
    if vin.Some? {
      BaseSame(s, s', base, base', b, vin.value.txid);
      hide BaseOf, SameColumn;
      if SourceIn(base, vin.value).Some? {
        assert SameOutputs(base[vin.value.txid].outputs[vin.value.vout], base'[vin.value.txid].outputs[vin.value.vout]);
      }
    }
  }

  lemma BlockInputsSame(s: TxColumn, s': TxColumn, base: TxColumn, base': TxColumn, ta: TxAddresses, ta': TxAddresses,
                        b: Block, ext: bool, j: nat)
    requires SameColumn(s, s') && BaseOf(s, base, b) && BaseOf(s', base', b) && j < |b.txs|
    requires InputsFilled(base, ta, b, ext, j, |b.txs|, -1) && InputsFilled(base', ta', b, ext, j, |b.txs|, -1)
    ensures ta.inputs == ta'.inputs
  {
    hide BaseOf, SameColumn;
    forall x | 0 <= x < |b.txs[j].vin|
      ensures InputFor(base, b.txs[j].vin[x], ext) == InputFor(base', b.txs[j].vin[x], ext)
    {
      InputForSame(s, s', base, base', b, b.txs[j].vin[x], ext);
    }
  }

  lemma TxAfterSame(s: TxColumn, s': TxColumn, base: TxColumn, base': TxColumn, now: TxColumn, now': TxColumn,
                    b: Block, ext: bool, t: TxId)
    requires SameColumn(s, s') && BaseOf(s, base, b) && BaseOf(s', base', b)
    requires InputShape(base, now, b, ext, |b.txs|, -1) && InputShape(base', now', b, ext, |b.txs|, -1)
    requires t in now && t in now'
    ensures SameTx(now[t], now'[t])
  {
    BaseSame(s, s', base, base', b, t);
    assert Kept(base[t], now[t], b, ext, t, |b.txs|, -1) && Kept(base'[t], now'[t], b, ext, t, |b.txs|, -1);
    hide SameColumn, BaseOf;
    assert now[t].inputs == now'[t].inputs by {
      if InBlock(b, t, |b.txs|) {
        var j :| 0 <= j < |b.txs| && b.txs[j].txid == t;
        BlockInputsSame(s, s', base, base', now[t], now'[t], b, ext, j);
      }
    }
    hide InputShape;
    forall i | 0 <= i < |now[t].outputs| ensures SameOutputs(now[t].outputs[i], now'[t].outputs[i]) {
      OutputsAfterSame(s, s', base, base', now, now', b, ext, t, i);
    }
  }

  lemma ExtendsSameAt(s: TxColumn, s': TxColumn, now: TxColumn, now': TxColumn, b: Block, ext: bool, t: TxId)
    requires SameColumn(s, s') && Extends(s, now, b, ext) && Extends(s', now', b, ext)
    ensures t in now <==> t in now'
    ensures t in now ==> SameTx(now[t], now'[t])
  {
    var base: TxColumn :| BaseOf(s, base, b) && InputShape(base, now, b, ext, |b.txs|, -1);
    var base': TxColumn :| BaseOf(s', base', b) && InputShape(base', now', b, ext, |b.txs|, -1);
    assert now.Keys == base.Keys && now'.Keys == base'.Keys;
    hide BaseOf, InputShape, SameColumn, Extends, SameTx;
    BaseSame(s, s', base, base', b, t);
    if t in now { TxAfterSame(s, s', base, base', now, now', b, ext, t); }
  }

  /** The same block on top of the same column gives the same column. */
  lemma ExtendsSame(s: TxColumn, s': TxColumn, now: TxColumn, now': TxColumn, b: Block, ext: bool)
    requires SameColumn(s, s') && Extends(s, now, b, ext) && Extends(s', now', b, ext)
    ensures SameColumn(now, now')
  {
    hide Extends, SameTx;
    forall t ensures (t in now <==> t in now') && (t in now ==> SameTx(now[t], now'[t])) {
      ExtendsSameAt(s, s', now, now', b, ext, t);
    }
  }

  lemma OnTopOfSame(txs: TxColumn, txs': TxColumn, b: Block)
    requires SameColumn(txs, txs') && BlockOnTop(txs, b)
    ensures BlockOnTop(txs', b)
  {
    forall j | 0 <= j < |b.txs| ensures BlockRecord(txs', b, j) {
      assert BlockRecord(txs, b, j);
      assert SameTx(txs[b.txs[j].txid], txs'[b.txs[j].txid]);
    }
    forall j, i | 0 <= j < |b.txs| && b.txs[j].txid in txs'
        && 0 <= i < |b.txs[j].vin| && i < |txs'[b.txs[j].txid].inputs|
      ensures InputLinked(txs', txs'[b.txs[j].txid].inputs[i], b.txs[j].vin[i])
    {
      assert SameTx(txs[b.txs[j].txid], txs'[b.txs[j].txid]);
      assert InputLinked(txs, txs[b.txs[j].txid].inputs[i], b.txs[j].vin[i]);
      if b.txs[j].vin[i].Some? && SourceIn(txs, b.txs[j].vin[i].value).Some? {
        var op := b.txs[j].vin[i].value;
        assert SameTx(txs[op.txid], txs'[op.txid]);
        assert SameOutputs(txs[op.txid].outputs[op.vout], txs'[op.txid].outputs[op.vout]);
      }
    }
    OnTopOfSameRest(txs, txs', b);
  }

  lemma OnTopOfSameRest(txs: TxColumn, txs': TxColumn, b: Block)
    requires SameColumn(txs, txs') && BlockOnTop(txs, b)
    ensures OutputsFree(txs', b)
    ensures forall t :: t in txs' ==> (txs'[t].height == b.height <==> InBlock(b, t, |b.txs|))
  {
    forall t | t in txs' ensures txs'[t].height == b.height <==> InBlock(b, t, |b.txs|) {
      assert SameTx(txs[t], txs'[t]);
    }
    forall j, v | (
        && 0 <= j < |b.txs| && b.txs[j].txid in txs' && 0 <= v < |txs'[b.txs[j].txid].outputs|
        && txs'[b.txs[j].txid].outputs[v].coin.addr != NoAddr && !Taken(b, OutPoint(b.txs[j].txid, v), |b.txs|, 0))
      ensures !txs'[b.txs[j].txid].outputs[v].spent
    {
      var t := b.txs[j].txid;
      assert SameTx(txs[t], txs'[t]);
      assert SameOutputs(txs[t].outputs[v], txs'[t].outputs[v]);
    }
  }

  lemma TakenOutSame(txs: TxColumn, txs': TxColumn, now: TxColumn, now': TxColumn, b: Block)
    requires SameColumn(txs, txs') && TakenOut(txs, now, b) && TakenOut(txs', now', b)
    ensures SameColumn(now, now')
  {
    forall t | t in now ensures SameTx(now[t], now'[t]) {
      assert SameTx(txs[t], txs'[t]);
      assert OutputsFreed(txs[t], now[t], b, t, |b.txs|, 0) && OutputsFreed(txs'[t], now'[t], b, t, |b.txs|, 0);
      forall i | 0 <= i < |now[t].outputs| ensures SameOutputs(now[t].outputs[i], now'[t].outputs[i]) {
        assert SameOutputs(txs[t].outputs[i], txs'[t].outputs[i]);
      }
    }
  }

  // ---------------------------------------------------------------- runs

  /** A ledger and the blocks connected to it. */
  datatype Node = Node(l: Ledger, chain: seq<Block>)

  datatype Event = Add(b: Block) | Drop

  function Last(chain: seq<Block>): Block
    requires chain != []
  {
    chain[|chain| - 1]
  }

  function Front(chain: seq<Block>): seq<Block>
    requires chain != []
  {
    chain[..|chain| - 1]
  }

  function Step(n: Node, ext: bool, e: Event): Node {
    match e
    case Add(b) => Node(ConnectBlock(n.l, ext, b), n.chain + [b])
    case Drop =>
      if n.chain == [] then n
      else
        match Disconnect(n.l, Last(n.chain).height)
        case None => n
        case Some(l) => Node(l, Front(n.chain))
  }

  function Execute(n: Node, ext: bool, es: seq<Event>): Node {
    if es == [] then n else Step(Execute(n, ext, es[..|es| - 1]), ext, es[|es| - 1])
  }

  /** Blocks come in height order and are valid for the index they are connected to. */
  ghost predicate LegalEvent(n: Node, e: Event) {
    match e
    case Add(b) => ValidBlock(n.l.txs, b) && b.txs != [] && forall i ::
        0 <= i < |n.chain| ==> n.chain[i].height < b.height
    case Drop => n.chain != []
  }

  ghost predicate LegalRun(n: Node, ext: bool, es: seq<Event>) {
    es != [] ==> LegalRun(n, ext, es[..|es| - 1]) && LegalEvent(Execute(n, ext, es[..|es| - 1]), es[|es| - 1])
  }

  /** Connecting the blocks of a chain from scratch. */
  function Replay(ext: bool, chain: seq<Block>): Ledger {
    if chain == [] then EmptyLedger else ConnectBlock(Replay(ext, Front(chain)), ext, Last(chain))
  }

  ghost predicate ValidChain(ext: bool, chain: seq<Block>) {
    chain != [] ==>
      && ValidChain(ext, Front(chain)) && ValidBlock(Replay(ext, Front(chain)).txs, Last(chain))
           && Last(chain).txs != []
      && forall i :: 0 <= i < |chain| - 1 ==> chain[i].height < Last(chain).height
  }

  /** The ledger is the index of a valid chain. */
  ghost predicate NodeFit(n: Node, ext: bool) {
    Good(n.l) && ValidChain(ext, n.chain) && SameColumn(Replay(ext, n.chain).txs, n.l.txs)
  }

  /** The record of a block's transactions is there. */
  predicate HasRecord(l: Ledger, b: Block) { b.height in l.blockTxs && l.blockTxs[b.height] == BlockTxsOf(b) }

  ghost predicate NodeOk(n: Node, ext: bool) {
    NodeFit(n, ext) && forall i :: 0 <= i < |n.chain| ==> HasRecord(n.l, n.chain[i])
  }

  lemma EmptyGood()
    ensures Good(EmptyLedger)
  {
    forall k: Key ensures UnspentTotal(map[], k) == 0 && SpentTotal(map[], k) == 0 && Touching(map[], k) == {} {
      assert UnspentPerTx(map[], k) == map[] && SpentPerTx(map[], k) == map[];
    }
  }

  lemma {:induction false} ReplayGood(ext: bool, chain: seq<Block>)
    requires ValidChain(ext, chain)
    ensures Good(Replay(ext, chain))
    ensures chain != [] ==> Extends(Replay(ext, Front(chain)).txs, Replay(ext, chain).txs, Last(chain), ext)
    ensures chain != [] ==> BlockOnTop(Replay(ext, chain).txs, Last(chain))
  {
    if chain == [] {
      EmptyGood();
    } else {
      ReplayGood(ext, Front(chain));
      ConnectKeepsGood(Replay(ext, Front(chain)), ext, Last(chain));
    }
  }

  lemma AddFits(n: Node, ext: bool, b: Block)
    requires NodeFit(n, ext) && LegalEvent(n, Add(b))
    ensures NodeFit(Step(n, ext, Add(b)), ext)
    ensures ConnectBlock(n.l, ext, b).blockTxs == n.l.blockTxs[b.height := BlockTxsOf(b)]
  {
    hide Good, ValidBlock, SameColumn, Extends, BlockOnTop, ConnectBlock, BlockTxsOf;
    var r, chain := Replay(ext, n.chain), n.chain + [b];
    assert Front(chain) == n.chain && Last(chain) == b;
    SameColumnSym(r.txs, n.l.txs);
    ValidOnSame(n.l.txs, r.txs, b);
    ReplayGood(ext, n.chain);
    ConnectKeepsGood(n.l, ext, b);
    ConnectKeepsGood(r, ext, b);
    ExtendsSame(r.txs, n.l.txs, ConnectBlock(r, ext, b).txs, ConnectBlock(n.l, ext, b).txs, b, ext);
  }

  lemma AddKeepsOk(n: Node, ext: bool, b: Block)
    requires NodeOk(n, ext) && LegalEvent(n, Add(b))
    ensures NodeOk(Step(n, ext, Add(b)), ext)
  {
    hide NodeFit, ConnectBlock, BlockTxsOf;
    AddFits(n, ext, b);
  }

  /** The last block of a fitting node is on top of its column. */
  lemma NodeOnTop(n: Node, ext: bool)
    requires NodeFit(n, ext) && n.chain != []
    ensures Good(n.l) && BlockOnTop(n.l.txs, Last(n.chain)) && Last(n.chain).txs != []
  {
    hide Good, SameColumn, BlockOnTop, ConnectBlock, Extends, ValidBlock;
    ReplayGood(ext, n.chain);
    OnTopOfSame(Replay(ext, n.chain).txs, n.l.txs, Last(n.chain));
  }

  lemma DropColumn(n: Node, ext: bool)
    requires NodeFit(n, ext) && n.chain != [] && HasRecord(n.l, Last(n.chain))
    ensures var r := Disconnect(n.l, Last(n.chain).height);
            && r.Some? && Good(r.value) && SameColumn(Replay(ext, Front(n.chain)).txs, r.value.txs)
            && r.value.blockTxs == n.l.blockTxs - {Last(n.chain).height}
            && TakenOut(n.l.txs, r.value.txs, Last(n.chain)) && RowsTakenOut(n.l, r.value, Last(n.chain).height)
  {
    var full, before, b := Replay(ext, n.chain), Replay(ext, Front(n.chain)), Last(n.chain);
    ReplayGood(ext, Front(n.chain));
    ReplayGood(ext, n.chain);
    ConnectKeepsGood(before, ext, b);
    assert ValidBlock(before.txs, b) && SpendersOk(before.txs) && b.txs != [];
    assert Extends(before.txs, full.txs, b, ext) && BlockOnTop(full.txs, b);
    assert full.blockTxs[b.height] == BlockTxsOf(b);
    hide Good, ValidBlock, SameColumn, Extends, BlockOnTop, ConnectBlock, Disconnect, SpendersOk, TakenOut;
    OnTopOfSame(full.txs, n.l.txs, b);
    DisconnectKeepsGood(n.l, b);
    DisconnectKeepsGood(full, b);
    var l', back := Disconnect(n.l, b.height).value, Disconnect(full, b.height).value;
    ColumnRestored(before.txs, full.txs, back.txs, b, ext);
    TakenOutSame(full.txs, n.l.txs, back.txs, l'.txs, b);
    SameColumnTrans(before.txs, back.txs, l'.txs);
  }

  lemma DropKeepsOk(n: Node, ext: bool)
    requires NodeOk(n, ext) && n.chain != []
    ensures NodeOk(Step(n, ext, Drop), ext) && Step(n, ext, Drop).chain == Front(n.chain)
  {
    hide Good, SameColumn, Disconnect, BlockTxsOf, ConnectBlock;
    DropColumn(n, ext);
  }

  /** In every reachable state the index satisfies the invariant and is the index of the surviving chain:
      reorgs leave no trace but spent marks on outputs without descriptor. */
  lemma {:induction false} RunIsReplay(ext: bool, es: seq<Event>)
    requires LegalRun(Node(EmptyLedger, []), ext, es)
    ensures var n := Execute(Node(EmptyLedger, []), ext, es);
            NodeOk(n, ext) && Inv(n.l) && SameIndex(Replay(ext, n.chain), n.l)
  {
    var start := Node(EmptyLedger, []);
    var n := Execute(start, ext, es);
    if es == [] {
      EmptyGood();
    } else {
      var m := Execute(start, ext, es[..|es| - 1]);
      RunIsReplay(ext, es[..|es| - 1]);
      match es[|es| - 1]
      case Add(b) => AddKeepsOk(m, ext, b);
      case Drop => DropKeepsOk(m, ext);
    }
    ReplayGood(ext, n.chain);
    InvDetermines(Replay(ext, n.chain), n.l);
  }
}
