// One block: the records, rows and amounts that connecting it adds are those the block itself states.
module BlockReading {
  import opened Types
  import UtxoIndex
  import opened LedgerModel
  import opened LedgerInvariant
  import opened LedgerConnect
  import opened LedgerSteps
  import opened LedgerBlock
  import R = ChainReading

  // ---------------------------------------------------------------- one output

  /** The coin stored for an output is what the block states of it, and counts for whom it pays. */
  lemma CoinSays(o: Vout, k: Key)
    ensures R.Says(CoinOf(o), o) && (Hits(CoinOf(o), k) <==> R.Pays(o, k)) && Amount(CoinOf(o), k) == R.Pay(o, k)
  {
  }

  lemma SaysHits(c: Coin, o: Vout, k: Key)
    requires R.Says(c, o)
    ensures (Hits(c, k) <==> R.Pays(o, k)) && Amount(c, k) == R.Pay(o, k)
  {
    CoinSays(o, k);
    assert c.addr == CoinOf(o).addr;
  }

  // ---------------------------------------------------------------- the coins of a chain

  /** Output by output, the column holds what the chain states. */
  ghost predicate CoinsSay(txs: TxColumn, chain: seq<Block>) {
    forall op :: CoinSaid(txs, chain, op)
  }

  ghost predicate CoinSaid(txs: TxColumn, chain: seq<Block>, op: OutPoint) {
    && (SourceIn(txs, op).Some? <==> R.VoutOf(chain, op).Some?)
    && (SourceIn(txs, op).Some? ==> R.Says(SourceIn(txs, op).value.coin, R.VoutOf(chain, op).value))
  }

  lemma {:induction false} VoutInAt(txs: seq<Tx>, op: OutPoint, j: nat)
    requires j < |txs| && txs[j].txid == op.txid
    requires forall x, y :: 0 <= x < y < |txs| ==> txs[x].txid != txs[y].txid
    ensures R.VoutIn(txs, op) == if op.vout < |txs[j].vout| then Some(txs[j].vout[op.vout]) else None
  {
    if j < |txs| - 1 {
      VoutInAt(txs[..|txs| - 1], op, j);
    } else {
      VoutInNone(txs[..|txs| - 1], op);
    }
  }

  lemma {:induction false} VoutInNone(txs: seq<Tx>, op: OutPoint)
    requires forall j :: 0 <= j < |txs| ==> txs[j].txid != op.txid
    ensures R.VoutIn(txs, op) == None
  {
    if txs != [] { VoutInNone(txs[..|txs| - 1], op); }
  }

  lemma BaseCoin(was: TxColumn, base: TxColumn, chain: seq<Block>, b: Block, op: OutPoint)
    requires FreshTxids(was, b) && BaseOf(was, base, b) && CoinsSay(was, chain)
    ensures CoinSaid(base, chain + [b], op)
  {
    assert (chain + [b])[..|chain|] == chain;
    assert CoinSaid(was, chain, op);
    if InBlock(b, op.txid, |b.txs|) {
      var j :| 0 <= j < |b.txs| && b.txs[j].txid == op.txid;
      VoutInAt(b.txs, op, j);
      assert base[op.txid] == Record(b, b.txs[j], |b.txs[j].vout|);
      if op.vout < |b.txs[j].vout| { CoinSays(b.txs[j].vout[op.vout], AssetKey(0)); }
    } else {
      VoutInNone(b.txs, op);
    }
  }

  /** After the outputs of a block the column holds what the longer chain states. */
  lemma BaseCoins(was: TxColumn, base: TxColumn, chain: seq<Block>, b: Block)
    requires FreshTxids(was, b) && BaseOf(was, base, b) && CoinsSay(was, chain)
    ensures CoinsSay(base, chain + [b])
  {
    hide CoinsSay, CoinSaid, FreshTxids, BaseOf;
    forall op ensures CoinSaid(base, chain + [b], op) { BaseCoin(was, base, chain, b, op); }
    CoinsSayAll(base, chain + [b]);
  }

  lemma CoinsSayAll(txs: TxColumn, chain: seq<Block>)
    requires forall op :: CoinSaid(txs, chain, op)
    ensures CoinsSay(txs, chain)
  {
  }

  /** Spending changes no coin. */
  lemma ShapeCoins(base: TxColumn, now: TxColumn, b: Block, ext: bool, j: int, i: int, chain: seq<Block>)
    requires InputShape(base, now, b, ext, j, i) && CoinsSay(base, chain)
    ensures CoinsSay(now, chain)
  {
    forall op ensures CoinSaid(now, chain, op) {
      assert CoinSaid(base, chain, op);
      if op.txid in base { ShapeCoin(base, now, b, ext, j, i, op); }
    }
  }

  lemma ShapeCoin(base: TxColumn, now: TxColumn, b: Block, ext: bool, j: int, i: int, op: OutPoint)
    requires InputShape(base, now, b, ext, j, i) && op.txid in base
    ensures SourceIn(now, op).Some? <==> SourceIn(base, op).Some?
    ensures SourceIn(now, op).Some? ==> SourceIn(now, op).value.coin == SourceIn(base, op).value.coin
  {
    assert Kept(base[op.txid], now[op.txid], b, ext, op.txid, j, i);
    if SourceIn(now, op).Some? {
      assert OutputKept(base[op.txid].outputs[op.vout], now[op.txid].outputs[op.vout], b, ext, op, j, i);
    }
  }

  // ---------------------------------------------------------------- the order of rows

  /** The rows of the key at height `h` list these transactions, in this order. */
  ghost predicate Rowed(l: Ledger, h: nat, k: Key, ts: seq<Tx>) {
    match k
    case AddrKey(a) =>
      var row := RowOf(l, AddrRow(a, h));
      |row| == |ts| && forall i :: 0 <= i < |ts| ==> row[i].txid == ts[i].txid
    case HoldingKey(_, _) => true
    case AssetKey(g) =>
      var row := AssetRowOf(l, AssetRow(g, h));
      |row| == |ts| && forall i :: 0 <= i < |ts| ==> row[i] == AssetTx(ts[i].txid, ts[i].version)
  }

  function With(ts: seq<Tx>, tx: Tx, add: bool): seq<Tx> { if add && tx !in ts then ts + [tx] else ts }

  ghost predicate OneId(ts: seq<Tx>, tx: Tx) {
    forall i :: 0 <= i < |ts| && ts[i].txid == tx.txid ==> ts[i] == tx
  }

  lemma ReceiveOrder(w: Work, h: nat, tx: Tx, c: Coin, i: nat, k: Key, ts: seq<Tx>)
    requires Indexable(c.addr) && Rowed(w.l, h, k, ts) && OneId(ts, tx)
    ensures Rowed(Receive(w, h, tx.txid, tx.version, c, i).l, h, k, With(ts, tx, Hits(c, k)))
  {
    var b := Bal(w.l, c.addr);
    var b0 := b.(balance := b.balance + c.value);
    AssetOrder(w, h, tx, c, b0, false, k, ts);
    var p := ConnectAssetOpt(w, h, tx.txid, tx.version, c.addr, b0, c.asset, false);
    TouchOrder(p.0, h, tx, c,
        p.1.(utxos := UtxoIndex.Append(p.1.utxos, Utxo(tx.txid, i, h, c.value, c.asset))), i, k, ts);
  }

  lemma SpendOrder(w: Work, h: nat, tx: Tx, c: Coin, op: OutPoint, i: nat, k: Key, ts: seq<Tx>)
    requires Indexable(c.addr) && Rowed(w.l, h, k, ts) && OneId(ts, tx)
    ensures Rowed(Spend(w, h, tx.txid, tx.version, c, op, i).l, h, k, With(ts, tx, Hits(c, k)))
  {
    var b := Bal(w.l, c.addr);
    AssetOrder(w, h, tx, c, b, true, k, ts);
    var left := b.balance - c.value;
    var p := ConnectAssetOpt(w, h, tx.txid, tx.version, c.addr, b, c.asset, true);
    TouchOrder(p.0, h, tx, c, p.1.(utxos := UtxoIndex.MarkSpent(b.utxos, op.txid, op.vout),
        balance := if left < 0 then 0 else left, sent := b.sent + c.value), -(i as int) - 1, k, ts);
  }

  lemma AssetOrder(w: Work, h: nat, tx: Tx, c: Coin, b: AddrBalance, spend: bool, k: Key, ts: seq<Tx>)
    requires Indexable(c.addr) && Rowed(w.l, h, k, ts) && OneId(ts, tx)
    ensures var w' := ConnectAssetOpt(w, h, tx.txid, tx.version, c.addr, b, c.asset, spend).0;
            Rowed(w'.l, h, k, if k.AssetKey? then With(ts, tx, Hits(c, k)) else ts)
  {
    if k.AssetKey? && c.asset.Some? && c.asset.value.guid == k.guid {
      var row := AssetRowOf(w.l, AssetRow(k.guid, h));
      if tx in ts {
        var i :| 0 <= i < |ts| && ts[i] == tx;
        assert row[i].txid == tx.txid;
      }
    }
  }

  lemma TouchOrder(w: Work, h: nat, tx: Tx, c: Coin, b: AddrBalance, index: int, k: Key, ts: seq<Tx>)
    requires Indexable(c.addr) && OneId(ts, tx)
    requires Rowed(w.l, h, k, if k.AssetKey? then With(ts, tx, Hits(c, k)) else ts)
    ensures Rowed(StoreTouched(w, h, tx.txid, c.addr, b, index).l, h, k, With(ts, tx, Hits(c, k)))
  {
    if k == AddrKey(c.addr) {
      var row := RowOf(w.l, AddrRow(c.addr, h));
      var i := FindEntry(row, tx.txid, 0);
      if i < |row| { assert ts[i].txid == tx.txid; assert ts[i] in ts; }
      if tx in ts {
        var x :| 0 <= x < |ts| && ts[x] == tx;
        assert row[x].txid == tx.txid;
      }
    }
  }

  // ---------------------------------------------------------------- outputs, in order

  predicate PaysBefore(tx: Tx, i: nat, k: Key) { exists x :: 0 <= x < i && x < |tx.vout| && R.Pays(tx.vout[x], k) }

  lemma {:induction false} PayersFrom(txs: seq<Tx>, k: Key)
    ensures forall i :: 0 <= i < |R.Payers(txs, k)| ==> R.Payers(txs, k)[i] in txs
  {
    if txs != [] { PayersFrom(txs[..|txs| - 1], k); }
  }

  lemma {:induction false} PayersHave(txs: seq<Tx>, k: Key, j: nat)
    requires j < |txs| && R.TxPays(txs[j], k)
    ensures txs[j] in R.Payers(txs, k)
  {
    if j < |txs| - 1 { PayersHave(txs[..|txs| - 1], k, j); }
  }

  /** Outputs are worked off transaction by transaction. */
  function OutOrder(b: Block, k: Key, j: nat, i: nat): seq<Tx>
    requires j < |b.txs|
  {
    R.Payers(b.txs[..j], k) + if PaysBefore(b.txs[j], i, k) then [b.txs[j]] else []
  }

  lemma OutOrderNext(b: Block, k: Key, j: nat, i: nat)
    requires DistinctIds(b) && j < |b.txs| && i < |b.txs[j].vout|
    ensures OneId(OutOrder(b, k, j, i), b.txs[j])
    ensures OutOrder(b, k, j, i + 1) == With(OutOrder(b, k, j, i), b.txs[j], R.Pays(b.txs[j].vout[i], k))
  {
    var tx, ts := b.txs[j], R.Payers(b.txs[..j], k);
    PayersFrom(b.txs[..j], k);
    forall x | 0 <= x < |ts| ensures ts[x].txid != tx.txid {
      assert ts[x] in b.txs[..j];
      var y :| 0 <= y < j && b.txs[y] == ts[x];
    }
    assert PaysBefore(tx, i + 1, k) <==> PaysBefore(tx, i, k) || R.Pays(tx.vout[i], k) by {
      if PaysBefore(tx, i, k) {
        var x :| 0 <= x < i && x < |tx.vout| && R.Pays(tx.vout[x], k);
      }
    }
  }

  lemma OutOrderLast(b: Block, k: Key, j: nat)
    requires j < |b.txs|
    ensures OutOrder(b, k, j, |b.txs[j].vout|) == R.Payers(b.txs[..j + 1], k)
  {
    assert b.txs[..j + 1][..j] == b.txs[..j];
    assert PaysBefore(b.txs[j], |b.txs[j].vout|, k) <==> R.TxPays(b.txs[j], k);
  }

  lemma RowsKept(l: Ledger, l': Ledger, h: nat, k: Key, ts: seq<Tx>)
    requires Rowed(l, h, k, ts) && l'.rows == l.rows && l'.assetRows == l.assetRows
    ensures Rowed(l', h, k, ts)
  {
  }

  lemma AddOutputOrder(w: Work, b: Block, tx: Tx, i: nat, k: Key, ts: seq<Tx>)
    requires i < |tx.vout| && Rowed(w.l, b.height, k, ts) && OneId(ts, tx)
    ensures Rowed(AddOutput(w, b, tx, i).l, b.height, k, With(ts, tx, R.Pays(tx.vout[i], k)))
  {
    hide Rowed, Receive;
    var c := CoinOf(tx.vout[i]);
    var mid := w.(l := w.l.(txs := SetOutput(w.l.txs, tx.txid, i, TxOutput(c, false, None))));
    CoinSays(tx.vout[i], k);
    RowsKept(w.l, mid.l, b.height, k, ts);
    if Indexable(c.addr) { ReceiveOrder(mid, b.height, tx, c, i, k, ts); }
  }

  lemma OutputsDoneOrder(l: Ledger, b: Block, j: nat, k: Key)
    requires DistinctIds(b) && Rowed(l, b.height, k, []) && j <= |b.txs|
    ensures Rowed(OutputsDone(l, b, j).l, b.height, k, R.Payers(b.txs[..j], k))
    decreases j, 0
  {
    hide Rowed, OutputsAt, DistinctIds;
    if j > 0 {
      OutputsAtOrder(l, b, j - 1, |b.txs[j - 1].vout|, k);
      OutOrderLast(b, k, j - 1);
    }
  }

  lemma OutputsAtOrder(l: Ledger, b: Block, j: nat, i: nat, k: Key)
    requires DistinctIds(b) && Rowed(l, b.height, k, []) && j < |b.txs| && i <= |b.txs[j].vout|
    ensures Rowed(OutputsAt(l, b, j, i).l, b.height, k, OutOrder(b, k, j, i))
    decreases j, i + 1
  {
    hide Rowed, AddOutput, DistinctIds;
    if i == 0 {
      OutputsDoneOrder(l, b, j, k);
      assert OutOrder(b, k, j, 0) == R.Payers(b.txs[..j], k);
      RowsKept(OutputsDone(l, b, j).l, OutputsAt(l, b, j, 0).l, b.height, k, R.Payers(b.txs[..j], k));
    } else {
      OutputsAtOrder(l, b, j, i - 1, k);
      OutOrderNext(b, k, j, i - 1);
      AddOutputOrder(OutputsAt(l, b, j, i - 1), b, b.txs[j], i - 1, k, OutOrder(b, k, j, i - 1));
    }
  }

  // ---------------------------------------------------------------- inputs, in order

  predicate TakesBefore(chain: seq<Block>, tx: Tx, i: nat, k: Key) {
    exists x :: 0 <= x < i && x < |tx.vin| && R.Takes(chain, tx.vin[x], k)
  }

  /** The rows when the inputs of the last block of the chain have come to input `i` of transaction `j`. */
  function InOrder(chain: seq<Block>, b: Block, k: Key, j: nat, i: nat): seq<Tx>
    requires j < |b.txs|
  {
    R.Payers(b.txs, k) + R.Takers(chain, b.txs[..j], k)
      + if !R.TxPays(b.txs[j], k) && TakesBefore(chain, b.txs[j], i, k) then [b.txs[j]] else []
  }

  lemma {:induction false} TakersFrom(chain: seq<Block>, txs: seq<Tx>, k: Key)
    ensures forall i :: 0 <= i < |R.Takers(chain, txs, k)| ==> R.Takers(chain, txs, k)[i] in txs
  {
    if txs != [] { TakersFrom(chain, txs[..|txs| - 1], k); }
  }

  lemma {:induction false} PayersPay(txs: seq<Tx>, k: Key)
    ensures forall i :: 0 <= i < |R.Payers(txs, k)| ==> R.TxPays(R.Payers(txs, k)[i], k)
  {
    if txs != [] { PayersPay(txs[..|txs| - 1], k); }
  }

  lemma InOrderIds(chain: seq<Block>, b: Block, k: Key, j: nat, i: nat)
    requires DistinctIds(b) && j < |b.txs|
    ensures OneId(InOrder(chain, b, k, j, i), b.txs[j])
    ensures b.txs[j] in InOrder(chain, b, k, j, i) <==> R.TxPays(b.txs[j], k) || TakesBefore(chain, b.txs[j], i, k)
  {
    var tx, ps, ts := b.txs[j], R.Payers(b.txs, k), R.Takers(chain, b.txs[..j], k);
    PayersFrom(b.txs, k);
    PayersPay(b.txs, k);
    TakersFrom(chain, b.txs[..j], k);
    forall x | 0 <= x < |ps| && ps[x].txid == tx.txid ensures ps[x] == tx {
      assert ps[x] in b.txs;
      var y :| 0 <= y < |b.txs| && b.txs[y] == ps[x];
    }
    forall x | 0 <= x < |ts| ensures ts[x].txid != tx.txid {
      assert ts[x] in b.txs[..j];
      var y :| 0 <= y < j && b.txs[y] == ts[x];
    }
    if R.TxPays(tx, k) { PayersHave(b.txs, k, j); }
    var r := InOrder(chain, b, k, j, i);
    forall x | 0 <= x < |r| && r[x].txid == tx.txid ensures r[x] == tx {
      if x < |ps| { assert r[x] == ps[x]; }
    }
    if tx in ps { assert R.TxPays(tx, k); }
    assert tx !in ts;
  }

  lemma InOrderNext(chain: seq<Block>, b: Block, k: Key, j: nat, i: nat)
    requires DistinctIds(b) && j < |b.txs| && i < |b.txs[j].vin|
    ensures OneId(InOrder(chain, b, k, j, i), b.txs[j])
    ensures InOrder(chain, b, k, j, i + 1)
            == With(InOrder(chain, b, k, j, i), b.txs[j], R.Takes(chain, b.txs[j].vin[i], k))
  {
    InOrderIds(chain, b, k, j, i);
    var tx := b.txs[j];
    assert TakesBefore(chain, tx, i + 1, k) <==> TakesBefore(chain, tx, i, k) || R.Takes(chain, tx.vin[i], k) by {
      if TakesBefore(chain, tx, i, k) {
        var x :| 0 <= x < i && x < |tx.vin| && R.Takes(chain, tx.vin[x], k);
      }
    }
  }

  lemma InOrderLast(chain: seq<Block>, b: Block, k: Key, j: nat)
    requires j < |b.txs|
    ensures InOrder(chain, b, k, j, |b.txs[j].vin|) == R.Payers(b.txs, k) + R.Takers(chain, b.txs[..j + 1], k)
  {
    assert b.txs[..j + 1][..j] == b.txs[..j];
    assert TakesBefore(chain, b.txs[j], |b.txs[j].vin|, k) <==> R.TxTakes(chain, b.txs[j], k);
  }

  lemma SpendInputOrder(w: Work, ext: bool, b: Block, tx: Tx, i: nat, chain: seq<Block>, k: Key, ts: seq<Tx>)
    requires i < |tx.vin| && Rowed(w.l, b.height, k, ts) && OneId(ts, tx)
    requires tx.vin[i].Some? ==> CoinSaid(w.l.txs, chain, tx.vin[i].value)
    ensures Rowed(SpendInput(w, ext, b, tx, i).l, b.height, k, With(ts, tx, R.Takes(chain, tx.vin[i], k)))
  {
    hide Rowed, Spend;
    if tx.vin[i].Some? && Source(w.l, tx.vin[i].value).Some? {
      var op := tx.vin[i].value;
      var o := Source(w.l, op).value;
      SaysHits(o.coin, R.VoutOf(chain, op).value, k);
      var spender := if ext then Some(SpendRef(tx.txid, i, b.height)) else o.spender;
      var txs := SetOutput(w.l.txs, op.txid, op.vout, TxOutput(o.coin, true, spender));
      var mid := w.(l := w.l.(txs := SetInput(txs, tx.txid, i, TxInput(o.coin, if ext then Some(op) else None))));
      RowsKept(w.l, mid.l, b.height, k, ts);
      if Indexable(o.coin.addr) { SpendOrder(mid, b.height, tx, o.coin, op, i, k, ts); }
    }
  }

  /** What is known of a block and the chain it completes. */
  ghost predicate OnChain(l: Ledger, b: Block, chain: seq<Block>) {
    Inv(l) && ValidBlock(l.txs, b) && CoinsSay(l.txs, chain)
  }

  lemma CoinsDuring(l: Ledger, b: Block, ext: bool, chain: seq<Block>, w: Work, j: nat, i: int)
    requires OnChain(l, b, chain)
    requires var base := OutputsDone(l, b, |b.txs|).l.txs;
             BaseOf(l.txs, base, b) && InputsAtOk(l, base, w, b, ext, j, i)
    ensures CoinsSay(w.l.txs, chain + [b])
  {
    hide CoinsSay, BaseOf, InputShape, Inv, WorkInv;
    BaseCoins(l.txs, OutputsDone(l, b, |b.txs|).l.txs, chain, b);
    ShapeCoins(OutputsDone(l, b, |b.txs|).l.txs, w.l.txs, b, ext, j, i, chain + [b]);
  }

  lemma CoinDuring(l: Ledger, b: Block, ext: bool, chain: seq<Block>, j: nat, i: nat, op: OutPoint)
    requires OnChain(l, b, chain) && j < |b.txs| && i <= |b.txs[j].vin|
    ensures CoinSaid(InputsAt(l, ext, b, j, i).l.txs, chain + [b], op)
  {
    hide OnChain, InputsAt, BaseOf, InputsAtOk, CoinSaid;
    OnChainInv(l, b, chain);
    InputsPhase(l, b, ext, j, i);
    CoinsDuring(l, b, ext, chain, InputsAt(l, ext, b, j, i), j, i);
  }

  lemma OnChainInv(l: Ledger, b: Block, chain: seq<Block>)
    requires OnChain(l, b, chain)
    ensures Inv(l) && ValidBlock(l.txs, b) && DistinctIds(b)
  {
    hide Inv, FreeInputs, NoDoubleSpend, NewHeight, CoinsSay;
  }

  lemma InputsDoneOrder(l: Ledger, b: Block, ext: bool, chain: seq<Block>, j: nat, k: Key)
    requires OnChain(l, b, chain) && Rowed(l, b.height, k, []) && j <= |b.txs|
    ensures Rowed(InputsDone(l, ext, b, j).l, b.height, k,
                  R.Payers(b.txs, k) + R.Takers(chain + [b], b.txs[..j], k))
    decreases j, 0
  {
    hide Rowed, OnChain, InputsAt, DistinctIds, Inv, ValidBlock;
    OnChainInv(l, b, chain);
    if j > 0 {
      InputsAtOrder(l, b, ext, chain, j - 1, |b.txs[j - 1].vin|, k);
      InOrderLast(chain + [b], b, k, j - 1);
    } else {
      OutputsDoneOrder(l, b, |b.txs|, k);
      assert b.txs[..|b.txs|] == b.txs;
      assert R.Payers(b.txs, k) + R.Takers(chain + [b], b.txs[..0], k) == R.Payers(b.txs, k);
    }
  }

  lemma InputsAtOrder(l: Ledger, b: Block, ext: bool, chain: seq<Block>, j: nat, i: nat, k: Key)
    requires OnChain(l, b, chain) && Rowed(l, b.height, k, []) && j < |b.txs| && i <= |b.txs[j].vin|
    ensures Rowed(InputsAt(l, ext, b, j, i).l, b.height, k, InOrder(chain + [b], b, k, j, i))
    decreases j, i + 1
  {
    hide Rowed, OnChain, SpendInput, DistinctIds, Inv, ValidBlock, CoinSaid;
    OnChainInv(l, b, chain);
    if i == 0 {
      InputsDoneOrder(l, b, ext, chain, j, k);
      assert InOrder(chain + [b], b, k, j, 0) == R.Payers(b.txs, k) + R.Takers(chain + [b], b.txs[..j], k);
      RowsKept(InputsDone(l, ext, b, j).l, InputsAt(l, ext, b, j, 0).l, b.height, k,
          InOrder(chain + [b], b, k, j, 0));
    } else {
      InputsAtOrder(l, b, ext, chain, j, i - 1, k);
      InOrderNext(chain + [b], b, k, j, i - 1);
      if b.txs[j].vin[i - 1].Some? { CoinDuring(l, b, ext, chain, j, i - 1, b.txs[j].vin[i - 1].value); }
      SpendInputOrder(InputsAt(l, ext, b, j, i - 1), ext, b, b.txs[j], i - 1, chain + [b], k,
          InOrder(chain + [b], b, k, j, i - 1));
    }
  }

  /** The rows of a connected block list its transactions in the order the block states. */
  lemma BlockOrder(l: Ledger, b: Block, ext: bool, chain: seq<Block>, k: Key)
    requires OnChain(l, b, chain) && Rowed(l, b.height, k, [])
    ensures Rowed(Process(l, ext, b), b.height, k, R.Order(chain + [b], k))
  {
    hide Rowed, OnChain, InputsDone;
    InputsDoneOrder(l, b, ext, chain, |b.txs|, k);
    assert b.txs[..|b.txs|] == b.txs;
  }

  // ---------------------------------------------------------------- amounts

  /** An address or one of its holdings. */
  predicate Amounted(k: Key) { !k.AssetKey? && Indexable(k.addr) }

  lemma AddOutputAmounts(w: Work, b: Block, tx: Tx, i: nat, k: Key)
    requires i < |tx.vout| && Amounted(k)
    ensures var w' := AddOutput(w, b, tx, i);
            && BalanceOf(w'.l, k) == BalanceOf(w.l, k) + R.Pay(tx.vout[i], k) && SentOf(w'.l, k) == SentOf(w.l, k)
  {
    hide Receive;
    var c := CoinOf(tx.vout[i]);
    var mid := w.(l := w.l.(txs := SetOutput(w.l.txs, tx.txid, i, TxOutput(c, false, None))));
    CoinSays(tx.vout[i], k);
    SameAmounts(w.l, mid.l, k);
    if Indexable(c.addr) { ReceiveKey(mid, b.height, tx.txid, tx.version, c, i, k); }
  }

  lemma SameAmounts(l: Ledger, l': Ledger, k: Key)
    requires Amounted(k) && l'.bals == l.bals
    ensures BalanceOf(l', k) == BalanceOf(l, k) && SentOf(l', k) == SentOf(l, k)
  {
  }

  lemma OutputsDoneAmounts(l: Ledger, b: Block, j: nat, k: Key)
    requires Amounted(k) && j <= |b.txs|
    ensures var w := OutputsDone(l, b, j);
            BalanceOf(w.l, k) == BalanceOf(l, k) + R.TxsPay(b.txs[..j], k) && SentOf(w.l, k) == SentOf(l, k)
    decreases j, 0
  {
    hide BalanceOf, SentOf, OutputsAt, R.VoutsPay;
    if j > 0 {
      OutputsAtAmounts(l, b, j - 1, |b.txs[j - 1].vout|, k);
      assert b.txs[..j][..j - 1] == b.txs[..j - 1];
      assert b.txs[j - 1].vout[..|b.txs[j - 1].vout|] == b.txs[j - 1].vout;
    }
  }

  lemma OutputsAtAmounts(l: Ledger, b: Block, j: nat, i: nat, k: Key)
    requires Amounted(k) && j < |b.txs| && i <= |b.txs[j].vout|
    ensures var w := OutputsAt(l, b, j, i);
            && BalanceOf(w.l, k) == BalanceOf(l, k) + R.TxsPay(b.txs[..j], k) + R.VoutsPay(b.txs[j].vout[..i], k)
            && SentOf(w.l, k) == SentOf(l, k)
    decreases j, i + 1
  {
    hide BalanceOf, SentOf, AddOutput, R.TxsPay, R.Pay;
    if i == 0 {
      OutputsDoneAmounts(l, b, j, k);
      SameAmounts(OutputsDone(l, b, j).l, OutputsAt(l, b, j, 0).l, k);
    } else {
      OutputsAtAmounts(l, b, j, i - 1, k);
      AddOutputAmounts(OutputsAt(l, b, j, i - 1), b, b.txs[j], i - 1, k);
      assert b.txs[j].vout[..i][..i - 1] == b.txs[j].vout[..i - 1];
    }
  }

  lemma SpendInputAmounts(w: Work, ext: bool, b: Block, tx: Tx, i: nat, chain: seq<Block>, k: Key)
    requires WorkInv(w, b.height) && InputReady(w.l, b, tx, i) && Amounted(k)
    requires tx.vin[i].Some? ==> CoinSaid(w.l.txs, chain, tx.vin[i].value)
    ensures var w', x := SpendInput(w, ext, b, tx, i), R.Take(chain, tx.vin[i], k);
            BalanceOf(w'.l, k) == BalanceOf(w.l, k) - x && SentOf(w'.l, k) == SentOf(w.l, k) + x
  {
    SpendInputKeeps(w, ext, b, tx, i);
    WorkAmounts(w, b.height, k);
    WorkAmounts(SpendInput(w, ext, b, tx, i), b.height, k);
    hide WorkInv, BalanceOf, SentOf, UnspentTotal, SpentTotal, SpendInput, Amount;
    if tx.vin[i].Some? && Source(w.l, tx.vin[i].value).Some? {
      var op := tx.vin[i].value;
      var o := Source(w.l, op).value;
      SaysHits(o.coin, R.VoutOf(chain, op).value, k);
      SpendTotals(w.l.txs, op, tx.txid, i, SpentOutput(o, ext, b, tx, i), FilledInput(o, ext, op), k);
    }
  }

  lemma WorkAmounts(w: Work, h: nat, k: Key)
    requires WorkInv(w, h) && Amounted(k)
    ensures BalanceOf(w.l, k) == UnspentTotal(w.l.txs, k) && SentOf(w.l, k) == SpentTotal(w.l.txs, k)
  {
  }

  lemma InputReadyAt(l: Ledger, b: Block, ext: bool, j: nat, i: nat)
    requires Inv(l) && ValidBlock(l.txs, b) && j < |b.txs| && i < |b.txs[j].vin|
    ensures var w := InputsAt(l, ext, b, j, i); WorkInv(w, b.height) && InputReady(w.l, b, b.txs[j], i)
  {
    hide Inv, ValidBlock, BaseOf, InputShape, InputReady, WorkInv;
    InputsPhase(l, b, ext, j, i);
    NextInputReady(l.txs, OutputsDone(l, b, |b.txs|).l.txs, InputsAt(l, ext, b, j, i).l, b, ext, j, i);
  }

  /** What of the first `j` transactions and the first `i` inputs of the next one takes from the key. */
  function TakenSoFar(chain: seq<Block>, b: Block, k: Key, j: nat, i: nat): nat
    requires j < |b.txs| && i <= |b.txs[j].vin|
  {
    R.TxsTake(chain, b.txs[..j], k) + R.VinsTake(chain, b.txs[j].vin[..i], k)
  }

  lemma InputsDoneAmounts(l: Ledger, b: Block, ext: bool, chain: seq<Block>, j: nat, k: Key)
    requires OnChain(l, b, chain) && Amounted(k) && j <= |b.txs|
    ensures var w, x := InputsDone(l, ext, b, j), R.TxsTake(chain + [b], b.txs[..j], k);
            && BalanceOf(w.l, k) == BalanceOf(l, k) + R.TxsPay(b.txs, k) - x && SentOf(w.l, k) == SentOf(l, k) + x
    decreases j, 0
  {
    hide BalanceOf, SentOf, InputsAt, OnChain, R.VinsTake, R.TxsPay;
    if j > 0 {
      InputsAtAmounts(l, b, ext, chain, j - 1, |b.txs[j - 1].vin|, k);
      assert b.txs[..j][..j - 1] == b.txs[..j - 1];
      assert b.txs[j - 1].vin[..|b.txs[j - 1].vin|] == b.txs[j - 1].vin;
    } else {
      OutputsDoneAmounts(l, b, |b.txs|, k);
      assert b.txs[..|b.txs|] == b.txs;
    }
  }

  lemma InputsAtAmounts(l: Ledger, b: Block, ext: bool, chain: seq<Block>, j: nat, i: nat, k: Key)
    requires OnChain(l, b, chain) && Amounted(k) && j < |b.txs| && i <= |b.txs[j].vin|
    ensures var w, x := InputsAt(l, ext, b, j, i), TakenSoFar(chain + [b], b, k, j, i);
            && BalanceOf(w.l, k) == BalanceOf(l, k) + R.TxsPay(b.txs, k) - x && SentOf(w.l, k) == SentOf(l, k) + x
    decreases j, i + 1
  {
    hide BalanceOf, SentOf, SpendInput, OnChain, R.TxsTake, R.TxsPay, R.Take, InputReady, WorkInv, CoinSaid;
    if i == 0 {
      InputsDoneAmounts(l, b, ext, chain, j, k);
      SameAmounts(InputsDone(l, ext, b, j).l, InputsAt(l, ext, b, j, 0).l, k);
    } else {
      OnChainInv(l, b, chain);
      InputsAtAmounts(l, b, ext, chain, j, i - 1, k);
      InputReadyAt(l, b, ext, j, i - 1);
      if b.txs[j].vin[i - 1].Some? { CoinDuring(l, b, ext, chain, j, i - 1, b.txs[j].vin[i - 1].value); }
      SpendInputAmounts(InputsAt(l, ext, b, j, i - 1), ext, b, b.txs[j], i - 1, chain + [b], k);
      assert b.txs[j].vin[..i][..i - 1] == b.txs[j].vin[..i - 1];
    }
  }

  /** A connected block moves what its inputs take from the balance to the amount sent, and adds what its outputs
      pay. */
  lemma BlockAmounts(l: Ledger, b: Block, ext: bool, chain: seq<Block>, k: Key)
    requires OnChain(l, b, chain) && Amounted(k)
    ensures var l', x := Process(l, ext, b), R.TxsTake(chain + [b], b.txs, k);
            && BalanceOf(l', k) == BalanceOf(l, k) + R.TxsPay(b.txs, k) - x && SentOf(l', k) == SentOf(l, k) + x
  {
    InputsDoneAmounts(l, b, ext, chain, |b.txs|, k);
    assert b.txs[..|b.txs|] == b.txs;
  }

  // ---------------------------------------------------------------- conservation, for any index

  lemma SpendInputSum(w: Work, ext: bool, b: Block, tx: Tx, i: nat, k: Key)
    requires WorkInv(w, b.height) && InputReady(w.l, b, tx, i) && Amounted(k)
    ensures var w' := SpendInput(w, ext, b, tx, i);
            BalanceOf(w'.l, k) + SentOf(w'.l, k) == BalanceOf(w.l, k) + SentOf(w.l, k)
  {
    SpendInputKeeps(w, ext, b, tx, i);
    WorkAmounts(w, b.height, k);
    WorkAmounts(SpendInput(w, ext, b, tx, i), b.height, k);
    hide WorkInv, BalanceOf, SentOf, UnspentTotal, SpentTotal, SpendInput, Amount;
    if tx.vin[i].Some? && Source(w.l, tx.vin[i].value).Some? {
      var op := tx.vin[i].value;
      var o := Source(w.l, op).value;
      SpendTotals(w.l.txs, op, tx.txid, i, SpentOutput(o, ext, b, tx, i), FilledInput(o, ext, op), k);
    }
  }

  lemma InputsDoneSum(l: Ledger, b: Block, ext: bool, j: nat, k: Key)
    requires Inv(l) && ValidBlock(l.txs, b) && Amounted(k) && j <= |b.txs|
    ensures var w := InputsDone(l, ext, b, j);
            BalanceOf(w.l, k) + SentOf(w.l, k) == BalanceOf(l, k) + SentOf(l, k) + R.TxsPay(b.txs, k)
    decreases j, 0
  {
    hide BalanceOf, SentOf, InputsAt, Inv, ValidBlock, R.TxsPay;
    if j > 0 {
      InputsAtSum(l, b, ext, j - 1, |b.txs[j - 1].vin|, k);
    } else {
      OutputsDoneAmounts(l, b, |b.txs|, k);
      assert b.txs[..|b.txs|] == b.txs;
    }
  }

  lemma InputsAtSum(l: Ledger, b: Block, ext: bool, j: nat, i: nat, k: Key)
    requires Inv(l) && ValidBlock(l.txs, b) && Amounted(k) && j < |b.txs| && i <= |b.txs[j].vin|
    ensures var w := InputsAt(l, ext, b, j, i);
            BalanceOf(w.l, k) + SentOf(w.l, k) == BalanceOf(l, k) + SentOf(l, k) + R.TxsPay(b.txs, k)
    decreases j, i + 1
  {
    hide BalanceOf, SentOf, SpendInput, Inv, ValidBlock, R.TxsPay, InputReady, WorkInv;
    if i == 0 {
      InputsDoneSum(l, b, ext, j, k);
      SameAmounts(InputsDone(l, ext, b, j).l, InputsAt(l, ext, b, j, 0).l, k);
    } else {
      InputsAtSum(l, b, ext, j, i - 1, k);
      InputReadyAt(l, b, ext, j, i - 1);
      SpendInputSum(InputsAt(l, ext, b, j, i - 1), ext, b, b.txs[j], i - 1, k);
    }
  }

  /** What an address or a holding has and what was taken from it grow together by exactly what the outputs of the
      block pay it. */
  lemma BlockConserves(l: Ledger, b: Block, ext: bool, k: Key)
    requires Inv(l) && ValidBlock(l.txs, b) && Amounted(k)
    ensures var l' := Process(l, ext, b);
            BalanceOf(l', k) + SentOf(l', k) == BalanceOf(l, k) + SentOf(l, k) + R.TxsPay(b.txs, k)
  {
    InputsDoneSum(l, b, ext, |b.txs|, k);
  }

  /** Output by output, the records of a connected block hold the values, assets and descriptors of the block. */
  lemma BlockRecords(l: Ledger, b: Block, ext: bool, j: nat, i: nat)
    requires Inv(l) && ValidBlock(l.txs, b) && j < |b.txs| && i < |b.txs[j].vout|
    ensures var now, o := Process(l, ext, b).txs, b.txs[j].vout[i];
            && b.txs[j].txid in now && i < |now[b.txs[j].txid].outputs|
            && var c := now[b.txs[j].txid].outputs[i].coin;
               && c.value == o.value && c.asset == o.asset
               && c.addr == if 1 <= |o.desc.script| <= 1024 then o.desc else AddrDesc([])
  {
    hide Inv, ValidBlock, Process, BaseOf, InputShape;
    var now, t := Process(l, ext, b).txs, b.txs[j].txid;
    ProcessKeepsInv(l, ext, b);
    var base: TxColumn :| BaseOf(l.txs, base, b) && InputShape(base, now, b, ext, |b.txs|, -1);
    BaseRecord(l.txs, base, b, j);
    ShapeCoin(base, now, b, ext, |b.txs|, -1, OutPoint(t, i));
    CoinSays(b.txs[j].vout[i], AssetKey(0));
  }

  lemma BaseRecord(was: TxColumn, base: TxColumn, b: Block, j: nat)
    requires BaseOf(was, base, b) && j < |b.txs|
    ensures b.txs[j].txid in base && base[b.txs[j].txid] == Record(b, b.txs[j], |b.txs[j].vout|)
  {
  }
}
