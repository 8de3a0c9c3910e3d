// Tombstones and indexes kept in memory between flushes do not change what a block does:
// folding a block commutes with storing the balances and reading them back.
module BulkStrip {
  import opened Types
  import opened UtxoIndex
  import opened LedgerModel
  import opened LedgerInvariant
  import opened LedgerSteps
  import opened LedgerBlock
  import opened LedgerTheorems

  ghost predicate SameBalance(b: AddrBalance, b': AddrBalance) { StripBalance(b) == StripBalance(b') }

  /** Equal but for tombstones and indexes in the UTXO lists, and for the records of blocks. */
  ghost predicate Alike(l: Ledger, l': Ledger) {
    && l' == Other(l, l') && l'.bals.Keys == l.bals.Keys
    && forall a :: SameBalance(Bal(l, a), Bal(l', a))
  }

  /** `l` with what may differ taken from `l'`. */
  ghost function Other(l: Ledger, l': Ledger): Ledger {
    l.(bals := l'.bals, blockTxs := l'.blockTxs, heights := l'.heights)
  }

  ghost predicate AlikeWork(w: Work, w': Work) { Alike(w.l, w'.l) && w.moved == w'.moved }

  lemma StripTwice(u: UtxoList)
    ensures Strip(Strip(u)) == Strip(u)
  {
    LoadSlots(Live(u.slots));
    LiveFromSlots(u.slots);
    LiveOfLive(Live(u.slots));
  }

  lemma AppendAlike(u: UtxoList, u': UtxoList, x: Utxo)
    requires Strip(u) == Strip(u') && x.vout >= 0
    ensures Strip(Append(u, x)) == Strip(Append(u', x))
  {
    StripAppend(u, x);
    StripAppend(u', x);
  }

  lemma MarkAlike(u: UtxoList, u': UtxoList, t: TxId, v: int)
    requires Strip(u) == Strip(u') && Valid(u) && Valid(u') && v >= 0
    ensures Strip(MarkSpent(u, t, v)) == Strip(MarkSpent(u', t, v))
  {
    StripMarkSpent(u, t, v);
    StripMarkSpent(u', t, v);
  }

  // ---------------------------------------------------------------- steps

  /** The asset part reads and writes the same whatever the UTXO list is. */
  lemma AssetAlike(w: Work, w': Work, h: nat, t: TxId, version: int, a: AddrDesc, b: AddrBalance, b': AddrBalance,
                   info: Option<AssetInfo>, spend: bool)
    requires w'.l == Other(w.l, w'.l) && w'.moved == w.moved && b' == b.(utxos := b'.utxos)
    ensures var (x, y) := ConnectAssetOpt(w, h, t, version, a, b, info, spend);
            var (x', y') := ConnectAssetOpt(w', h, t, version, a, b', info, spend);
            && x'.l == Other(x.l, w'.l) && x'.moved == x.moved && y' == y.(utxos := b'.utxos)
            && x.l.bals == w.l.bals && y.utxos == b.utxos
  {
  }

  lemma StoreAlike(w: Work, w': Work, h: nat, t: TxId, a: AddrDesc, b: AddrBalance, b': AddrBalance, index: int)
    requires AlikeWork(w, w') && SameBalance(b, b')
    ensures AlikeWork(StoreTouched(w, h, t, a, b, index), StoreTouched(w', h, t, a, b', index))
  {
    var x, x' := StoreTouched(w, h, t, a, b, index), StoreTouched(w', h, t, a, b', index);
    assert b' == b.(utxos := b'.utxos);
    forall c ensures SameBalance(Bal(x.l, c), Bal(x'.l, c)) {
      assert SameBalance(Bal(w.l, c), Bal(w'.l, c));
    }
  }

  lemma AlikeAfterAsset(w: Work, w': Work, x: Work, x': Work)
    requires AlikeWork(w, w') && x.l.bals == w.l.bals && x'.l == Other(x.l, w'.l) && x'.moved == x.moved
    ensures AlikeWork(x, x')
  {
    forall c ensures SameBalance(Bal(x.l, c), Bal(x'.l, c)) {
      assert SameBalance(Bal(w.l, c), Bal(w'.l, c));
    }
  }

  /** The last part of a step: what was computed by the asset part goes into the row of the address. */
  lemma TailAlike(w: Work, w': Work, x: Work, x': Work, h: nat, t: TxId, a: AddrDesc, z: AddrBalance, z': AddrBalance,
                  index: int)
    requires AlikeWork(w, w') && x.l.bals == w.l.bals && x'.l == Other(x.l, w'.l) && x'.moved == x.moved
    requires z' == z.(utxos := z'.utxos) && Strip(z.utxos) == Strip(z'.utxos)
    ensures AlikeWork(StoreTouched(x, h, t, a, z, index), StoreTouched(x', h, t, a, z', index))
  {
    AlikeAfterAsset(w, w', x, x');
    StoreAlike(x, x', h, t, a, z, z', index);
  }

  lemma ListsOfAlike(w: Work, w': Work, a: AddrDesc)
    requires AlikeWork(w, w')
    ensures w'.l == Other(w.l, w'.l) && w'.moved == w.moved
    ensures Bal(w'.l, a) == Bal(w.l, a).(utxos := Bal(w'.l, a).utxos)
            && Strip(Bal(w.l, a).utxos) == Strip(Bal(w'.l, a).utxos)
  {
    assert SameBalance(Bal(w.l, a), Bal(w'.l, a));
  }

  lemma ReceiveAlike(w: Work, w': Work, h: nat, t: TxId, version: int, c: Coin, i: nat)
    requires AlikeWork(w, w')
    ensures AlikeWork(Receive(w, h, t, version, c, i), Receive(w', h, t, version, c, i))
  {
    hide AlikeWork, ConnectAssetOpt, StoreTouched, Append, Strip, Bal;
    ListsOfAlike(w, w', c.addr);
    var b, b' := Bal(w.l, c.addr), Bal(w'.l, c.addr);
    var b1, b1' := b.(balance := b.balance + c.value), b'.(balance := b'.balance + c.value);
    AssetAlike(w, w', h, t, version, c.addr, b1, b1', c.asset, false);
    var p, p' := ConnectAssetOpt(w, h, t, version, c.addr, b1, c.asset, false),
        ConnectAssetOpt(w', h, t, version, c.addr, b1', c.asset, false);
    var u := Utxo(t, i, h, c.value, c.asset);
    AppendAlike(b.utxos, b'.utxos, u);
    TailAlike(w, w', p.0, p'.0, h, t, c.addr, p.1.(utxos := Append(p.1.utxos, u)),
        p'.1.(utxos := Append(p'.1.utxos, u)), i);
  }

  lemma SpendAlike(w: Work, w': Work, h: nat, t: TxId, version: int, c: Coin, op: OutPoint, i: nat)
    requires AlikeWork(w, w') && Valid(Bal(w.l, c.addr).utxos) && Valid(Bal(w'.l, c.addr).utxos)
    ensures AlikeWork(Spend(w, h, t, version, c, op, i), Spend(w', h, t, version, c, op, i))
  {
    hide AlikeWork, ConnectAssetOpt, StoreTouched, MarkSpent, Strip, Bal, Valid;
    ListsOfAlike(w, w', c.addr);
    var b, b' := Bal(w.l, c.addr), Bal(w'.l, c.addr);
    AssetAlike(w, w', h, t, version, c.addr, b, b', c.asset, true);
    var p, p' := ConnectAssetOpt(w, h, t, version, c.addr, b, c.asset, true),
        ConnectAssetOpt(w', h, t, version, c.addr, b', c.asset, true);
    MarkAlike(b.utxos, b'.utxos, op.txid, op.vout);
    var left := b.balance - c.value;
    var z := p.1.(utxos := MarkSpent(b.utxos, op.txid, op.vout), balance := if left < 0 then 0 else left, sent :=
        b.sent + c.value);
    var z' := p'.1.(utxos := MarkSpent(b'.utxos, op.txid, op.vout), balance := if left < 0 then 0 else left, sent :=
        b.sent + c.value);
    TailAlike(w, w', p.0, p'.0, h, t, c.addr, z, z', -1 - i);
  }

  lemma TxsAlike(w: Work, w': Work, txs: TxColumn)
    requires AlikeWork(w, w')
    ensures AlikeWork(w.(l := w.l.(txs := txs)), w'.(l := w'.l.(txs := txs)))
  {
    var x, x' := w.(l := w.l.(txs := txs)), w'.(l := w'.l.(txs := txs));
    forall c ensures SameBalance(Bal(x.l, c), Bal(x'.l, c)) {
      assert SameBalance(Bal(w.l, c), Bal(w'.l, c));
    }
  }

  lemma AddOutputAlike(w: Work, w': Work, b: Block, tx: Tx, i: nat)
    requires AlikeWork(w, w') && i < |tx.vout|
    ensures AlikeWork(AddOutput(w, b, tx, i), AddOutput(w', b, tx, i))
  {
    var c := CoinOf(tx.vout[i]);
    var txs := SetOutput(w.l.txs, tx.txid, i, TxOutput(c, false, None));
    TxsAlike(w, w', txs);
    if Indexable(c.addr) {
      ReceiveAlike(w.(l := w.l.(txs := txs)), w'.(l := w'.l.(txs := txs)), b.height, tx.txid, tx.version, c, i);
    }
  }

  lemma SpendInputAlike(w: Work, w': Work, ext: bool, b: Block, tx: Tx, i: nat)
    requires AlikeWork(w, w') && i < |tx.vin| && ListsOk(w.l, w.l.txs) && ListsOk(w'.l, w'.l.txs)
    ensures AlikeWork(SpendInput(w, ext, b, tx, i), SpendInput(w', ext, b, tx, i))
  {
    if !(tx.vin[i].None? || Source(w.l, tx.vin[i].value).None?) {
      var op := tx.vin[i].value;
      var o := Source(w.l, op).value;
      var txs := InputColumn(w.l, ext, b, tx, i);
      TxsAlike(w, w', txs);
      if Indexable(o.coin.addr) {
        assert ListOk(Bal(w.l, o.coin.addr).utxos, w.l.txs, o.coin.addr);
        assert ListOk(Bal(w'.l, o.coin.addr).utxos, w'.l.txs, o.coin.addr);
        var x, x' := w.(l := w.l.(txs := txs)), w'.(l := w'.l.(txs := txs));
        SpendAlike(x, x', b.height, tx.txid, tx.version, o.coin, op, i);
      }
    }
  }

  // ---------------------------------------------------------------- the block

  lemma NewTxAlike(w: Work, w': Work, b: Block, tx: Tx)
    requires AlikeWork(w, w')
    ensures AlikeWork(NewTx(w, b, tx), NewTx(w', b, tx))
  {
    TxsAlike(w, w', NewTx(w, b, tx).l.txs);
  }

  lemma OutputsDoneAlike(l: Ledger, l': Ledger, b: Block, j: nat)
    requires Alike(l, l') && j <= |b.txs|
    ensures AlikeWork(OutputsDone(l, b, j), OutputsDone(l', b, j))
    decreases j, 0
  {
    if j > 0 { OutputsAtAlike(l, l', b, j - 1, |b.txs[j - 1].vout|); }
  }

  lemma OutputsAtAlike(l: Ledger, l': Ledger, b: Block, j: nat, i: nat)
    requires Alike(l, l') && j < |b.txs| && i <= |b.txs[j].vout|
    ensures AlikeWork(OutputsAt(l, b, j, i), OutputsAt(l', b, j, i))
    decreases j, i + 1
  {
    hide AlikeWork, NewTx, AddOutput;
    if i == 0 {
      OutputsDoneAlike(l, l', b, j);
      NewTxAlike(OutputsDone(l, b, j), OutputsDone(l', b, j), b, b.txs[j]);
    } else {
      OutputsAtAlike(l, l', b, j, i - 1);
      AddOutputAlike(OutputsAt(l, b, j, i - 1), OutputsAt(l', b, j, i - 1), b, b.txs[j], i - 1);
    }
  }

  lemma InputsDoneAlike(l: Ledger, l': Ledger, ext: bool, b: Block, j: nat)
    requires Alike(l, l') && Inv(l) && Inv(l') && ValidBlock(l.txs, b) && j <= |b.txs|
    ensures AlikeWork(InputsDone(l, ext, b, j), InputsDone(l', ext, b, j))
    decreases j, 0
  {
    hide AlikeWork, Inv, ValidBlock;
    if j > 0 { InputsAtAlike(l, l', ext, b, j - 1, |b.txs[j - 1].vin|); } else { OutputsDoneAlike(l, l', b, |b.txs|); }
  }

  lemma ListsAt(l: Ledger, b: Block, ext: bool, j: nat, i: nat)
    requires Inv(l) && ValidBlock(l.txs, b) && j < |b.txs| && i <= |b.txs[j].vin|
    ensures var w := InputsAt(l, ext, b, j, i); ListsOk(w.l, w.l.txs)
  {
    InputsPhase(l, b, ext, j, i);
  }

  lemma InputsAtAlike(l: Ledger, l': Ledger, ext: bool, b: Block, j: nat, i: nat)
    requires Alike(l, l') && Inv(l) && Inv(l') && ValidBlock(l.txs, b) && j < |b.txs| && i <= |b.txs[j].vin|
    ensures AlikeWork(InputsAt(l, ext, b, j, i), InputsAt(l', ext, b, j, i))
    decreases j, i + 1
  {
    hide AlikeWork, Inv, ValidBlock, InputShape, BaseOf, SpendInput, NewInputs;
    if i == 0 {
      InputsDoneAlike(l, l', ext, b, j);
      NewInputsAlike(InputsDone(l, ext, b, j), InputsDone(l', ext, b, j), b.txs[j]);
    } else {
      InputsAtAlike(l, l', ext, b, j, i - 1);
      ListsAt(l, b, ext, j, i - 1);
      ListsAt(l', b, ext, j, i - 1);
      SpendInputAlike(InputsAt(l, ext, b, j, i - 1), InputsAt(l', ext, b, j, i - 1), ext, b, b.txs[j], i - 1);
    }
  }

  lemma NewInputsAlike(w: Work, w': Work, tx: Tx)
    requires AlikeWork(w, w')
    ensures AlikeWork(NewInputs(w, tx), NewInputs(w', tx))
  {
    TxsAlike(w, w', NewInputs(w, tx).l.txs);
  }

  /** A block does the same to a ledger with tombstones as to the same ledger stored and read back. */
  lemma ProcessAlike(l: Ledger, l': Ledger, ext: bool, b: Block)
    requires Alike(l, l') && Inv(l) && Inv(l') && ValidBlock(l.txs, b)
    ensures Alike(Process(l, ext, b), Process(l', ext, b))
  {
    InputsDoneAlike(l, l', ext, b, |b.txs|);
  }
}
