// What connecting a block leaves alone: rows of other heights, and the height order of the lists.
module LedgerFrame {
  import opened Types
  import opened UtxoIndex
  import opened LedgerModel

  ghost predicate ListUpTo(s: seq<Utxo>, h: nat) {
    SortedByHeight(s) && forall i :: 0 <= i < |s| ==> s[i].height <= h
  }

  /** Lists are in height order up to `h`; rows of other heights are those of `l`. */
  ghost predicate Framed(l: Ledger, l': Ledger, h: nat) {
    && (forall a :: ListUpTo(Bal(l', a).utxos.slots, h))
    && (forall k: AddrRow {:trigger RowOf(l', k)} :: k.height != h ==> RowOf(l', k) == RowOf(l, k))
    && (forall k: AssetRow {:trigger AssetRowOf(l', k)} :: k.height != h ==> AssetRowOf(l', k) == AssetRowOf(l, k))
  }

  lemma AppendUpTo(u: UtxoList, x: Utxo, h: nat)
    requires ListUpTo(u.slots, h) && x.height == h
    ensures ListUpTo(Append(u, x).slots, h)
  {
  }

  lemma MarkUpTo(u: UtxoList, t: TxId, v: int, h: nat)
    requires ListUpTo(u.slots, h)
    ensures ListUpTo(MarkSpent(u, t, v).slots, h)
  {
    var r := MarkSpent(u, t, v).slots;
    assert |r| == |u.slots| && forall i :: 0 <= i < |r| ==> r[i].height == u.slots[i].height;
  }

  lemma ReceiveFramed(l: Ledger, w: Work, h: nat, t: TxId, version: int, c: Coin, i: nat)
    requires Framed(l, w.l, h)
    ensures Framed(l, Receive(w, h, t, version, c, i).l, h)
  {
    var w' := Receive(w, h, t, version, c, i);
    AppendUpTo(Bal(w.l, c.addr).utxos, Utxo(t, i, h, c.value, c.asset), h);
    forall a ensures ListUpTo(Bal(w'.l, a).utxos.slots, h) {
      assert ListUpTo(Bal(w.l, a).utxos.slots, h);
    }
    forall k: AddrRow | k.height != h ensures RowOf(w'.l, k) == RowOf(l, k) {
      assert RowOf(w.l, k) == RowOf(l, k);
    }
    forall k: AssetRow | k.height != h ensures AssetRowOf(w'.l, k) == AssetRowOf(l, k) {
      assert AssetRowOf(w.l, k) == AssetRowOf(l, k);
    }
  }

  lemma SpendFramed(l: Ledger, w: Work, h: nat, t: TxId, version: int, c: Coin, op: OutPoint, i: nat)
    requires Framed(l, w.l, h)
    ensures Framed(l, Spend(w, h, t, version, c, op, i).l, h)
  {
    var w' := Spend(w, h, t, version, c, op, i);
    MarkUpTo(Bal(w.l, c.addr).utxos, op.txid, op.vout, h);
    forall a ensures ListUpTo(Bal(w'.l, a).utxos.slots, h) {
      assert ListUpTo(Bal(w.l, a).utxos.slots, h);
    }
    forall k: AddrRow | k.height != h ensures RowOf(w'.l, k) == RowOf(l, k) {
      assert RowOf(w.l, k) == RowOf(l, k);
    }
    forall k: AssetRow | k.height != h ensures AssetRowOf(w'.l, k) == AssetRowOf(l, k) {
      assert AssetRowOf(w.l, k) == AssetRowOf(l, k);
    }
  }

  lemma TxsFramed(l: Ledger, l1: Ledger, l2: Ledger, h: nat)
    requires Framed(l, l1, h) && l2 == l1.(txs := l2.txs)
    ensures Framed(l, l2, h)
  {
    forall a ensures Bal(l2, a) == Bal(l1, a) { }
    forall k ensures RowOf(l2, k) == RowOf(l1, k) { }
    forall k ensures AssetRowOf(l2, k) == AssetRowOf(l1, k) { }
  }

  lemma AddOutputFramed(l: Ledger, w: Work, b: Block, tx: Tx, i: nat)
    requires Framed(l, w.l, b.height) && i < |tx.vout|
    ensures Framed(l, AddOutput(w, b, tx, i).l, b.height)
  {
    var c := CoinOf(tx.vout[i]);
    var mid := w.(l := w.l.(txs := SetOutput(w.l.txs, tx.txid, i, TxOutput(c, false, None))));
    TxsFramed(l, w.l, mid.l, b.height);
    hide Framed;
    if Indexable(c.addr) { ReceiveFramed(l, mid, b.height, tx.txid, tx.version, c, i); }
  }

  lemma SpendInputFramed(l: Ledger, w: Work, ext: bool, b: Block, tx: Tx, i: nat)
    requires Framed(l, w.l, b.height) && i < |tx.vin|
    ensures Framed(l, SpendInput(w, ext, b, tx, i).l, b.height)
  {
    hide Framed;
    if !(tx.vin[i].None? || Source(w.l, tx.vin[i].value).None?) {
      var op := tx.vin[i].value;
      var o := Source(w.l, op).value;
      var spender := if ext then Some(SpendRef(tx.txid, i, b.height)) else o.spender;
      var txs := SetOutput(w.l.txs, op.txid, op.vout, TxOutput(o.coin, true, spender));
      var mid := w.(l := w.l.(txs := SetInput(txs, tx.txid, i, TxInput(o.coin, if ext then Some(op) else None))));
      TxsFramed(l, w.l, mid.l, b.height);
      if Indexable(o.coin.addr) { SpendFramed(l, mid, b.height, tx.txid, tx.version, o.coin, op, i); }
    }
  }

  lemma OutputsDoneFramed(l: Ledger, b: Block, j: nat)
    requires Framed(l, l, b.height) && j <= |b.txs|
    ensures Framed(l, OutputsDone(l, b, j).l, b.height)
    decreases j, 0
  {
    if j > 0 { OutputsAtFramed(l, b, j - 1, |b.txs[j - 1].vout|); }
  }

  lemma OutputsAtFramed(l: Ledger, b: Block, j: nat, i: nat)
    requires Framed(l, l, b.height) && j < |b.txs| && i <= |b.txs[j].vout|
    ensures Framed(l, OutputsAt(l, b, j, i).l, b.height)
    decreases j, i + 1
  {
    if i == 0 {
      OutputsDoneFramed(l, b, j);
      TxsFramed(l, OutputsDone(l, b, j).l, OutputsAt(l, b, j, 0).l, b.height);
    } else {
      OutputsAtFramed(l, b, j, i - 1);
      AddOutputFramed(l, OutputsAt(l, b, j, i - 1), b, b.txs[j], i - 1);
    }
  }

  lemma InputsDoneFramed(l: Ledger, ext: bool, b: Block, j: nat)
    requires Framed(l, l, b.height) && j <= |b.txs|
    ensures Framed(l, InputsDone(l, ext, b, j).l, b.height)
    decreases j, 0
  {
    if j > 0 { InputsAtFramed(l, ext, b, j - 1, |b.txs[j - 1].vin|); } else { OutputsDoneFramed(l, b, |b.txs|); }
  }

  lemma InputsAtFramed(l: Ledger, ext: bool, b: Block, j: nat, i: nat)
    requires Framed(l, l, b.height) && j < |b.txs| && i <= |b.txs[j].vin|
    ensures Framed(l, InputsAt(l, ext, b, j, i).l, b.height)
    decreases j, i + 1
  {
    if i == 0 {
      InputsDoneFramed(l, ext, b, j);
      TxsFramed(l, InputsDone(l, ext, b, j).l, InputsAt(l, ext, b, j, 0).l, b.height);
    } else {
      InputsAtFramed(l, ext, b, j, i - 1);
      SpendInputFramed(l, InputsAt(l, ext, b, j, i - 1), ext, b, b.txs[j], i - 1);
    }
  }

  /** Folding in a block at `b.height` touches no row of another height and keeps the lists in height order. */
  lemma ProcessFramed(l: Ledger, ext: bool, b: Block)
    requires forall a :: ListUpTo(Bal(l, a).utxos.slots, b.height)
    ensures Framed(l, Process(l, ext, b), b.height)
  {
    InputsDoneFramed(l, ext, b, |b.txs|);
  }
}
