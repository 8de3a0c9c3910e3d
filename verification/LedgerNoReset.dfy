// Amounts that would go below zero are reset to zero by the code; on valid blocks that never happens.
module LedgerNoReset {
  import opened Types
  import opened LedgerModel
  import opened LedgerInvariant
  import opened LedgerBlock
  import opened LedgerUndo
  import opened LedgerUndoSteps
  import opened LedgerUndoBlock
  import opened LedgerTheorems

  /** What the address of `c` holds, or has sent, is at least what `c` takes from it, in coins and in its asset. */
  ghost predicate Enough(l: Ledger, c: Coin, sent: bool) {
    && (if sent then Bal(l, c.addr).sent else Bal(l, c.addr).balance) >= c.value
    && (c.asset.Some? ==>
          var ab := AssetBal(Bal(l, c.addr), c.asset.value.guid);
          (if sent then ab.sent else ab.balance) >= c.asset.value.value)
  }

  lemma UnspentIsCovered(l: Ledger, t: TxId, i: nat)
    requires AmountsOk(l, l.txs) && t in l.txs && i < |l.txs[t].outputs| && !l.txs[t].outputs[i].spent
             && Indexable(l.txs[t].outputs[i].coin.addr)
    ensures Enough(l, l.txs[t].outputs[i].coin, false)
  {
    var c := l.txs[t].outputs[i].coin;
    forall k: Key | !k.AssetKey? && Hits(c, k) ensures BalanceOf(l, k) >= Amount(c, k) {
      UnspentTotalAtLeast(l.txs, t, i, k);
    }
    CoversParts(l, c, false);
  }

  /** Connecting: when an input is processed that takes a known output, the address still has what it spends. */
  lemma ConnectNeverResets(l: Ledger, ext: bool, b: Block, j: nat, i: nat)
    requires Inv(l) && ValidBlock(l.txs, b) && j < |b.txs| && i < |b.txs[j].vin| && b.txs[j].vin[i].Some?
    ensures var w := InputsAt(l, ext, b, j, i);
            var o := Source(w.l, b.txs[j].vin[i].value);
            o.Some? && Indexable(o.value.coin.addr) ==> Enough(w.l, o.value.coin, false)
  {
    hide Inv, ValidBlock, Enough, InputShape, BaseOf;
    var w, op := InputsAt(l, ext, b, j, i), b.txs[j].vin[i].value;
    var base := OutputsDone(l, b, |b.txs|).l.txs;
    InputsPhase(l, b, ext, j, i);
    NextInputReady(l.txs, base, w.l, b, ext, j, i);
    if Source(w.l, op).Some? && Indexable(Source(w.l, op).value.coin.addr) {
      AmountsAt(w.l);
      UnspentIsCovered(w.l, op.txid, op.vout);
    }
  }

  lemma AmountsAt(l: Ledger)
    requires Inv(l)
    ensures AmountsOk(l, l.txs)
  {
  }

  /** Disconnecting: when an input is taken back, its address has sent at least its value. */
  lemma DisconnectNeverResetsSent(l: Ledger, b: Block, j: nat, i: nat)
    requires Good(l) && BlockOnTop(l.txs, b) && j < |b.txs| && i < |b.txs[j].vin|
    ensures b.txs[j].txid in l.txs && i < |l.txs[b.txs[j].txid].inputs|
    ensures |StoredTx(l, BlockTxsOf(b)[j].txid).inputs| == |b.txs[j].vin|
    ensures var c := l.txs[b.txs[j].txid].inputs[i].coin;
            Indexable(c.addr) ==> Enough(UndoInputsAt(l, BlockTxsOf(b), j, i).l, c, true)
  {
    assert BlockRecord(l.txs, b, j);
    var t := b.txs[j].txid;
    var c := l.txs[t].inputs[i].coin;
    if Indexable(c.addr) {
      var d := UndoInputsAt(l, BlockTxsOf(b), j, i);
      var v := InputsBack(l, b, j, i);
      BackReady(l.txs, v, b, j, i);
      CoversSent(d.l, v, b.txs[j].vin[i].value, t, i, c);
      CoversParts(d.l, c, true);
    }
  }

  /** And when an output is taken back, its address still holds its value. */
  lemma DisconnectNeverResetsBalance(l: Ledger, b: Block, j: nat, i: nat)
    requires Good(l) && BlockOnTop(l.txs, b) && j < |b.txs| && i < |b.txs[j].vout|
    ensures b.txs[j].txid in l.txs && i < |l.txs[b.txs[j].txid].outputs|
    ensures |StoredTx(l, BlockTxsOf(b)[j].txid).outputs| == |b.txs[j].vout|
    ensures var c := l.txs[b.txs[j].txid].outputs[i].coin;
            Indexable(c.addr) ==> Enough(UndoOutputsAt(l, BlockTxsOf(b), j, i).l, c, false)
  {
    assert BlockRecord(l.txs, b, j);
    var t := b.txs[j].txid;
    var c := l.txs[t].outputs[i].coin;
    if Indexable(c.addr) {
      var d := UndoOutputsAt(l, BlockTxsOf(b), j, i);
      var u, v := OutputsBack(l, b, j, i);
      GoneReady(l.txs, u, v, b, j, i);
      RemovableIsCovered(d.l, v, t, i, c);
    }
  }

  lemma RemovableIsCovered(l: Ledger, v: TxColumn, t: TxId, i: nat, c: Coin)
    requires AmountsOk(l, v) && RemoveReady(v, t, i, c) && Indexable(c.addr)
    ensures Enough(l, c, false)
  {
    forall k: Key | !k.AssetKey? && Hits(c, k) ensures BalanceOf(l, k) >= Amount(c, k) {
      RemoveTotals(v, t, i, c, k);
    }
    CoversParts(l, c, false);
  }
}
