// The spent mark of an output without descriptor is set by a connect and not cleared by the disconnect.
module LedgerMarks {
  import opened Types
  import opened LedgerModel
  import opened LedgerInvariant
  import opened LedgerBlock
  import opened LedgerUndo
  import opened LedgerTheorems
  import opened LedgerRuns

  /** A block that spends an output without descriptor leaves its mark behind. */
  lemma MarkStays(l: Ledger, ext: bool, b: Block, x: nat, y: nat, op: OutPoint)
    requires Good(l) && ValidBlock(l.txs, b) && b.height !in l.blockTxs && b.height !in l.heights
    requires Takes(b, x, y, op) && op.txid in l.txs && op.vout < |l.txs[op.txid].outputs|
    requires l.txs[op.txid].outputs[op.vout].coin.addr == NoAddr && !l.txs[op.txid].outputs[op.vout].spent
    ensures var r := Disconnect(ConnectBlock(l, ext, b), b.height); r.Some? && r.value.txs != l.txs
  {
    hide Good, ValidBlock, Disconnect, ConnectBlock, Restored;
    DisconnectUndoesConnect(l, ext, b);
    if MarksInPlace(l.txs, b, ext) {
      assert false;
    }
  }

  const Paid := TxId([1])
  const Spender := TxId([2])

  /** A block of one transaction with one output whose script gave no descriptor. */
  const First := Block(1, "first", [Tx(Paid, 0, [], [Vout(NoAddr, 5, None)])])

  /** The next block spends that output. */
  const Next := Block(2, "next", [Tx(Spender, 0, [Some(OutPoint(Paid, 0))], [])])

  lemma FirstColumn(txs: TxColumn, ext: bool)
    requires Extends(map[], txs, First, ext)
    ensures txs.Keys == {Paid} && txs[Paid].height == 1
    ensures txs[Paid].outputs == [TxOutput(Coin(NoAddr, 5, None), false, None)]
  {
    var base: TxColumn :| BaseOf(map[], base, First) && InputShape(base, txs, First, ext, |First.txs|, -1);
    forall t | t in base ensures t == Paid { assert InBlock(First, t, |First.txs|); }
    assert First.txs[0].txid == Paid && Paid in base;
    assert base[Paid] == Record(First, First.txs[0], 1);
    assert Kept(base[Paid], txs[Paid], First, ext, Paid, |First.txs|, -1);
    forall op ensures !Taken(First, op, |First.txs|, -1) { }
  }

  lemma FirstIsValid()
    ensures ValidBlock(EmptyLedger.txs, First)
  {
  }

  lemma NextIsValid(txs: TxColumn)
    requires txs.Keys == {Paid} && txs[Paid].height == 1
    requires txs[Paid].outputs == [TxOutput(Coin(NoAddr, 5, None), false, None)]
    ensures ValidBlock(txs, Next)
  {
    assert FreeOutput(txs, OutPoint(Paid, 0));
  }

  /** After two blocks connected from scratch, disconnecting the second leaves the mark it set. */
  lemma MarkStaysHere(ext: bool)
    ensures ValidBlock(EmptyLedger.txs, First)
    ensures var l := ConnectBlock(EmptyLedger, ext, First);
            && Good(l) && ValidBlock(l.txs, Next)
            && var r := Disconnect(ConnectBlock(l, ext, Next), Next.height);
               r.Some? && r.value.txs != l.txs
  {
    hide Good, ValidBlock, Disconnect, ConnectBlock, Extends;
    EmptyGood();
    FirstIsValid();
    ConnectKeepsGood(EmptyLedger, ext, First);
    var l := ConnectBlock(EmptyLedger, ext, First);
    FirstColumn(l.txs, ext);
    NextIsValid(l.txs);
    assert Takes(Next, 0, 0, OutPoint(Paid, 0));
    MarkStays(l, ext, Next, 0, 0, OutPoint(Paid, 0));
  }
}
