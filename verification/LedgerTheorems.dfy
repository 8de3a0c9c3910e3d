// Connecting and disconnecting blocks as the index does it, and what holds of them.
module LedgerTheorems {
  import opened Types
  import opened UtxoIndex
  import opened LedgerModel
  import opened LedgerInvariant
  import opened LedgerSteps
  import opened LedgerBlock
  import opened LedgerUndo
  import opened LedgerUndoBlock
  import opened LedgerFinish
  import opened LedgerFrame

  // ---------------------------------------------------------------- storing

  function StripBalance(b: AddrBalance): AddrBalance { b.(utxos := Strip(b.utxos)) }

  /** Balances are stored without tombstones and read back with a fresh index. */
  function StripAll(l: Ledger): Ledger {
    l.(bals := map a | a in l.bals :: StripBalance(l.bals[a]))
  }

  /** ConnectBlock: fold the block in, store, and record the block's transactions and height. */
  function ConnectBlock(l: Ledger, ext: bool, b: Block): Ledger {
    StripAll(Process(l, ext, b)).(
      blockTxs := l.blockTxs[b.height := BlockTxsOf(b)],
      heights := l.heights[b.height := b.hash])
  }

  lemma StripBal(l: Ledger, a: AddrDesc)
    ensures Bal(StripAll(l), a) == StripBalance(Bal(l, a))
  {
  }

  lemma {:induction false} LiveSorted(s: seq<Utxo>)
    requires SortedByHeight(s)
    ensures SortedByHeight(Live(s))
  {
    if s != [] {
      var n := |s| - 1;
      LiveSorted(s[..n]);
      LiveFromSlots(s[..n]);
      var r := Live(s[..n]);
      forall i | 0 <= i < |r| ensures r[i].height <= s[n].height {
        assert r[i] in s[..n];
      }
    }
  }

  lemma StripStored(u: UtxoList)
    requires SortedByHeight(u.slots)
    ensures ListStored(Strip(u))
  {
    LiveSorted(u.slots);
    LoadSlots(Live(u.slots));
    LiveFromSlots(u.slots);
  }

  lemma StripListOk(u: UtxoList, txs: TxColumn, a: AddrDesc)
    requires ListOk(u, txs, a)
    ensures ListOk(Strip(u), txs, a)
  {
    StripIsValid(u);
    LiveFromSlots(u.slots);
  }

  /** Some of the balances were written out and read back. */
  ghost predicate PartlyStored(l: Ledger, l': Ledger) {
    && l' == l.(bals := l'.bals) && l'.bals.Keys == l.bals.Keys
    && forall a :: Bal(l', a) == Bal(l, a) || Bal(l', a) == StripBalance(Bal(l, a))
  }

  lemma StripAmounts(l: Ledger, l': Ledger, txs: TxColumn)
    requires AmountsOk(l, txs) && CountsOk(l, txs) && PartlyStored(l, l')
    ensures AmountsOk(l', txs) && CountsOk(l', txs)
  {
    forall k: Key | !k.AssetKey? && Indexable(k.addr)
      ensures BalanceOf(l', k) == UnspentTotal(txs, k) && SentOf(l', k) == SpentTotal(txs, k)
    {
      assert BalanceOf(l', k) == BalanceOf(l, k) && SentOf(l', k) == SentOf(l, k);
    }
    forall k | Countable(k) ensures CountOf(l', k) == |Touching(txs, k)| {
      assert CountOf(l', k) == CountOf(l, k);
    }
  }

  /** The invariant does not see tombstones: it survives writing balances out and reading them back. */
  lemma PartlyStoredKeepsInv(l: Ledger, l': Ledger)
    requires Inv(l) && PartlyStored(l, l')
    ensures Inv(l')
  {
    hide Strip, ListOk, RowOk;
    StripAmounts(l, l', l.txs);
    forall a | Indexable(a) ensures ListOk(Bal(l', a).utxos, l'.txs, a) {
      StripListOk(Bal(l, a).utxos, l.txs, a);
    }
    forall a | a in l'.bals ensures Indexable(a) && l'.bals[a].txs > 0 {
      assert Bal(l', a).txs == Bal(l, a).txs;
    }
    OtherColumns(l, l');
  }

  lemma StripKeepsInv(l: Ledger)
    requires Inv(l)
    ensures Inv(StripAll(l))
  {
    forall a ensures Bal(StripAll(l), a) == StripBalance(Bal(l, a)) { StripBal(l, a); }
    PartlyStoredKeepsInv(l, StripAll(l));
  }

  lemma OtherColumns(l: Ledger, l': Ledger)
    requires l'.rows == l.rows && l'.assetRows == l.assetRows && l'.txs == l.txs
    ensures RowsOk(l, l.txs) ==> RowsOk(l', l'.txs)
    ensures AssetRowsOk(l, l.txs) ==> AssetRowsOk(l', l'.txs)
  {
    forall k ensures RowOf(l', k) == RowOf(l, k) { }
    forall k ensures AssetRowOf(l', k) == AssetRowOf(l, k) { }
  }

  lemma InvIgnoresBlocks(l: Ledger, l': Ledger)
    requires Inv(l) && l' == l.(blockTxs := l'.blockTxs, heights := l'.heights)
    ensures Inv(l')
  {
    OtherColumns(l, l');
    assert forall a :: Bal(l', a) == Bal(l, a);
    forall k: Key | !k.AssetKey? && Indexable(k.addr)
      ensures BalanceOf(l', k) == UnspentTotal(l'.txs, k) && SentOf(l', k) == SpentTotal(l'.txs, k)
    {
      assert BalanceOf(l', k) == BalanceOf(l, k) && SentOf(l', k) == SentOf(l, k);
    }
    forall k | Countable(k) ensures CountOf(l', k) == |Touching(l'.txs, k)| {
      assert CountOf(l', k) == CountOf(l, k);
    }
  }

  // ---------------------------------------------------------------- connecting

  /** An unspent output with a descriptor names no spender. */
  ghost predicate SpendersOk(txs: TxColumn) {
    forall t, i ::
        t in txs && 0 <= i < |txs[t].outputs| && txs[t].outputs[i].coin.addr != NoAddr && !txs[t].outputs[i].spent ==>
                     txs[t].outputs[i].spender == None
  }

  /** A ledger as found in the database. */
  ghost predicate Good(l: Ledger) { Inv(l) && Stored(l) && SpendersOk(l.txs) }

  lemma ListsUpTo(l: Ledger, h: nat, a: AddrDesc)
    requires Inv(l) && Stored(l) && NewHeight(l.txs, h)
    ensures ListUpTo(Bal(l, a).utxos.slots, h)
  {
    var s := Bal(l, a).utxos.slots;
    assert ListStored(Bal(l, a).utxos);
    if Indexable(a) {
      assert ListOk(Bal(l, a).utxos, l.txs, a);
      forall i | 0 <= i < |s| ensures s[i].height <= h {
        assert s[i] in LiveSet(s);
        assert IsUnspent(l.txs, a, s[i]);
      }
    } else {
      assert a !in l.bals;
    }
  }

  /** Output `i` of `t` after the block, in terms of what it was (or is created as). */
  lemma OutputAfter(was: TxColumn, base: TxColumn, now: TxColumn, b: Block, ext: bool, t: TxId, i: nat)
    requires BaseOf(was, base, b) && InputShape(base, now, b, ext, |b.txs|, -1)
    requires t in now && i < |now[t].outputs|
    ensures t in base && i < |base[t].outputs|
    ensures OutputKept(base[t].outputs[i], now[t].outputs[i], b, ext, OutPoint(t, i), |b.txs|, -1)
    ensures t in was ==> base[t] == was[t]
    ensures t !in was ==> !base[t].outputs[i].spent && base[t].outputs[i].spender == None
  {
    assert Kept(base[t], now[t], b, ext, t, |b.txs|, -1);
    if t !in was {
      var j :| 0 <= j < |b.txs| && b.txs[j].txid == t;
      assert base[t] == Record(b, b.txs[j], |b.txs[j].vout|);
    }
  }

  lemma ExtendsSpenders(was: TxColumn, now: TxColumn, b: Block, ext: bool)
    requires Extends(was, now, b, ext) && SpendersOk(was)
    ensures SpendersOk(now)
  {
    var base: TxColumn :| BaseOf(was, base, b) && InputShape(base, now, b, ext, |b.txs|, -1);
    forall t, i | t in now && 0 <= i < |now[t].outputs| && now[t].outputs[i].coin.addr != NoAddr
        && !now[t].outputs[i].spent
      ensures now[t].outputs[i].spender == None
    {
      OutputAfter(was, base, now, b, ext, t, i);
      hide InputShape;
      hide BaseOf;
    }
  }

  lemma ConnectStored(l: Ledger, ext: bool, b: Block)
    requires Inv(l) && Stored(l) && NewHeight(l.txs, b.height)
    ensures Stored(ConnectBlock(l, ext, b))
    ensures Framed(l, Process(l, ext, b), b.height)
  {
    forall a ensures ListUpTo(Bal(l, a).utxos.slots, b.height) { ListsUpTo(l, b.height, a); }
    ProcessFramed(l, ext, b);
    var p := Process(l, ext, b);
    forall a ensures ListStored(Bal(ConnectBlock(l, ext, b), a).utxos) {
      StripBal(p, a);
      assert ListUpTo(Bal(p, a).utxos.slots, b.height);
      StripStored(Bal(p, a).utxos);
    }
  }

  /** Connecting a valid block to a good ledger gives a good ledger with that block on top. */
  lemma ConnectKeepsGood(l: Ledger, ext: bool, b: Block)
    requires Good(l) && ValidBlock(l.txs, b)
    ensures var l' := ConnectBlock(l, ext, b);
            && Good(l') && Extends(l.txs, l'.txs, b, ext) && BlockOnTop(l'.txs, b)
            && l'.blockTxs == l.blockTxs[b.height := BlockTxsOf(b)] && l'.heights == l.heights[b.height := b.hash]
  {
    ProcessKeepsInv(l, ext, b);
    var p := Process(l, ext, b);
    StripKeepsInv(p);
    InvIgnoresBlocks(StripAll(p), ConnectBlock(l, ext, b));
    ConnectStored(l, ext, b);
    ExtendsSpenders(l.txs, p.txs, b, ext);
    ExtendsOnTop(l.txs, p.txs, b, ext);
  }

  // ---------------------------------------------------------------- disconnecting

  /** The column without the block, with the outputs it took given back. */
  ghost predicate TakenOut(was: TxColumn, now: TxColumn, b: Block) {
    && (forall t :: t in now <==> t in was && !InBlock(b, t, |b.txs|))
    && (forall t :: t in now ==> OutputsFreed(was[t], now[t], b, t, |b.txs|, 0) && now[t].inputs == was[t].inputs)
  }

  lemma FinalTakenOut(l: Ledger, d: Undo, u: TxColumn, v: TxColumn, b: Block)
    requires AllBack(l, d, u, v, b)
    ensures TakenOut(l.txs, Finish(d, BlockTxsOf(b), b.height).txs, b)
  {
    var now := Finish(d, BlockTxsOf(b), b.height).txs;
    FinalColumn(l, d, u, v, b);
    forall t | t in now ensures OutputsFreed(l.txs[t], now[t], b, t, |b.txs|, 0) {
      assert OutputsFreed(l.txs[t], u[t], b, t, |b.txs|, 0);
      assert now[t] == l.txs[t].(outputs := u[t].outputs);
    }
  }

  /** Rows after a disconnect: those of the block's height are gone, the others untouched. */
  ghost predicate RowsTakenOut(l: Ledger, l': Ledger, h: nat) {
    && (forall k: AddrRow {:trigger RowOf(l', k)} :: Indexable(k.addr) ==>
         RowOf(l', k) == if k.height == h then [] else RowOf(l, k))
    && (forall k: AssetRow {:trigger AssetRowOf(l', k)} :: k.height != h ==> AssetRowOf(l', k) == AssetRowOf(l, k))
    && l'.blockTxs == l.blockTxs - {h} && l'.heights == l.heights - {h}
  }

  lemma FinalRowsTakenOut(l: Ledger, d: Undo, u: TxColumn, v: TxColumn, b: Block, l': Ledger)
    requires Ready(l, d, u, v, b, l')
    ensures RowsTakenOut(l, l', b.height)
  {
    assert l'.blockTxs == l.blockTxs - {b.height} && l'.heights == l.heights - {b.height};
    hide Ready;
    forall k: AddrRow | Indexable(k.addr) ensures RowOf(l', k) == if k.height == b.height then [] else RowOf(l, k) {
      FinalRow(l, d, u, v, b, l', k);
    }
    forall k: AssetRow | k.height != b.height ensures AssetRowOf(l', k) == AssetRowOf(l, k) {
      FinalAssetRow(l, d, u, v, b, l', k, ZeroTx);
    }
  }

  lemma TakenOutSpenders(was: TxColumn, now: TxColumn, b: Block)
    requires TakenOut(was, now, b) && SpendersOk(was)
    ensures SpendersOk(now)
  {
    forall t, i | t in now && 0 <= i < |now[t].outputs| && now[t].outputs[i].coin.addr != NoAddr
        && !now[t].outputs[i].spent
      ensures now[t].outputs[i].spender == None
    {
      assert OutputsFreed(was[t], now[t], b, t, |b.txs|, 0);
    }
  }

  /** Disconnecting the block on top of a good ledger succeeds and gives a good ledger without it. */
  lemma DisconnectKeepsGood(l: Ledger, b: Block)
    requires Good(l) && BlockOnTop(l.txs, b) && b.txs != []
    requires b.height in l.blockTxs && l.blockTxs[b.height] == BlockTxsOf(b)
    ensures var r := Disconnect(l, b.height);
            r.Some? && Good(r.value) && TakenOut(l.txs, r.value.txs, b) && RowsTakenOut(l, r.value, b.height)
  {
    var bts := BlockTxsOf(b);
    assert bts != [];
    var u, v := OutputsBackDone(l, b, |b.txs|);
    var d := UndoOutputsDone(l, bts, |bts|);
    var l' := Finish(d, bts, b.height);
    assert AllBack(l, d, u, v, b);
    FinishReady(l, d, u, v, b);
    FinalTakenOut(l, d, u, v, b);
    hide AllBack;
    hide Ready;
    FinalKeepsInv(l, d, u, v, b, l');
    FinalRowsTakenOut(l, d, u, v, b, l');
    TakenOutSpenders(l.txs, l'.txs, b);
  }

  // ---------------------------------------------------------------- disconnect undoes connect

  /** Equal but for the spent mark of outputs without descriptor. */
  ghost predicate SameOutputs(o: TxOutput, o': TxOutput) {
    o.coin == o'.coin && (o.coin.addr != NoAddr ==> o == o')
  }

  ghost predicate SameTx(ta: TxAddresses, ta': TxAddresses) {
    && ta'.height == ta.height && ta'.version == ta.version && ta'.inputs == ta.inputs && |ta'.outputs| == |ta.outputs|
    && forall i :: 0 <= i < |ta.outputs| ==> SameOutputs(ta.outputs[i], ta'.outputs[i])
  }

  ghost predicate SameColumn(txs: TxColumn, txs': TxColumn) {
    txs'.Keys == txs.Keys && forall t :: t in txs ==> SameTx(txs[t], txs'[t])
  }

  /** An output that the block took and gave back is what it was before. */
  lemma GivenBack(was: TxColumn, base: TxColumn, mid: TxColumn, now: TxColumn, b: Block, ext: bool, t: TxId, i: nat)
    requires ValidBlock(was, b) && SpendersOk(was)
    requires BaseOf(was, base, b) && InputShape(base, mid, b, ext, |b.txs|, -1) && TakenOut(mid, now, b)
    requires t in was && t in now && i < |now[t].outputs|
    ensures i < |was[t].outputs| && SameOutputs(was[t].outputs[i], now[t].outputs[i])
    ensures !Taken(b, OutPoint(t, i), |b.txs|, 0) ==> now[t].outputs[i] == was[t].outputs[i]
    ensures forall x, y :: Takes(b, x, y, OutPoint(t, i)) && was[t].outputs[i].coin.addr == NoAddr ==>
              now[t].outputs[i] == SpentOutput(was[t].outputs[i], ext, b, b.txs[x], y)
  {
    var op := OutPoint(t, i);
    assert OutputsFreed(mid[t], now[t], b, t, |b.txs|, 0);
    OutputAfter(was, base, mid, b, ext, t, i);
    TakenAtEnd(b, op);
    var o := was[t].outputs[i];
    if Taken(b, op, |b.txs|, 0) {
      var x, y :| Takes(b, x, y, op) && Before(x, y, |b.txs|, -1);
      assert mid[t].outputs[i] == SpentOutput(o, ext, b, b.txs[x], y);
      assert Spendable(o) by { TakenSpendable(was, b, x, y, op); }
    }
    forall x, y | Takes(b, x, y, op) && o.coin.addr == NoAddr
      ensures now[t].outputs[i] == SpentOutput(o, ext, b, b.txs[x], y)
    {
      assert Before(x, y, |b.txs|, -1);
    }
  }

  lemma TakenSpendable(was: TxColumn, b: Block, x: nat, y: nat, op: OutPoint)
    requires ValidBlock(was, b) && Takes(b, x, y, op) && op.txid in was && op.vout < |was[op.txid].outputs|
    ensures Spendable(was[op.txid].outputs[op.vout])
  {
    assert FreeOutput(was, b.txs[x].vin[y].value);
  }

  /** Connect then disconnect gives the column back, but for spent marks of outputs without descriptor. */
  lemma ColumnRestored(was: TxColumn, mid: TxColumn, now: TxColumn, b: Block, ext: bool)
    requires ValidBlock(was, b) && SpendersOk(was) && Extends(was, mid, b, ext) && TakenOut(mid, now, b)
    ensures SameColumn(was, now)
  {
    hide BaseOf, InputShape, SpendersOk, ValidBlock, TakenOut, SameTx;
    var base: TxColumn :| BaseOf(was, base, b) && InputShape(base, mid, b, ext, |b.txs|, -1);
    forall t ensures t in now <==> t in was { SameKey(was, base, mid, now, b, ext, t); }
    forall t | t in was ensures SameTx(was[t], now[t]) {
      SameKey(was, base, mid, now, b, ext, t);
      TxRestored(was, base, mid, now, b, ext, t);
    }
  }

  lemma SameKey(was: TxColumn, base: TxColumn, mid: TxColumn, now: TxColumn, b: Block, ext: bool, t: TxId)
    requires ValidBlock(was, b) && BaseOf(was, base, b) && InputShape(base, mid, b, ext, |b.txs|, -1)
    requires TakenOut(mid, now, b)
    ensures t in now <==> t in was
    ensures t in was ==> t in base && t in mid && base[t] == was[t] && !InBlock(b, t, |b.txs|)
  {
    if InBlock(b, t, |b.txs|) { assert t !in was; }
  }

  lemma TxRestored(was: TxColumn, base: TxColumn, mid: TxColumn, now: TxColumn, b: Block, ext: bool, t: TxId)
    requires ValidBlock(was, b) && SpendersOk(was) && BaseOf(was, base, b)
    requires InputShape(base, mid, b, ext, |b.txs|, -1) && TakenOut(mid, now, b)
    requires t in was && t in base && t in mid && t in now && base[t] == was[t] && !InBlock(b, t, |b.txs|)
    ensures SameTx(was[t], now[t])
  {
    assert Kept(base[t], mid[t], b, ext, t, |b.txs|, -1) && mid[t].inputs == base[t].inputs;
    assert OutputsFreed(mid[t], now[t], b, t, |b.txs|, 0) && now[t].inputs == mid[t].inputs;
    hide BaseOf, InputShape, SpendersOk, ValidBlock, TakenOut;
    forall i | 0 <= i < |was[t].outputs| ensures SameOutputs(was[t].outputs[i], now[t].outputs[i]) {
      GivenBack(was, base, mid, now, b, ext, t, i);
    }
  }

  /** Every indexed output without descriptor that the block takes already carries the mark the block leaves. */
  ghost predicate MarksInPlace(was: TxColumn, b: Block, ext: bool) {
    forall x, y, op :: (
      && Takes(b, x, y, op) && op.txid in was && op.vout < |was[op.txid].outputs|
      && was[op.txid].outputs[op.vout].coin.addr == NoAddr) ==>
        was[op.txid].outputs[op.vout] == SpentOutput(was[op.txid].outputs[op.vout], ext, b, b.txs[x], y)
  }

  lemma RestoredOnlyIfMarked(was: TxColumn, mid: TxColumn, now: TxColumn, b: Block, ext: bool, x: nat, y: nat,
                             op: OutPoint)
    requires ValidBlock(was, b) && SpendersOk(was) && Extends(was, mid, b, ext) && TakenOut(mid, now, b)
    requires now == was && Takes(b, x, y, op) && op.txid in was && op.vout < |was[op.txid].outputs|
    requires was[op.txid].outputs[op.vout].coin.addr == NoAddr
    ensures was[op.txid].outputs[op.vout] == SpentOutput(was[op.txid].outputs[op.vout], ext, b, b.txs[x], y)
  {
    var base: TxColumn :| BaseOf(was, base, b) && InputShape(base, mid, b, ext, |b.txs|, -1);
    GivenBack(was, base, mid, now, b, ext, op.txid, op.vout);
    assert op == OutPoint(op.txid, op.vout);
  }

  lemma RestoredOutput(was: TxColumn, mid: TxColumn, now: TxColumn, b: Block, ext: bool, t: TxId, i: nat)
    requires ValidBlock(was, b) && SpendersOk(was) && Extends(was, mid, b, ext) && TakenOut(mid, now, b)
    requires MarksInPlace(was, b, ext) && t in was && t in now && i < |now[t].outputs| && i < |was[t].outputs|
    ensures now[t].outputs[i] == was[t].outputs[i]
  {
    hide InputShape, BaseOf, TakenOut, ValidBlock, SpendersOk;
    var base: TxColumn :| BaseOf(was, base, b) && InputShape(base, mid, b, ext, |b.txs|, -1);
    GivenBack(was, base, mid, now, b, ext, t, i);
    if Taken(b, OutPoint(t, i), |b.txs|, 0) && was[t].outputs[i].coin.addr == NoAddr {
      var x, y :| Takes(b, x, y, OutPoint(t, i)) && Before(x, y, |b.txs|, 0);
      assert was[t].outputs[i] == SpentOutput(was[t].outputs[i], ext, b, b.txs[x], y);
    }
  }

  lemma RestoredIfMarked(was: TxColumn, mid: TxColumn, now: TxColumn, b: Block, ext: bool, t: TxId)
    requires ValidBlock(was, b) && SpendersOk(was) && Extends(was, mid, b, ext) && TakenOut(mid, now, b)
    requires MarksInPlace(was, b, ext) && t in was && t in now && SameTx(was[t], now[t])
    ensures now[t] == was[t]
  {
    hide Extends;
    hide TakenOut;
    hide ValidBlock;
    hide SpendersOk;
    hide MarksInPlace;
    forall i | 0 <= i < |was[t].outputs| ensures now[t].outputs[i] == was[t].outputs[i] {
      RestoredOutput(was, mid, now, b, ext, t, i);
    }
    assert now[t].outputs == was[t].outputs;
  }

  /** The column is restored exactly if and only if the block leaves no new mark on an output without descriptor. */
  lemma ColumnRestoredExactly(was: TxColumn, mid: TxColumn, now: TxColumn, b: Block, ext: bool)
    requires ValidBlock(was, b) && SpendersOk(was) && Extends(was, mid, b, ext) && TakenOut(mid, now, b)
    ensures now == was <==> MarksInPlace(was, b, ext)
  {
    ColumnRestored(was, mid, now, b, ext);
    hide Extends;
    hide TakenOut;
    hide ValidBlock;
    if now == was {
      forall x, y, op | (
          && Takes(b, x, y, op) && op.txid in was && op.vout < |was[op.txid].outputs|
          && was[op.txid].outputs[op.vout].coin.addr == NoAddr)
        ensures was[op.txid].outputs[op.vout] == SpentOutput(was[op.txid].outputs[op.vout], ext, b, b.txs[x], y)
      {
        RestoredOnlyIfMarked(was, mid, now, b, ext, x, y, op);
      }
    }
    if MarksInPlace(was, b, ext) {
      forall t | t in was ensures now[t] == was[t] {
        RestoredIfMarked(was, mid, now, b, ext, t);
      }
    }
  }
}
