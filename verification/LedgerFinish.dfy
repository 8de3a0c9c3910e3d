// The final batch of a disconnect: the invariant holds for the column without the block.
module LedgerFinish {
  import opened Types
  import opened UtxoIndex
  import opened LedgerModel
  import opened Totals
  import opened LedgerInvariant
  import opened LedgerConnect
  import opened LedgerBlock
  import opened LedgerUndo
  import opened LedgerUndoSteps
  import opened LedgerUndoBlock

  // ---------------------------------------------------------------- columns that agree on coins

  ghost predicate SameCoins(outs: seq<TxOutput>, outs': seq<TxOutput>) {
    |outs| == |outs'| && forall i :: 0 <= i < |outs| ==> outs[i].coin == outs'[i].coin
  }

  lemma {:induction false} SameCoinsHit(outs: seq<TxOutput>, outs': seq<TxOutput>, k: Key)
    requires SameCoins(outs, outs')
    ensures OutputsHit(outs, k) == OutputsHit(outs', k)
  {
    if outs != [] { SameCoinsHit(outs[..|outs| - 1], outs'[..|outs'| - 1], k); }
  }

  lemma {:induction false} SameCoinsIndexes(outs: seq<TxOutput>, outs': seq<TxOutput>, a: AddrDesc)
    requires SameCoins(outs, outs')
    ensures OutputIndexes(outs, a) == OutputIndexes(outs', a)
  {
    if outs != [] { SameCoinsIndexes(outs[..|outs| - 1], outs'[..|outs'| - 1], a); }
  }

  // ---------------------------------------------------------------- a record without any indexed coin

  lemma {:induction false} NoIndexedOutputs(outs: seq<TxOutput>, k: Key)
    requires forall i :: 0 <= i < |outs| ==> outs[i].coin.addr == NoAddr
    ensures UnspentIn(outs, k) == 0
  {
    if outs != [] { NoIndexedOutputs(outs[..|outs| - 1], k); }
  }

  lemma {:induction false} NoIndexedInputs(ins: seq<TxInput>, k: Key)
    requires forall i :: 0 <= i < |ins| ==> ins[i].coin.addr == NoAddr
    ensures SpentIn(ins, k) == 0
  {
    if ins != [] { NoIndexedInputs(ins[..|ins| - 1], k); }
  }

  lemma {:induction false} UnhitOutputs(outs: seq<TxOutput>, k: Key)
    requires !OutputsHit(outs, k)
    ensures UnspentIn(outs, k) == 0
    ensures forall i :: 0 <= i < |outs| ==> !Hits(outs[i].coin, k)
  {
    if outs != [] { UnhitOutputs(outs[..|outs| - 1], k); }
  }

  lemma {:induction false} UnhitInputs(ins: seq<TxInput>, k: Key)
    requires !InputsHit(ins, k)
    ensures SpentIn(ins, k) == 0
  {
    if ins != [] { UnhitInputs(ins[..|ins| - 1], k); }
  }

  lemma {:induction false} HoldingNeedsAddr(outs: seq<TxOutput>, ins: seq<TxInput>, a: AddrDesc, g: Guid)
    ensures OutputsHit(outs, HoldingKey(a, g)) ==> OutputsHit(outs, AddrKey(a))
    ensures InputsHit(ins, HoldingKey(a, g)) ==> InputsHit(ins, AddrKey(a))
    decreases |outs| + |ins|
  {
    if outs != [] { HoldingNeedsAddr(outs[..|outs| - 1], ins, a, g); }
    if ins != [] { HoldingNeedsAddr(outs, ins[..|ins| - 1], a, g); }
  }

  lemma {:induction false} OutputHitWhere(outs: seq<TxOutput>, k: Key) returns (i: nat)
    requires OutputsHit(outs, k)
    ensures i < |outs| && Hits(outs[i].coin, k)
  {
    if Hits(outs[|outs| - 1].coin, k) { i := |outs| - 1; } else { i := OutputHitWhere(outs[..|outs| - 1], k); }
  }

  lemma {:induction false} InputHitWhere(ins: seq<TxInput>, k: Key) returns (i: nat)
    requires InputsHit(ins, k)
    ensures i < |ins| && Hits(ins[i].coin, k)
  {
    if Hits(ins[|ins| - 1].coin, k) { i := |ins| - 1; } else { i := InputHitWhere(ins[..|ins| - 1], k); }
  }

  // ---------------------------------------------------------------- the state before the final batch

  /** Everything of the block was taken back. */
  ghost predicate AllBack(l: Ledger, d: Undo, u: TxColumn, v: TxColumn, b: Block) {
    Inv(l) && BlockOnTop(l.txs, b) && OutputsBackOk(l, d, u, v, b, |b.txs|, 0)
  }

  lemma TxidsOfBlock(b: Block, t: TxId)
    ensures t in Txids(BlockTxsOf(b)) <==> InBlock(b, t, |b.txs|)
  {
    var bts := BlockTxsOf(b);
    if t in Txids(bts) {
      var j :| 0 <= j < |bts| && bts[j].txid == t;
      assert b.txs[j].txid == t;
    }
    if InBlock(b, t, |b.txs|) {
      var j :| 0 <= j < |b.txs| && b.txs[j].txid == t;
      assert bts[j].txid == t;
    }
  }

  /** The column written at the end: `txs` without the block, outputs given back. */
  ghost predicate ColumnWithout(txs: TxColumn, v: TxColumn, now: TxColumn, b: Block) {
    && (forall t :: t in now <==> t in txs && !InBlock(b, t, |b.txs|))
    && (forall t :: t in now ==>
         t in v && now[t] == v[t] && now[t].height == txs[t].height && now[t].version == txs[t].version
                                 && now[t].inputs == txs[t].inputs && SameCoins(txs[t].outputs, now[t].outputs))
  }

  lemma FinalColumn(l: Ledger, d: Undo, u: TxColumn, v: TxColumn, b: Block)
    requires AllBack(l, d, u, v, b)
    ensures ColumnWithout(l.txs, v, Finish(d, BlockTxsOf(b), b.height).txs, b)
  {
    hide UndoInv, InputsMet, OutputsMet, SeenInBlock, Inv, InputsLinked, OutputsFree, SameRows, BlockTxsOf, Txids;
    hide OutputsBlanked, InputsBlanked, StoredBalance, Touched, NoDoubleSpend, DistinctIds, BlockRecord;
    var now := Finish(d, BlockTxsOf(b), b.height).txs;
    forall t ensures t in now <==> t in l.txs && !InBlock(b, t, |b.txs|) {
      TxidsOfBlock(b, t);
    }
    forall t | t in now
      ensures t in v && now[t] == v[t] && now[t].height == l.txs[t].height && now[t].version == l.txs[t].version
      ensures now[t].inputs == l.txs[t].inputs && SameCoins(l.txs[t].outputs, now[t].outputs)
    {
      assert OutputsFreed(l.txs[t], u[t], b, t, |b.txs|, 0);
      assert now[t] == l.txs[t].(outputs := u[t].outputs);
    }
  }

  lemma WithoutHits(txs: TxColumn, v: TxColumn, now: TxColumn, b: Block, t: TxId, k: Key)
    requires ColumnWithout(txs, v, now, b) && t in now
    ensures TxHits(now[t], k) <==> TxHits(txs[t], k)
  {
    SameCoinsHit(txs[t].outputs, now[t].outputs, k);
  }

  /** Nothing of the block is left in `v`. */
  lemma BlockBlank(l: Ledger, d: Undo, u: TxColumn, v: TxColumn, b: Block, t: TxId)
    requires AllBack(l, d, u, v, b) && t in v && InBlock(b, t, |b.txs|)
    ensures forall i :: 0 <= i < |v[t].outputs| ==> v[t].outputs[i].coin.addr == NoAddr
    ensures forall i :: 0 <= i < |v[t].inputs| ==> v[t].inputs[i].coin.addr == NoAddr
  {
    var j :| 0 <= j < |b.txs| && b.txs[j].txid == t;
    assert BlockRecord(l.txs, b, j);
    assert OutputsBlanked(u[t], v[t], j, |b.txs|, 0);
    assert InputsBlanked(l.txs[t], u[t], j, |b.txs|, 0);
  }

  lemma DropUnspent(v: TxColumn, now: TxColumn, gone: set<TxId>, k: Key)
    requires now == v - gone
    requires forall t :: t in v && t in gone ==> UnspentIn(v[t].outputs, k) == 0
    ensures UnspentTotal(now, k) == UnspentTotal(v, k)
  {
    TotalDropZeros(UnspentPerTx(v, k), gone);
    assert UnspentPerTx(now, k) == UnspentPerTx(v, k) - gone;
  }

  lemma DropSpent(v: TxColumn, now: TxColumn, gone: set<TxId>, k: Key)
    requires now == v - gone
    requires forall t :: t in v && t in gone ==> SpentIn(v[t].inputs, k) == 0
    ensures SpentTotal(now, k) == SpentTotal(v, k)
  {
    TotalDropZeros(SpentPerTx(v, k), gone);
    assert SpentPerTx(now, k) == SpentPerTx(v, k) - gone;
  }

  lemma TotalsWithout(l: Ledger, d: Undo, u: TxColumn, v: TxColumn, b: Block, now: TxColumn, k: Key)
    requires AllBack(l, d, u, v, b) && ColumnWithout(l.txs, v, now, b)
    ensures UnspentTotal(now, k) == UnspentTotal(v, k) && SpentTotal(now, k) == SpentTotal(v, k)
  {
    hide UndoInv, InputsMet, OutputsMet, SeenInBlock, Inv, InputsLinked, OutputsFree, SameRows, UnspentTotal;
    hide SpentTotal, SameCoins, StoredAs, OutputsFreed;
    var gone := set t | t in v && InBlock(b, t, |b.txs|);
    assert now == v - gone;
    forall t | t in v && t in gone ensures UnspentIn(v[t].outputs, k) == 0 && SpentIn(v[t].inputs, k) == 0 {
      BlockBlank(l, d, u, v, b, t);
      NoIndexedOutputs(v[t].outputs, k);
      NoIndexedInputs(v[t].inputs, k);
    }
    DropUnspent(v, now, gone, k);
    DropSpent(v, now, gone, k);
  }

  lemma UnspentWithout(l: Ledger, d: Undo, u: TxColumn, v: TxColumn, b: Block, now: TxColumn, a: AddrDesc, x: Utxo)
    requires AllBack(l, d, u, v, b) && ColumnWithout(l.txs, v, now, b) && Indexable(a)
    ensures IsUnspent(now, a, x) <==> IsUnspent(v, a, x)
  {
    hide UndoInv, InputsMet, OutputsMet, SameRows, SeenInBlock, Inv, StoredAs, InputsLinked, OutputsFree, SameCoins;
    if IsUnspent(v, a, x) && x.txid !in now {
      BlockBlank(l, d, u, v, b, x.txid);
    }
  }

  /** All transactions of the block that touch a key were met. */
  lemma AllMet(l: Ledger, d: Undo, u: TxColumn, v: TxColumn, b: Block, t: TxId, k: Key)
    requires AllBack(l, d, u, v, b) && t in l.txs && InBlock(b, t, |b.txs|) && Countable(k) && TxHits(l.txs[t], k)
    ensures SeenBy(d, k, t)
  {
    var j :| 0 <= j < |b.txs| && b.txs[j].txid == t;
    if OutputsHit(l.txs[t].outputs, k) {
      var i := OutputHitWhere(l.txs[t].outputs, k);
      assert Before(j, i, |b.txs|, 0);
    } else {
      var i := InputHitWhere(l.txs[t].inputs, k);
      assert Before(j, i, |b.txs|, 0);
    }
  }

  lemma RemainingWithout(l: Ledger, d: Undo, u: TxColumn, v: TxColumn, b: Block, now: TxColumn, k: Key)
    requires AllBack(l, d, u, v, b) && ColumnWithout(l.txs, v, now, b) && Countable(k)
    ensures Touching(now, k) == Remaining(l.txs, d, k)
  {
    hide UndoInv, BackShape, GoneShape, StoredAs, InputsMet, OutputsMet, SameRows, BlockOnTop;
    forall t ensures t in Touching(now, k) <==> t in Remaining(l.txs, d, k) {
      if t in now {
        WithoutHits(l.txs, v, now, b, t, k);
      } else if t in l.txs && TxHits(l.txs[t], k) {
        AllMet(l, d, u, v, b, t, k);
      }
    }
  }

  // ---------------------------------------------------------------- balances

  lemma UntouchedIsZero(now: TxColumn, a: AddrDesc)
    requires Indexable(a) && Touching(now, AddrKey(a)) == {}
    ensures forall k: Key :: !k.AssetKey? && k.addr == a ==>
              UnspentTotal(now, k) == 0 && SpentTotal(now, k) == 0 && Touching(now, k) == {}
    ensures forall u :: !IsUnspent(now, a, u)
  {
    forall t | t in now ensures !TxHits(now[t], AddrKey(a)) {
      assert t !in Touching(now, AddrKey(a));
    }
    forall k: Key | !k.AssetKey? && k.addr == a
      ensures UnspentTotal(now, k) == 0 && SpentTotal(now, k) == 0 && Touching(now, k) == {}
    {
      forall t | t in now
        ensures !TxHits(now[t], k) && UnspentIn(now[t].outputs, k) == 0 && SpentIn(now[t].inputs, k) == 0
      {
        if k.HoldingKey? { HoldingNeedsAddr(now[t].outputs, now[t].inputs, a, k.guid); }
        UnhitOutputs(now[t].outputs, k);
        UnhitInputs(now[t].inputs, k);
      }
      TotalZeros(UnspentPerTx(now, k));
      TotalZeros(SpentPerTx(now, k));
    }
    forall u ensures !IsUnspent(now, a, u) {
      if u.txid in now { UnhitOutputs(now[u.txid].outputs, AddrKey(a)); }
    }
  }

  /** A balance row the disconnect did not touch still has transactions. */
  lemma UntouchedCount(l: Ledger, d: Undo, u: TxColumn, v: TxColumn, b: Block, a: AddrDesc)
    requires AllBack(l, d, u, v, b) && Indexable(a) && a in d.l.bals && !Touched(d, a)
    ensures d.l.bals[a].txs > 0
  {
    var k := AddrKey(a);
    assert Remaining(l.txs, d, k) == Touching(l.txs, k) by {
      forall t ensures !SeenBy(d, k, t) {
        assert AddrTx(a, t).addr == a;
      }
    }
    assert CountOf(d.l, k) == |Remaining(l.txs, d, k)| && CountOf(l, k) == |Touching(l.txs, k)|;
  }

  /** What the final batch leaves of the balance of an address: the row, its list in stored form, or nothing. */
  ghost predicate FinalBalance(d: Undo, l': Ledger, a: AddrDesc) {
    if a in l'.bals then a in d.l.bals && Bal(l', a) == StoredBalance(d, a) && Bal(l', a).txs > 0
    else Bal(l', a) == NoBalance && (a in d.l.bals ==> d.l.bals[a].txs <= 0)
  }

  ghost predicate FinalRows(d: Undo, l': Ledger, h: nat) {
    && (forall k {:trigger RowOf(l', k)} ::
         RowOf(l', k) == if k.height == h && AddrSeen(d, k.addr) then [] else RowOf(d.l, k))
    && (forall k :: k in l'.rows ==> k in d.l.rows && l'.rows[k] == d.l.rows[k])
    && (forall k {:trigger AssetRowOf(l', k)} ::
          AssetRowOf(l', k) == if k.height == h && exists s ::
              s in d.seenAssets && s.guid == k.guid then [] else AssetRowOf(d.l, k))
    && (forall g {:trigger AssetTxCount(l', g)} ::
          AssetTxCount(l', g) == if g in d.removed && g != SYSX_GUID then 0 else AssetTxCount(d.l, g))
  }

  /** The ledger after the final batch, in terms of the state before it. */
  ghost predicate Final(d: Undo, l': Ledger, h: nat) {
    (forall a :: FinalBalance(d, l', a)) && FinalRows(d, l', h) && l'.blockTxs == d.l.blockTxs - {h}
        && l'.heights == d.l.heights - {h}
  }

  lemma FinishRows(d: Undo, bts: seq<BlockTx>, h: nat)
    ensures FinalRows(d, Finish(d, bts, h), h)
  {
    var l' := Finish(d, bts, h);
    forall k ensures RowOf(l', k) == if k.height == h && AddrSeen(d, k.addr) then [] else RowOf(d.l, k) {
    }
    forall k ensures AssetRowOf(l', k)
                  == if k.height == h && exists s ::
                      s in d.seenAssets && s.guid == k.guid then [] else AssetRowOf(d.l, k) {
    }
    forall g ensures AssetTxCount(l', g) == if g in d.removed && g != SYSX_GUID then 0 else AssetTxCount(d.l, g) {
    }
  }

  lemma FinishIsFinal(l: Ledger, d: Undo, u: TxColumn, v: TxColumn, b: Block)
    requires AllBack(l, d, u, v, b)
    ensures Final(d, Finish(d, BlockTxsOf(b), b.height), b.height)
  {
    var l' := Finish(d, BlockTxsOf(b), b.height);
    FinishRows(d, BlockTxsOf(b), b.height);
    forall a ensures FinalBalance(d, l', a) {
      if a in d.l.bals && !Touched(d, a) {
        UntouchedCount(l, d, u, v, b, a);
      }
    }
  }

  /** `now` is the column after the final batch. */
  ghost predicate Ready(l: Ledger, d: Undo, u: TxColumn, v: TxColumn, b: Block, l': Ledger) {
    AllBack(l, d, u, v, b) && ColumnWithout(l.txs, v, l'.txs, b) && Final(d, l', b.height)
  }

  lemma NoRowNoTouch(l: Ledger, d: Undo, u: TxColumn, v: TxColumn, b: Block, l': Ledger, a: AddrDesc)
    requires Ready(l, d, u, v, b, l') && Indexable(a) && a !in l'.bals
    ensures Bal(l', a) == NoBalance && Touching(l'.txs, AddrKey(a)) == {}
  {
    RemainingWithout(l, d, u, v, b, l'.txs, AddrKey(a));
    assert FinalBalance(d, l', a);
    assert CountOf(d.l, AddrKey(a)) == |Remaining(l.txs, d, AddrKey(a))|;
  }

  lemma FinalAmounts(l: Ledger, d: Undo, u: TxColumn, v: TxColumn, b: Block, l': Ledger, k: Key)
    requires Ready(l, d, u, v, b, l') && !k.AssetKey? && Indexable(k.addr)
    ensures BalanceOf(l', k) == UnspentTotal(l'.txs, k) && SentOf(l', k) == SpentTotal(l'.txs, k)
  {
    hide BackShape, GoneShape, StoredAs, InputsMet, OutputsMet, SeenInBlock, Inv, BlockOnTop, SameCoins, SameRows;
    hide ColumnWithout, UnspentTotal, SpentTotal, Touching;
    assert FinalBalance(d, l', k.addr) && AmountsOk(d.l, v);
    if k.addr in l'.bals {
      TotalsWithout(l, d, u, v, b, l'.txs, k);
      hide Ready;
      assert BalanceOf(l', k) == BalanceOf(d.l, k) && SentOf(l', k) == SentOf(d.l, k);
    } else {
      NoRowNoTouch(l, d, u, v, b, l', k.addr);
      UntouchedIsZero(l'.txs, k.addr);
    }
  }

  lemma FinalCountLeft(l: Ledger, d: Undo, u: TxColumn, v: TxColumn, b: Block, l': Ledger, k: Key)
    requires Ready(l, d, u, v, b, l') && Countable(k)
    ensures CountOf(d.l, k) == |Touching(l'.txs, k)|
  {
    RemainingWithout(l, d, u, v, b, l'.txs, k);
    assert CountOf(d.l, k) == |Remaining(l.txs, d, k)|;
  }

  lemma FinalAssetCount(l: Ledger, d: Undo, u: TxColumn, v: TxColumn, b: Block, l': Ledger, g: Guid)
    requires Ready(l, d, u, v, b, l')
    ensures AssetTxCount(l', g) == |Touching(l'.txs, AssetKey(g))|
  {
    FinalCountLeft(l, d, u, v, b, l', AssetKey(g));
    assert g in d.removed ==> AssetTxCount(d.l, g) <= 0;
    assert AssetTxCount(l', g) == if g in d.removed && g != SYSX_GUID then 0 else AssetTxCount(d.l, g);
  }

  lemma KeptCount(l: Ledger, d: Undo, u: TxColumn, v: TxColumn, b: Block, l': Ledger, k: Key)
    requires Ready(l, d, u, v, b, l') && !k.AssetKey? && k.addr in l'.bals
    ensures CountOf(l', k) == CountOf(d.l, k)
  {
    assert FinalBalance(d, l', k.addr);
    hide Ready;
  }

  lemma FinalCounts(l: Ledger, d: Undo, u: TxColumn, v: TxColumn, b: Block, l': Ledger, k: Key)
    requires Ready(l, d, u, v, b, l') && Countable(k)
    ensures CountOf(l', k) == |Touching(l'.txs, k)|
  {
    hide Ready;
    FinalCountLeft(l, d, u, v, b, l', k);
    if k.AssetKey? {
      FinalAssetCount(l, d, u, v, b, l', k.guid);
    } else if k.addr in l'.bals {
      KeptCount(l, d, u, v, b, l', k);
    } else {
      NoRowNoTouch(l, d, u, v, b, l', k.addr);
      UntouchedIsZero(l'.txs, k.addr);
    }
  }

  lemma LiveHeights(list: UtxoList, v: TxColumn, a: AddrDesc)
    requires ListOk(list, v, a)
    ensures HeightsByTxid(Live(list.slots))
  {
    var s := Live(list.slots);
    forall x, y | x in s && y in s && x.txid == y.txid ensures x.height == y.height {
      LiveHasAll(list.slots, x);
      LiveHasAll(list.slots, y);
      assert x in LiveSet(list.slots) && y in LiveSet(list.slots);
      assert IsUnspent(v, a, x) && IsUnspent(v, a, y);
    }
  }

  lemma ListValid(list: UtxoList, v: TxColumn, a: AddrDesc)
    requires ListOk(list, v, a)
    ensures ValidSlots(list.slots)
  {
  }

  /** The list a disconnect stores holds the same outputs, ready for the next block. */
  lemma SortedListOk(list: UtxoList, v: TxColumn, a: AddrDesc)
    requires ListOk(list, v, a)
    ensures Valid(SortedList(list)) && LiveSet(SortedList(list).slots) == LiveSet(list.slots)
            && ListStored(SortedList(list))
  {
    hide Valid, ValidSlots, Load, SortByHeight, Live, LiveSet, SortedByHeight;
    var s := Live(list.slots);
    ListValid(list, v, a);
    LiveKeepsValid(list.slots);
    LiveFromSlots(list.slots);
    LiveHeights(list, v, a);
    SortKeepsValid(s);
    SortSameElements(s);
    SortSorts(s);
    LiveSetOfLive(list.slots);
    var r := SortByHeight(s);
    forall i | 0 <= i < |r| ensures r[i].vout >= 0 {
      assert r[i] in s;
    }
    LoadSlots(r);
    LoadIsValid(r);
  }

  /** The list of an address that keeps its row. */
  lemma FinalListKept(l: Ledger, d: Undo, u: TxColumn, v: TxColumn, b: Block, l': Ledger, a: AddrDesc)
    requires Ready(l, d, u, v, b, l') && Indexable(a) && a in l'.bals
    ensures var r := Bal(l', a).utxos; LiveSet(r.slots) == LiveSet(Bal(d.l, a).utxos.slots) && ListStored(r) && Valid(r)
  {
    assert FinalBalance(d, l', a);
    assert ListOk(Bal(d.l, a).utxos, v, a);
    assert !AddrSeen(d, a) ==> ListStored(Bal(d.l, a).utxos);
    hide Ready;
    if Touched(d, a) {
      SortedListOk(Bal(d.l, a).utxos, v, a);
    } else {
      assert !AddrSeen(d, a);
    }
  }

  lemma FinalMember(l: Ledger, d: Undo, u: TxColumn, v: TxColumn, b: Block, l': Ledger, a: AddrDesc, x: Utxo)
    requires Ready(l, d, u, v, b, l') && Indexable(a) && a in l'.bals
    ensures x in LiveSet(Bal(l', a).utxos.slots) <==> IsUnspent(l'.txs, a, x)
  {
    assert ListOk(Bal(d.l, a).utxos, v, a);
    UnspentWithout(l, d, u, v, b, l'.txs, a, x);
    hide AllBack;
    FinalListKept(l, d, u, v, b, l', a);
  }

  lemma FinalList(l: Ledger, d: Undo, u: TxColumn, v: TxColumn, b: Block, l': Ledger, a: AddrDesc)
    requires Ready(l, d, u, v, b, l') && Indexable(a)
    ensures ListOk(Bal(l', a).utxos, l'.txs, a) && ListStored(Bal(l', a).utxos)
  {
    hide Ready;
    if a !in l'.bals {
      NoRowNoTouch(l, d, u, v, b, l', a);
      UntouchedIsZero(l'.txs, a);
    } else {
      FinalListKept(l, d, u, v, b, l', a);
      var r := Bal(l', a).utxos;
      forall x ensures x in LiveSet(r.slots) <==> IsUnspent(l'.txs, a, x) {
        FinalMember(l, d, u, v, b, l', a, x);
      }
      forall i | 0 <= i < |r.slots| ensures r.slots[i].txid in l'.txs {
        assert r.slots[i] in LiveSet(r.slots);
      }
    }
  }

  // ---------------------------------------------------------------- rows

  lemma FinalRow(l: Ledger, d: Undo, u: TxColumn, v: TxColumn, b: Block, l': Ledger, k: AddrRow)
    requires Ready(l, d, u, v, b, l') && Indexable(k.addr)
    ensures RowOf(l', k) == if k.height == b.height then [] else RowOf(l, k)
    ensures RowOk(RowOf(l', k), l'.txs, k.addr, k.height)
  {
    hide UndoInv, BackShape, GoneShape, StoredAs, InputsMet, OutputsMet, SeenInBlock, AmountsOk, CountsOk, ListsOk;
    hide AssetRowsOk, PresenceOk, InputsLinked, OutputsFree, SameCoins, FinalBalance;
    var row := RowOf(l, k);
    assert RowOf(d.l, k) == row;
    assert RowOf(l', k) == if k.height == b.height && AddrSeen(d, k.addr) then [] else row;
    assert RowOk(row, l.txs, k.addr, k.height);
    if k.height == b.height {
      if row != [] {
        var t := row[0].txid;
        assert Listed(row, t);
        AllMet(l, d, u, v, b, t, AddrKey(k.addr));
        assert AddrTx(k.addr, t) in d.seen && AddrTx(k.addr, t).addr == k.addr;
      }
      EmptyRow(l.txs, v, l'.txs, b, k.addr);
    } else {
      RowWithout(row, l.txs, v, l'.txs, b, k);
    }
  }

  lemma EmptyRow(txs: TxColumn, v: TxColumn, now: TxColumn, b: Block, a: AddrDesc)
    requires BlockOnTop(txs, b) && ColumnWithout(txs, v, now, b)
    ensures RowOk([], now, a, b.height)
  {
    assert forall t :: !Listed([], t);
  }

  lemma RowWithout(row: seq<TxIndexes>, txs: TxColumn, v: TxColumn, now: TxColumn, b: Block, k: AddrRow)
    requires BlockOnTop(txs, b) && ColumnWithout(txs, v, now, b) && Indexable(k.addr) && k.height != b.height
    requires RowOk(row, txs, k.addr, k.height)
    ensures RowOk(row, now, k.addr, k.height)
  {
    forall i | 0 <= i < |row| ensures row[i].txid in now && row[i].indexes == Indexes(now[row[i].txid], k.addr) {
      var t := row[i].txid;
      FindEntryUnique(row, i);
      assert Listed(row, t);
      assert txs[t].height == k.height;
      SameCoinsIndexes(txs[t].outputs, now[t].outputs, k.addr);
    }
    forall t ensures Listed(row, t) <==> t in now && now[t].height == k.height && TxHits(now[t], AddrKey(k.addr)) {
      assert Listed(row, t) <==> t in txs && txs[t].height == k.height && TxHits(txs[t], AddrKey(k.addr));
      if t in now { WithoutHits(txs, v, now, b, t, AddrKey(k.addr)); }
    }
  }

  lemma FinalAssetRow(l: Ledger, d: Undo, u: TxColumn, v: TxColumn, b: Block, l': Ledger, k: AssetRow, t: TxId)
    requires Ready(l, d, u, v, b, l')
    ensures k.height != b.height ==> AssetRowOf(l', k) == AssetRowOf(l, k)
    ensures AssetListed(AssetRowOf(l', k), t)
            <==> t in l'.txs && l'.txs[t].height == k.height && TxHits(l'.txs[t], AssetKey(k.guid))
  {
    hide UndoInv, BackShape, GoneShape, StoredAs, InputsMet, OutputsMet, SeenInBlock, AmountsOk, CountsOk, ListsOk;
    hide RowsOk, PresenceOk, InputsLinked, OutputsFree, SameCoins, FinalBalance, TxHits;
    assert AssetRowOf(l', k)
        == if k.height == b.height && exists s :: s in d.seenAssets && s.guid == k.guid then [] else AssetRowOf(d.l, k);
    assert AssetListed(AssetRowOf(l, k), t)
        <==> t in l.txs && l.txs[t].height == k.height && TxHits(l.txs[t], AssetKey(k.guid));
    if t in l'.txs { WithoutHits(l.txs, v, l'.txs, b, t, AssetKey(k.guid)); }
    if k.height == b.height && AssetListed(AssetRowOf(l, k), t) {
      AllMet(l, d, u, v, b, t, AssetKey(k.guid));
      assert AssetTxSeen(k.guid, t) in d.seenAssets && AssetTxSeen(k.guid, t).guid == k.guid;
    }
  }

  lemma FinalPresence(l: Ledger, d: Undo, u: TxColumn, v: TxColumn, b: Block, l': Ledger)
    requires Ready(l, d, u, v, b, l')
    ensures PresenceOk(l') && forall k :: k in l'.rows ==> Indexable(k.addr) && l'.rows[k] != []
  {
    forall a | a in l'.bals ensures Indexable(a) && l'.bals[a].txs > 0 {
      assert FinalBalance(d, l', a);
    }
  }

  lemma FinalAllAmounts(l: Ledger, d: Undo, u: TxColumn, v: TxColumn, b: Block, l': Ledger)
    requires Ready(l, d, u, v, b, l')
    ensures AmountsOk(l', l'.txs) && CountsOk(l', l'.txs)
  {
    hide Ready;
    forall k: Key | !k.AssetKey? && Indexable(k.addr)
      ensures BalanceOf(l', k) == UnspentTotal(l'.txs, k) && SentOf(l', k) == SpentTotal(l'.txs, k)
    {
      FinalAmounts(l, d, u, v, b, l', k);
    }
    forall k | Countable(k) ensures CountOf(l', k) == |Touching(l'.txs, k)| {
      FinalCounts(l, d, u, v, b, l', k);
    }
  }

  lemma FinalAllLists(l: Ledger, d: Undo, u: TxColumn, v: TxColumn, b: Block, l': Ledger)
    requires Ready(l, d, u, v, b, l') && PresenceOk(l')
    ensures ListsOk(l', l'.txs) && Stored(l')
  {
    hide Ready;
    hide ListOk;
    hide ListStored;
    forall a | Indexable(a) ensures ListOk(Bal(l', a).utxos, l'.txs, a) && ListStored(Bal(l', a).utxos) {
      FinalList(l, d, u, v, b, l', a);
    }
    forall a | !Indexable(a) ensures ListStored(Bal(l', a).utxos) {
      assert a !in l'.bals;
      EmptyStored();
    }
  }

  lemma EmptyStored()
    ensures ListStored(NoBalance.utxos)
  {
  }

  lemma FinalAllRows(l: Ledger, d: Undo, u: TxColumn, v: TxColumn, b: Block, l': Ledger)
    requires Ready(l, d, u, v, b, l')
    ensures RowsOk(l', l'.txs) && PresenceOk(l')
  {
    hide Ready, RowOk;
    FinalPresence(l, d, u, v, b, l');
    hide Ready;
    hide RowOk;
    forall k: AddrRow | Indexable(k.addr) ensures RowOk(RowOf(l', k), l'.txs, k.addr, k.height) {
      FinalRow(l, d, u, v, b, l', k);
    }
  }

  lemma FinalAllAssetRows(l: Ledger, d: Undo, u: TxColumn, v: TxColumn, b: Block, l': Ledger)
    requires Ready(l, d, u, v, b, l')
    ensures AssetRowsOk(l', l'.txs)
  {
    hide Ready;
    hide AssetListed;
    forall k, t
      ensures AssetListed(AssetRowOf(l', k), t)
              <==> t in l'.txs && l'.txs[t].height == k.height && TxHits(l'.txs[t], AssetKey(k.guid))
    {
      FinalAssetRow(l, d, u, v, b, l', k, t);
    }
  }

  /** The final batch leaves a ledger that satisfies the invariant and is in stored form. */
  lemma FinalKeepsInv(l: Ledger, d: Undo, u: TxColumn, v: TxColumn, b: Block, l': Ledger)
    requires Ready(l, d, u, v, b, l')
    ensures Inv(l') && Stored(l')
  {
    hide Ready;
    FinalAllAmounts(l, d, u, v, b, l');
    FinalAllRows(l, d, u, v, b, l');
    FinalAllAssetRows(l, d, u, v, b, l');
    FinalAllLists(l, d, u, v, b, l');
  }

  lemma FinishReady(l: Ledger, d: Undo, u: TxColumn, v: TxColumn, b: Block)
    requires AllBack(l, d, u, v, b)
    ensures Ready(l, d, u, v, b, Finish(d, BlockTxsOf(b), b.height))
  {
    FinalColumn(l, d, u, v, b);
    FinishIsFinal(l, d, u, v, b);
  }
}
