// When a disconnect deletes the row of an asset, and when it leaves one without transactions.
module AssetRemoval {
  import opened Types
  import UtxoIndex
  import opened LedgerModel
  import opened LedgerInvariant
  import LedgerConnect
  import opened LedgerBlock
  import opened LedgerUndo
  import opened LedgerUndoSteps
  import opened LedgerUndoBlock
  import opened LedgerTheorems
  import opened LedgerRuns
  import opened BlockReading
  import opened ChainIndex
  import R = ChainReading

  /** Inputs of the transaction carry the asset. */
  ghost predicate TakesAsset(txs: TxColumn, t: TxId, g: Guid) { t in txs && InputsHit(txs[t].inputs, AssetKey(g)) }

  // ---------------------------------------------------------------- one step

  lemma UndoInputAsset(d: Undo, bt: BlockTx, ta: TxAddresses, i: nat, g: Guid)
    requires i < |ta.inputs|
    ensures UndoInput(d, bt, ta, i).removed == d.removed
    ensures g in d.l.assets ==> g in UndoInput(d, bt, ta, i).l.assets
    ensures g in UndoInput(d, bt, ta, i).l.assets ==> g in d.l.assets || Hits(ta.inputs[i].coin, AssetKey(g))
  {
    hide UtxoIndex.Restore;
  }

  lemma UndoOutputAsset(d: Undo, t: TxId, ta: TxAddresses, i: nat, g: Guid)
    requires i < |ta.outputs|
    requires Indexable(ta.outputs[i].coin.addr) ==> ta.outputs[i].coin.addr in d.l.bals
    ensures var d', hit := UndoOutput(d, t, ta, i), Hits(ta.outputs[i].coin, AssetKey(g));
            && (g in d'.removed <==>
                  g in d.removed || (hit && AssetTxSeen(g, t) !in d.seenAssets && AssetTxCount(d'.l, g) == 0))
            && (g in d.l.assets ==> g in d'.l.assets) && (g in d'.l.assets ==> g in d.l.assets || hit)
  {
    hide UtxoIndex.MarkSpent;
  }

  // ---------------------------------------------------------------- what is kept for one asset

  /** Rows are those of the start, and every transaction met had one. */
  ghost predicate RowsStand(l: Ledger, d: Undo, g: Guid) {
    && (g in d.l.assets <==> g in l.assets)
    && ((exists t :: SeenBy(d, AssetKey(g), t)) ==> g in l.assets)
  }

  /** A transaction was met that carries the asset in outputs only. */
  ghost predicate OutputOnlyMet(txs: TxColumn, d: Undo, g: Guid) {
    exists t :: SeenBy(d, AssetKey(g), t) && !TakesAsset(txs, t, g)
  }

  /** While inputs are taken back, nothing is marked. */
  ghost predicate InputsFine(l: Ledger, d: Undo, g: Guid) {
    RowsStand(l, d, g) && g !in d.removed && !OutputOnlyMet(l.txs, d, g)
  }

  /** While outputs are taken back, the asset is marked once nothing is left of it, if its last transaction carried it
      in outputs only. */
  ghost predicate OutputsFine(l: Ledger, d: Undo, g: Guid) {
    RowsStand(l, d, g) && (g in d.removed <==> AssetTxCount(d.l, g) == 0 && OutputOnlyMet(l.txs, d, g))
  }

  /** A transaction that is met next has a row in the assets column. */
  lemma HitHasRow(l: Ledger, d: Undo, v: TxColumn, t: TxId, c: Coin, g: Guid)
    requires UndoInv(d, l.txs, v) && RowsStand(l, d, g) && t in l.txs
    requires Hits(c, AssetKey(g)) && TxHits(l.txs[t], AssetKey(g))
    ensures g in d.l.assets
    ensures !SeenBy(d, AssetKey(g), t) ==> AssetTxCount(d.l, g) >= 1
  {
    hide AmountsOk, ListsOk, SeenHits, RowsPresent, RemovedEmpty, RestUntouched;
    if !SeenBy(d, AssetKey(g), t) {
      assert CountOf(d.l, AssetKey(g)) == |Remaining(l.txs, d, AssetKey(g))|;
      assert t in Remaining(l.txs, d, AssetKey(g));
    }
  }

  lemma InputStep(l: Ledger, d: Undo, v: TxColumn, b: Block, j: nat, i: nat, g: Guid)
    requires BlockOnTop(l.txs, b) && j < |b.txs| && BlockRecord(l.txs, b, j) && i < |b.txs[j].vin|
    requires InputsBackOk(l, d, v, b, j, i) && InputsFine(l, d, g)
    ensures InputsFine(l, UndoInput(d, BlockTxOf(b.txs[j]), l.txs[b.txs[j].txid], i), g)
  {
    var t, bt := b.txs[j].txid, BlockTxOf(b.txs[j]);
    var c := l.txs[t].inputs[i].coin;
    UndoInputAsset(d, bt, l.txs[t], i, g);
    if c.addr != NoAddr {
      BackReady(l.txs, v, b, j, i);
      assert UndoInputReady(d, l.txs, v, bt, i);
      UndoInputKeeps(d, l.txs, v, bt, i);
      InputMeets(l, d, UndoInput(d, bt, l.txs[t], i), v, t, i, g);
    }
  }

  lemma InputMeets(l: Ledger, d: Undo, d': Undo, v: TxColumn, t: TxId, i: nat, g: Guid)
    requires UndoInv(d, l.txs, v) && InputsFine(l, d, g) && t in l.txs && i < |l.txs[t].inputs|
    requires Undone(d, d', t, l.txs[t].inputs[i].coin) && d'.removed == d.removed
    requires g in d.l.assets ==> g in d'.l.assets
    requires g in d'.l.assets ==> g in d.l.assets || Hits(l.txs[t].inputs[i].coin, AssetKey(g))
    ensures InputsFine(l, d', g)
  {
    hide UndoInv;
    var k, c := AssetKey(g), l.txs[t].inputs[i].coin;
    if Hits(c, k) {
      InputsHitAt(l.txs[t].inputs, i, k);
      HitHasRow(l, d, v, t, c, g);
    }
    forall x ensures SeenBy(d', k, x) <==> SeenBy(d, k, x) || (x == t && Hits(c, k)) { }
  }

  lemma OutputStep(l: Ledger, d: Undo, u: TxColumn, v: TxColumn, b: Block, j: nat, i: nat, g: Guid)
    requires BlockOnTop(l.txs, b) && j < |b.txs| && BlockRecord(l.txs, b, j) && i < |b.txs[j].vout|
    requires OutputsBackOk(l, d, u, v, b, j, i) && OutputsFine(l, d, g)
    ensures OutputsFine(l, UndoOutput(d, b.txs[j].txid, l.txs[b.txs[j].txid], i), g)
  {
    var t := b.txs[j].txid;
    var c := l.txs[t].outputs[i].coin;
    if c.addr != NoAddr {
      OutputHasBalance(l, d, v, t, i);
      UndoOutputAsset(d, t, l.txs[t], i, g);
      GoneReady(l.txs, u, v, b, j, i);
      UndoOutputKeeps(d, l.txs, v, t, i);
      if TakesAsset(l.txs, t, g) { InputsSeen(l, d, b, j, g); }
      OutputMeets(l, d, UndoOutput(d, t, l.txs[t], i), v, t, i, g);
    }
  }

  lemma OutputHasBalance(l: Ledger, d: Undo, v: TxColumn, t: TxId, i: nat)
    requires UndoInv(d, l.txs, v) && t in l.txs && i < |l.txs[t].outputs|
    ensures Indexable(l.txs[t].outputs[i].coin.addr) ==> l.txs[t].outputs[i].coin.addr in d.l.bals
  {
    var a := l.txs[t].outputs[i].coin.addr;
    if Indexable(a) {
      LedgerConnect.OutputsHitAt(l.txs[t].outputs, i, AddrKey(a));
      assert TxHits(l.txs[t], AddrKey(a));
    }
  }

  lemma {:induction false} HitInput(ins: seq<TxInput>, k: Key) returns (i: nat)
    requires InputsHit(ins, k)
    ensures i < |ins| && Hits(ins[i].coin, k)
  {
    var n := |ins| - 1;
    if Hits(ins[n].coin, k) {
      i := n;
    } else {
      i := HitInput(ins[..n], k);
    }
  }

  lemma {:induction false} HitOutput(outs: seq<TxOutput>, k: Key) returns (i: nat)
    requires OutputsHit(outs, k)
    ensures i < |outs| && Hits(outs[i].coin, k)
  {
    var n := |outs| - 1;
    if Hits(outs[n].coin, k) {
      i := n;
    } else {
      i := HitOutput(outs[..n], k);
    }
  }

  lemma InputsSeen(l: Ledger, d: Undo, b: Block, j: nat, g: Guid)
    requires j < |b.txs| && InputsMet(d, l.txs, b, |b.txs|, 0) && TakesAsset(l.txs, b.txs[j].txid, g)
    ensures SeenBy(d, AssetKey(g), b.txs[j].txid)
  {
    var i := HitInput(l.txs[b.txs[j].txid].inputs, AssetKey(g));
    var k := AssetKey(g);
    assert Before(j, i, |b.txs|, 0) && Countable(k) && Hits(l.txs[b.txs[j].txid].inputs[i].coin, k);
    assert SeenBy(d, k, b.txs[j].txid);
  }

  lemma OutputsSeen(l: Ledger, d: Undo, b: Block, j: nat, g: Guid)
    requires j < |b.txs| && OutputsMet(d, l.txs, b, |b.txs|, 0)
    requires b.txs[j].txid in l.txs && OutputsHit(l.txs[b.txs[j].txid].outputs, AssetKey(g))
    ensures SeenBy(d, AssetKey(g), b.txs[j].txid)
  {
    var i := HitOutput(l.txs[b.txs[j].txid].outputs, AssetKey(g));
    var k := AssetKey(g);
    assert Before(j, i, |b.txs|, 0) && Countable(k) && Hits(l.txs[b.txs[j].txid].outputs[i].coin, k);
    assert SeenBy(d, k, b.txs[j].txid);
  }

  lemma OutputMeets(l: Ledger, d: Undo, d': Undo, v: TxColumn, t: TxId, i: nat, g: Guid)
    requires UndoInv(d, l.txs, v) && OutputsFine(l, d, g) && t in l.txs && i < |l.txs[t].outputs|
    requires Undone(d, d', t, l.txs[t].outputs[i].coin)
    requires TakesAsset(l.txs, t, g) ==> SeenBy(d, AssetKey(g), t)
    requires var hit := Hits(l.txs[t].outputs[i].coin, AssetKey(g));
             && (g in d'.removed <==>
                   g in d.removed || (hit && AssetTxSeen(g, t) !in d.seenAssets && AssetTxCount(d'.l, g) == 0))
             && (g in d.l.assets ==> g in d'.l.assets) && (g in d'.l.assets ==> g in d.l.assets || hit)
    ensures OutputsFine(l, d', g)
  {
    hide UndoInv, TakesAsset;
    var k, c := AssetKey(g), l.txs[t].outputs[i].coin;
    if Hits(c, k) {
      LedgerConnect.OutputsHitAt(l.txs[t].outputs, i, k);
      HitHasRow(l, d, v, t, c, g);
    }
    assert CountOf(d'.l, k) == CountOf(d.l, k) - OneIf(Hits(c, k) && !SeenBy(d, k, t));
    forall x ensures SeenBy(d', k, x) <==> SeenBy(d, k, x) || (x == t && Hits(c, k)) { }
  }

  // ---------------------------------------------------------------- the block

  lemma InputsFineDone(l: Ledger, b: Block, j: nat, g: Guid)
    requires Inv(l) && Stored(l) && BlockOnTop(l.txs, b) && j <= |b.txs|
    ensures InputsFine(l, UndoInputsDone(l, BlockTxsOf(b), j), g)
    decreases j, 0
  {
    hide Inv, Stored, BlockOnTop;
    if j > 0 {
      OnTopRecorded(l.txs, b, j - 1);
      InputsFineAt(l, b, j - 1, |b.txs[j - 1].vin|, g);
    }
  }

  lemma OnTopRecorded(txs: TxColumn, b: Block, j: nat)
    requires BlockOnTop(txs, b) && j < |b.txs|
    ensures BlockRecord(txs, b, j)
  {
  }

  lemma InputsFineAt(l: Ledger, b: Block, j: nat, i: nat, g: Guid)
    requires Inv(l) && Stored(l) && BlockOnTop(l.txs, b) && j < |b.txs| && BlockRecord(l.txs, b, j)
             && i <= |b.txs[j].vin|
    ensures InputsFine(l, UndoInputsAt(l, BlockTxsOf(b), j, i), g)
    decreases j, i + 1
  {
    hide Inv, Stored, BlockOnTop, InputsFine, UndoInput, InputsBackOk;
    if i == 0 {
      InputsFineDone(l, b, j, g);
    } else {
      InputsFineAt(l, b, j, i - 1, g);
      var v := InputsBack(l, b, j, i - 1);
      InputStep(l, UndoInputsAt(l, BlockTxsOf(b), j, i - 1), v, b, j, i - 1, g);
    }
  }

  lemma OutputsFineDone(l: Ledger, b: Block, j: nat, g: Guid)
    requires Inv(l) && Stored(l) && BlockOnTop(l.txs, b) && j <= |b.txs|
    ensures OutputsFine(l, UndoOutputsDone(l, BlockTxsOf(b), j), g)
    decreases j, 0
  {
    hide Inv, Stored, BlockOnTop;
    if j > 0 {
      OnTopRecorded(l.txs, b, j - 1);
      OutputsFineAt(l, b, j - 1, |b.txs[j - 1].vout|, g);
    } else {
      InputsFineDone(l, b, |b.txs|, g);
    }
  }

  lemma OutputsFineAt(l: Ledger, b: Block, j: nat, i: nat, g: Guid)
    requires Inv(l) && Stored(l) && BlockOnTop(l.txs, b) && j < |b.txs| && BlockRecord(l.txs, b, j)
             && i <= |b.txs[j].vout|
    ensures OutputsFine(l, UndoOutputsAt(l, BlockTxsOf(b), j, i), g)
    decreases j, i + 1
  {
    hide Inv, Stored, BlockOnTop, OutputsFine, UndoOutput, OutputsBackOk;
    if i == 0 {
      OutputsFineDone(l, b, j, g);
    } else {
      OutputsFineAt(l, b, j, i - 1, g);
      var u, v := OutputsBack(l, b, j, i - 1);
      OutputStep(l, UndoOutputsAt(l, BlockTxsOf(b), j, i - 1), u, v, b, j, i - 1, g);
    }
  }

  // ---------------------------------------------------------------- the result

  /** All transactions of the asset are in the block. */
  ghost predicate AllInBlock(txs: TxColumn, b: Block, g: Guid) {
    forall t :: t in txs && TxHits(txs[t], AssetKey(g)) ==> InBlock(b, t, |b.txs|)
  }

  /** Some transaction of the block carries the asset in outputs, and in no input. */
  ghost predicate OutputOnlyInBlock(txs: TxColumn, b: Block, g: Guid) {
    exists j :: 0 <= j < |b.txs| && b.txs[j].txid in txs && TxHits(txs[b.txs[j].txid], AssetKey(g))
                && !TakesAsset(txs, b.txs[j].txid, g)
  }

  /** At the end the transactions of the block that carry the asset have been met, and no others. */
  lemma MetAtEnd(l: Ledger, d: Undo, u: TxColumn, v: TxColumn, b: Block, g: Guid, t: TxId)
    requires OutputsBackOk(l, d, u, v, b, |b.txs|, 0)
    ensures SeenBy(d, AssetKey(g), t) <==> t in l.txs && TxHits(l.txs[t], AssetKey(g)) && InBlock(b, t, |b.txs|)
  {
    hide AmountsOk, ListsOk, CountsLeft, RowsPresent, RemovedEmpty, RestUntouched, BackShape, GoneShape, StoredAs;
    if t in l.txs && TxHits(l.txs[t], AssetKey(g)) && InBlock(b, t, |b.txs|) {
      var j :| 0 <= j < |b.txs| && b.txs[j].txid == t;
      if InputsHit(l.txs[t].inputs, AssetKey(g)) {
        InputsSeen(l, d, b, j, g);
      } else {
        OutputsSeen(l, d, b, j, g);
      }
    }
  }

  lemma NoneLeft(l: Ledger, d: Undo, u: TxColumn, v: TxColumn, b: Block, g: Guid)
    requires OutputsBackOk(l, d, u, v, b, |b.txs|, 0)
    ensures AssetTxCount(d.l, g) == 0 <==> AllInBlock(l.txs, b, g)
    ensures OutputOnlyMet(l.txs, d, g) <==> OutputOnlyInBlock(l.txs, b, g)
  {
    hide OutputsBackOk, TxHits, TakesAsset, AssetTxCount, InBlock, SeenBy;
    CountAtEnd(l, d, v, g, u, b);
    forall t
      ensures SeenBy(d, AssetKey(g), t) <==> t in l.txs && TxHits(l.txs[t], AssetKey(g)) && InBlock(b, t, |b.txs|)
    {
      MetAtEnd(l, d, u, v, b, g, t);
    }
    LeftInBlock(l.txs, d, b, g);
    MetInBlock(l.txs, d, b, g);
  }

  lemma LeftInBlock(txs: TxColumn, d: Undo, b: Block, g: Guid)
    requires forall t ::
               SeenBy(d, AssetKey(g), t) <==> t in txs && TxHits(txs[t], AssetKey(g)) && InBlock(b, t, |b.txs|)
    ensures |Remaining(txs, d, AssetKey(g))| == 0 <==> AllInBlock(txs, b, g)
  {
    hide TxHits, InBlock, SeenBy;
    var left := Remaining(txs, d, AssetKey(g));
    if |left| == 0 {
      forall t | t in txs && TxHits(txs[t], AssetKey(g)) ensures InBlock(b, t, |b.txs|) {
        assert t !in left;
      }
    } else {
      var t :| t in left;
      assert !InBlock(b, t, |b.txs|);
    }
  }

  lemma MetInBlock(txs: TxColumn, d: Undo, b: Block, g: Guid)
    requires forall t ::
               SeenBy(d, AssetKey(g), t) <==> t in txs && TxHits(txs[t], AssetKey(g)) && InBlock(b, t, |b.txs|)
    ensures OutputOnlyMet(txs, d, g) <==> OutputOnlyInBlock(txs, b, g)
  {
    hide TxHits, SeenBy, TakesAsset;
    if OutputOnlyMet(txs, d, g) {
      var t :| SeenBy(d, AssetKey(g), t) && !TakesAsset(txs, t, g);
      var j :| 0 <= j < |b.txs| && b.txs[j].txid == t;
    }
    if OutputOnlyInBlock(txs, b, g) {
      var j :| 0 <= j < |b.txs| && b.txs[j].txid in txs && TxHits(txs[b.txs[j].txid], AssetKey(g))
          && !TakesAsset(txs, b.txs[j].txid, g);
      assert InBlock(b, b.txs[j].txid, |b.txs|);
      assert SeenBy(d, AssetKey(g), b.txs[j].txid);
    }
  }

  lemma CountAtEnd(l: Ledger, d: Undo, v: TxColumn, g: Guid, u: TxColumn, b: Block)
    requires OutputsBackOk(l, d, u, v, b, |b.txs|, 0)
    ensures AssetTxCount(d.l, g) == |Remaining(l.txs, d, AssetKey(g))|
  {
    assert CountOf(d.l, AssetKey(g)) == |Remaining(l.txs, d, AssetKey(g))|;
  }

  /** Disconnecting the top block deletes the row of an asset exactly when all its transactions are in the block, one
      of them carries it in outputs only, and it is not the bridge asset. */
  lemma RemovedExactly(l: Ledger, b: Block, g: Guid)
    requires Good(l) && BlockOnTop(l.txs, b) && b.txs != []
    requires b.height in l.blockTxs && l.blockTxs[b.height] == BlockTxsOf(b)
    ensures var r := Disconnect(l, b.height);
            && r.Some?
            && (g in r.value.assets <==>
                  g in l.assets && (g == 123456 || !AllInBlock(l.txs, b, g) || !OutputOnlyInBlock(l.txs, b, g)))
  {
    hide Inv, Stored, BlockOnTop, AllInBlock, OutputOnlyInBlock, OutputOnlyMet, OutputsBackOk, UndoOutputsDone;
    var bts := BlockTxsOf(b);
    assert bts != [];
    var u, v := OutputsBackDone(l, b, |b.txs|);
    OutputsFineDone(l, b, |b.txs|, g);
    NoneLeft(l, UndoOutputsDone(l, bts, |bts|), u, v, b, g);
  }

  // ---------------------------------------------------------------- in terms of the blocks

  /** A block below the last one has a transaction that touches the key. */
  ghost predicate TouchedBelow(chain: seq<Block>, k: Key) {
    exists x, j :: 0 <= x < |chain| - 1 && 0 <= j < |chain[x].txs|
      && (R.TxPays(chain[x].txs[j], k) || R.TxTakes(chain[..x + 1], chain[x].txs[j], k))
  }

  /** The last block has a transaction that pays in the asset and takes nothing of it. */
  ghost predicate PaidFromNothing(chain: seq<Block>, k: Key)
    requires chain != []
  {
    exists j :: 0 <= j < |Last(chain).txs| && R.TxPays(Last(chain).txs[j], k)
                && !R.TxTakes(chain, Last(chain).txs[j], k)
  }

  lemma BelowIsOutside(txs: TxColumn, chain: seq<Block>, ext: bool, g: Guid)
    requires chain != [] && Ascending(chain) && R.RecordsSay(txs, chain, ext) && BlockOnTop(txs, Last(chain))
    ensures TouchedBelow(chain, AssetKey(g)) <==> !AllInBlock(txs, Last(chain), g)
  {
    hide TxHits, R.RecordSays, R.RecordsSay, BlockOnTop, InBlock;
    var k, b := AssetKey(g), Last(chain);
    if TouchedBelow(chain, k) {
      var x, j :| 0 <= x < |chain| - 1 && 0 <= j < |chain[x].txs|
          && (R.TxPays(chain[x].txs[j], k) || R.TxTakes(chain[..x + 1], chain[x].txs[j], k));
      RecordAt(txs, chain, ext, x, j);
      RecordHits(txs[chain[x].txs[j].txid], chain, ext, x, j, k);
      TopHeight(txs, chain, ext, x, j);
    }
    if !AllInBlock(txs, b, g) {
      var t :| t in txs && TxHits(txs[t], k) && !InBlock(b, t, |b.txs|);
      var x, j := Whereabouts(txs, chain, ext, t);
      RecordAt(txs, chain, ext, x, j);
      RecordHits(txs[t], chain, ext, x, j, k);
      TopHeight(txs, chain, ext, x, j);
    }
  }

  lemma Whereabouts(txs: TxColumn, chain: seq<Block>, ext: bool, t: TxId) returns (x: nat, j: nat)
    requires R.RecordsSay(txs, chain, ext) && t in txs
    ensures x < |chain| && j < |chain[x].txs| && chain[x].txs[j].txid == t
  {
    assert R.InChain(chain, t);
    x, j :| 0 <= x < |chain| && 0 <= j < |chain[x].txs| && chain[x].txs[j].txid == t;
  }

  lemma TopHeight(txs: TxColumn, chain: seq<Block>, ext: bool, x: nat, j: nat)
    requires chain != [] && Ascending(chain) && R.RecordsSay(txs, chain, ext) && BlockOnTop(txs, Last(chain))
    requires x < |chain| && j < |chain[x].txs|
    ensures InBlock(Last(chain), chain[x].txs[j].txid, |Last(chain).txs|) <==> x == |chain| - 1
  {
    RecordAt(txs, chain, ext, x, j);
    assert txs[chain[x].txs[j].txid].height == chain[x].height;
  }

  lemma PaidIsOutputOnly(txs: TxColumn, chain: seq<Block>, ext: bool, g: Guid)
    requires chain != [] && R.RecordsSay(txs, chain, ext)
    ensures PaidFromNothing(chain, AssetKey(g)) <==> OutputOnlyInBlock(txs, Last(chain), g)
  {
    hide R.RecordSays, R.RecordsSay;
    assert chain[..|chain|] == chain;
    forall j | 0 <= j < |Last(chain).txs|
      ensures var tx := Last(chain).txs[j];
              && tx.txid in txs && (TakesAsset(txs, tx.txid, g) <==> R.TxTakes(chain, tx, AssetKey(g)))
              && (TxHits(txs[tx.txid], AssetKey(g)) <==>
                    R.TxPays(tx, AssetKey(g)) || R.TxTakes(chain, tx, AssetKey(g)))
    {
      RecordAt(txs, chain, ext, |chain| - 1, j);
      TakesSays(txs[Last(chain).txs[j].txid], chain, ext, j, AssetKey(g));
      RecordHits(txs[Last(chain).txs[j].txid], chain, ext, |chain| - 1, j, AssetKey(g));
    }
  }

  lemma TakesSays(ta: TxAddresses, chain: seq<Block>, ext: bool, j: nat, k: Key)
    requires chain != [] && j < |Last(chain).txs| && R.RecordSays(ta, chain, ext, |chain| - 1, j)
    ensures InputsHit(ta.inputs, k) <==> R.TxTakes(chain, Last(chain).txs[j], k)
  {
    assert chain[..|chain|] == chain;
    InputsHitSay(ta.inputs, chain, ext, Last(chain).txs[j].vin, k);
  }

  /** In every reachable state, dropping the last block deletes the row of an asset exactly when no block below touches
      the asset, the block has a transaction that pays in it and takes nothing of it, and it is not the bridge asset. */
  lemma DropRemovesAsset(ext: bool, es: seq<Event>, g: Guid)
    requires LegalRun(Node(EmptyLedger, []), ext, es) && Execute(Node(EmptyLedger, []), ext, es).chain != []
    ensures var n := Execute(Node(EmptyLedger, []), ext, es);
            g in Step(n, ext, Drop).l.assets <==>
              && g in n.l.assets
              && (g == 123456 || TouchedBelow(n.chain, AssetKey(g)) || !PaidFromNothing(n.chain, AssetKey(g)))
  {
    hide Execute, LegalRun, NodeFit, Good, BlockOnTop, TouchedBelow, PaidFromNothing, AllInBlock, OutputOnlyInBlock;
    hide R.RecordsSay, CoinsSay, Disconnect, BlockTxsOf, Inv, SameIndex;
    var n := Execute(Node(EmptyLedger, []), ext, es);
    RunIsReplay(ext, es);
    NodeOnTop(n, ext);
    NodeSays(n, ext);
    FitAscends(n, ext);
    BelowIsOutside(n.l.txs, n.chain, ext, g);
    PaidIsOutputOnly(n.l.txs, n.chain, ext, g);
    assert HasRecord(n.l, Last(n.chain));
    RemovedExactly(n.l, Last(n.chain), g);
  }
}
