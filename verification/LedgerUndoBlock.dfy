// A whole block taken out again.
module LedgerUndoBlock {
  import opened Types
  import opened UtxoIndex
  import opened LedgerModel
  import opened LedgerInvariant
  import opened LedgerSteps
  import opened LedgerBlock
  import opened LedgerUndo
  import opened LedgerUndoSteps

  // ---------------------------------------------------------------- a block on top of the column

  ghost predicate BlockRecord(txs: TxColumn, b: Block, j: nat)
    requires j < |b.txs|
  {
    && b.txs[j].txid in txs
    && var ta := txs[b.txs[j].txid];
       ta.height == b.height && |ta.inputs| == |b.txs[j].vin| && |ta.outputs| == |b.txs[j].vout|
  }

  /** The input either is blank or carries the coin of the spent output it names. */
  ghost predicate InputLinked(txs: TxColumn, input: TxInput, vin: Option<OutPoint>) {
    if vin.None? || SourceIn(txs, vin.value).None? then input.coin.addr == NoAddr
    else
      && SourceIn(txs, vin.value).value.coin == input.coin
      && (input.coin.addr != NoAddr ==> SourceIn(txs, vin.value).value.spent)
  }

  ghost predicate InputsLinked(txs: TxColumn, b: Block) {
    forall j, i ::
        0 <= j < |b.txs| && b.txs[j].txid in txs && 0 <= i < |b.txs[j].vin| && i < |txs[b.txs[j].txid].inputs| ==>
                     InputLinked(txs, txs[b.txs[j].txid].inputs[i], b.txs[j].vin[i])
  }

  /** Outputs of the block that the block itself does not take are unspent. */
  ghost predicate OutputsFree(txs: TxColumn, b: Block) {
    forall j, v :: (
      && 0 <= j < |b.txs| && b.txs[j].txid in txs && 0 <= v < |txs[b.txs[j].txid].outputs|
      && txs[b.txs[j].txid].outputs[v].coin.addr != NoAddr && !Taken(b, OutPoint(b.txs[j].txid, v), |b.txs|, 0)) ==>
           !txs[b.txs[j].txid].outputs[v].spent
  }

  ghost predicate BlockOnTop(txs: TxColumn, b: Block) {
    && DistinctIds(b) && NoDoubleSpend(b)
    && (forall j :: 0 <= j < |b.txs| ==> BlockRecord(txs, b, j))
    && InputsLinked(txs, b) && OutputsFree(txs, b)
    && (forall t :: t in txs ==> (txs[t].height == b.height <==> InBlock(b, t, |b.txs|)))
  }

  lemma ExtendsOnTop(was: TxColumn, now: TxColumn, b: Block, ext: bool)
    requires ValidBlock(was, b) && Extends(was, now, b, ext)
    ensures BlockOnTop(now, b)
  {
    hide FreeInputs, BlockRecord, BaseOf, InputShape, InputLinked, OutputsFree;
    var base: TxColumn :| BaseOf(was, base, b) && InputShape(base, now, b, ext, |b.txs|, -1);
    forall j | 0 <= j < |b.txs| ensures BlockRecord(now, b, j) { OnTopRecord(was, base, now, b, ext, j); }
    forall j, i | 0 <= j < |b.txs| && b.txs[j].txid in now && 0 <= i < |b.txs[j].vin| && i < |now[b.txs[j].txid].inputs|
      ensures InputLinked(now, now[b.txs[j].txid].inputs[i], b.txs[j].vin[i])
    {
      OnTopLinked(was, base, now, b, ext, j, i);
    }
    OnTopRest(was, base, now, b, ext);
  }

  lemma OnTopRecord(was: TxColumn, base: TxColumn, now: TxColumn, b: Block, ext: bool, j: nat)
    requires ValidBlock(was, b) && BaseOf(was, base, b) && InputShape(base, now, b, ext, |b.txs|, -1) && j < |b.txs|
    ensures BlockRecord(now, b, j)
  {
    hide ValidBlock, Kept, InputsFilled;
    KeptRecord(was, base, now, b, ext, j);
  }

  lemma KeptRecord(was: TxColumn, base: TxColumn, now: TxColumn, b: Block, ext: bool, j: nat)
    requires BaseOf(was, base, b) && InputShape(base, now, b, ext, |b.txs|, -1) && j < |b.txs|
    ensures var t := b.txs[j].txid;
            && t in now && now[t].height == b.height
                 && |now[t].outputs| == |b.txs[j].vout| && |now[t].inputs| == |b.txs[j].vin|
  {
    var t := b.txs[j].txid;
    assert base[t] == Record(b, b.txs[j], |b.txs[j].vout|);
    assert Kept(base[t], now[t], b, ext, t, |b.txs|, -1);
    assert InputsFilled(base, now[t], b, ext, j, |b.txs|, -1);
  }

  lemma OnTopLinked(was: TxColumn, base: TxColumn, now: TxColumn, b: Block, ext: bool, j: nat, i: nat)
    requires ValidBlock(was, b) && BaseOf(was, base, b) && InputShape(base, now, b, ext, |b.txs|, -1)
    requires j < |b.txs| && b.txs[j].txid in now && i < |b.txs[j].vin| && i < |now[b.txs[j].txid].inputs|
    ensures InputLinked(now, now[b.txs[j].txid].inputs[i], b.txs[j].vin[i])
  {
    assert InputsFilled(base, now[b.txs[j].txid], b, ext, j, |b.txs|, -1);
    assert now[b.txs[j].txid].inputs[i] == InputFor(base, b.txs[j].vin[i], ext);
    if b.txs[j].vin[i].Some? {
      SourceKept(base, now, b, ext, |b.txs|, -1, b.txs[j].vin[i].value);
      if SourceIn(base, b.txs[j].vin[i].value).Some? { TakenIsSpent(base, now, b, ext, j, i); }
    }
  }

  lemma TakenAtEnd(b: Block, op: OutPoint)
    ensures Taken(b, op, |b.txs|, -1) <==> Taken(b, op, |b.txs|, 0)
  {
    if Taken(b, op, |b.txs|, -1) {
      var j', i' :| Takes(b, j', i', op) && Before(j', i', |b.txs|, -1);
      assert Before(j', i', |b.txs|, 0);
    }
    if Taken(b, op, |b.txs|, 0) {
      var j', i' :| Takes(b, j', i', op) && Before(j', i', |b.txs|, 0);
      assert Before(j', i', |b.txs|, -1);
    }
  }

  lemma TakenIsSpent(base: TxColumn, now: TxColumn, b: Block, ext: bool, j: nat, i: nat)
    requires InputShape(base, now, b, ext, |b.txs|, -1)
    requires j < |b.txs| && i < |b.txs[j].vin| && b.txs[j].vin[i].Some? && SourceIn(base, b.txs[j].vin[i].value).Some?
    ensures var op := b.txs[j].vin[i].value;
            SourceIn(now, op) == Some(SpentOutput(SourceIn(base, op).value, ext, b, b.txs[j], i))
  {
    var op := b.txs[j].vin[i].value;
    assert Kept(base[op.txid], now[op.txid], b, ext, op.txid, |b.txs|, -1);
    assert OutputKept(base[op.txid].outputs[op.vout], now[op.txid].outputs[op.vout], b, ext,
        OutPoint(op.txid, op.vout), |b.txs|, -1);
    assert Takes(b, j, i, op) && Before(j, i, |b.txs|, -1);
  }

  lemma OnTopRest(was: TxColumn, base: TxColumn, now: TxColumn, b: Block, ext: bool)
    requires ValidBlock(was, b) && BaseOf(was, base, b) && InputShape(base, now, b, ext, |b.txs|, -1)
    ensures OutputsFree(now, b)
    ensures forall t :: t in now ==> (now[t].height == b.height <==> InBlock(b, t, |b.txs|))
  {
    forall j, v | 0 <= j < |b.txs| && b.txs[j].txid in now && 0 <= v < |now[b.txs[j].txid].outputs|
                  && !Taken(b, OutPoint(b.txs[j].txid, v), |b.txs|, 0)
      ensures !now[b.txs[j].txid].outputs[v].spent
    {
      var t := b.txs[j].txid;
      assert Kept(base[t], now[t], b, ext, t, |b.txs|, -1);
      assert base[t] == Record(b, b.txs[j], |b.txs[j].vout|);
      TakenAtEnd(b, OutPoint(t, v));
      assert OutputKept(base[t].outputs[v], now[t].outputs[v], b, ext, OutPoint(t, v), |b.txs|, -1);
    }
    forall t | t in now ensures now[t].height == b.height <==> InBlock(b, t, |b.txs|) {
      assert Kept(base[t], now[t], b, ext, t, |b.txs|, -1);
      if InBlock(b, t, |b.txs|) {
        var j :| 0 <= j < |b.txs| && b.txs[j].txid == t;
        assert base[t] == Record(b, b.txs[j], |b.txs[j].vout|);
      } else {
        assert t in was && base[t] == was[t];
      }
    }
  }

  // ---------------------------------------------------------------- inputs taken back

  /** The output `op` of `txs` was given back by an input before (j, i). */
  ghost predicate Freed(b: Block, op: OutPoint, o: TxOutput, j: int, i: int) {
    Taken(b, op, j, i) && o.coin.addr != NoAddr
  }

  function FreedOutput(o: TxOutput): TxOutput { TxOutput(o.coin, false, None) }

  ghost predicate OutputsFreed(was: TxAddresses, now: TxAddresses, b: Block, t: TxId, j: int, i: int) {
    && now.height == was.height && now.version == was.version && |now.outputs| == |was.outputs|
    && forall v :: 0 <= v < |was.outputs| ==>
         now.outputs[v] == if Freed(b, OutPoint(t, v), was.outputs[v], j, i)
             then FreedOutput(was.outputs[v]) else was.outputs[v]
  }

  ghost predicate InputsBlanked(was: TxAddresses, now: TxAddresses, j': int, j: int, i: int) {
    && |now.inputs| == |was.inputs|
    && forall x :: 0 <= x < |was.inputs| ==>
         now.inputs[x] == if Before(j', x, j, i) && was.inputs[x].coin.addr != NoAddr then NoInput else was.inputs[x]
  }

  /** `v` is `txs` with the inputs before (j, i) taken back. */
  ghost predicate BackShape(txs: TxColumn, v: TxColumn, b: Block, j: int, i: int) {
    && v.Keys == txs.Keys
    && (forall t :: t in txs ==> OutputsFreed(txs[t], v[t], b, t, j, i))
    && (forall t :: t in txs && !InBlock(b, t, |b.txs|) ==> v[t].inputs == txs[t].inputs)
    && (forall x :: 0 <= x < |b.txs| && b.txs[x].txid in txs ==>
         InputsBlanked(txs[b.txs[x].txid], v[b.txs[x].txid], x, j, i))
  }

  /** The stored column keeps the inputs; only outputs are rewritten. */
  ghost predicate StoredAs(txs: TxColumn, v: TxColumn, stored: TxColumn) {
    stored.Keys == txs.Keys && forall t :: t in txs ==> t in v && stored[t] == txs[t].(outputs := v[t].outputs)
  }

  lemma BackStart(txs: TxColumn, b: Block)
    ensures BackShape(txs, txs, b, 0, 0) && StoredAs(txs, txs, txs)
  {
  }

  lemma BackReady(txs: TxColumn, v: TxColumn, b: Block, j: nat, i: nat)
    requires BlockOnTop(txs, b) && BackShape(txs, v, b, j, i) && j < |b.txs| && i < |b.txs[j].vin|
    requires BlockRecord(txs, b, j) && txs[b.txs[j].txid].inputs[i].coin.addr != NoAddr
    ensures b.txs[j].vin[i].Some?
    ensures var op := b.txs[j].vin[i].value;
            && UnspendReady(v, op, b.txs[j].txid, i, txs[b.txs[j].txid].inputs[i].coin)
            && SourceIn(v, op) == SourceIn(txs, op)
  {
    var t := b.txs[j].txid;
    assert BlockRecord(txs, b, j);
    assert InputLinked(txs, txs[t].inputs[i], b.txs[j].vin[i]);
    var op := b.txs[j].vin[i].value;
    assert Takes(b, j, i, op);
    NotYetTaken(b, op, j, i);
    assert OutputsFreed(txs[op.txid], v[op.txid], b, op.txid, j, i);
    assert InputsBlanked(txs[t], v[t], j, j, i);
  }

  lemma BackSkip(txs: TxColumn, v: TxColumn, b: Block, j: nat, i: nat)
    requires BlockOnTop(txs, b) && BackShape(txs, v, b, j, i) && j < |b.txs| && i < |b.txs[j].vin|
    requires BlockRecord(txs, b, j) && txs[b.txs[j].txid].inputs[i].coin.addr == NoAddr
    ensures BackShape(txs, v, b, j, i + 1)
  {
    assert BlockRecord(txs, b, j);
    assert InputLinked(txs, txs[b.txs[j].txid].inputs[i], b.txs[j].vin[i]);
    forall t | t in txs ensures OutputsFreed(txs[t], v[t], b, t, j, i + 1) {
      assert OutputsFreed(txs[t], v[t], b, t, j, i);
      forall x | 0 <= x < |txs[t].outputs|
        ensures Freed(b, OutPoint(t, x), txs[t].outputs[x], j, i + 1)
                <==> Freed(b, OutPoint(t, x), txs[t].outputs[x], j, i)
      {
        TakenNext(b, OutPoint(t, x), j, i);
      }
    }
    forall x | 0 <= x < |b.txs| && b.txs[x].txid in txs
      ensures InputsBlanked(txs[b.txs[x].txid], v[b.txs[x].txid], x, j, i + 1)
    {
      assert InputsBlanked(txs[b.txs[x].txid], v[b.txs[x].txid], x, j, i);
    }
  }

  lemma BackTakeOutputs(txs: TxColumn, v: TxColumn, b: Block, j: nat, i: nat, op: OutPoint, c: Coin, t: TxId)
    requires BackShape(txs, v, b, j, i) && Takes(b, j, i, op) && c.addr != NoAddr
    requires SourceIn(txs, op).Some? && SourceIn(txs, op).value.coin == c && t in txs
    ensures OutputsFreed(txs[t], UnspendColumn(v, op, b.txs[j].txid, i, c)[t], b, t, j, i + 1)
  {
    var now := UnspendColumn(v, op, b.txs[j].txid, i, c);
    assert OutputsFreed(txs[t], v[t], b, t, j, i);
    assert OutputsFreed(txs[op.txid], v[op.txid], b, op.txid, j, i);
    forall x | 0 <= x < |txs[t].outputs|
      ensures now[t].outputs[x]
           == if Freed(b, OutPoint(t, x), txs[t].outputs[x], j, i + 1)
               then FreedOutput(txs[t].outputs[x]) else txs[t].outputs[x]
    {
      TakenNext(b, OutPoint(t, x), j, i);
    }
  }

  lemma BackTake(txs: TxColumn, v: TxColumn, b: Block, j: nat, i: nat, op: OutPoint, c: Coin)
    requires BlockOnTop(txs, b) && BackShape(txs, v, b, j, i) && Takes(b, j, i, op) && c.addr != NoAddr
    requires BlockRecord(txs, b, j) && SourceIn(txs, op).Some? && SourceIn(txs, op).value.coin == c
             && txs[b.txs[j].txid].inputs[i].coin == c
    ensures BackShape(txs, UnspendColumn(v, op, b.txs[j].txid, i, c), b, j, i + 1)
  {
    var now := UnspendColumn(v, op, b.txs[j].txid, i, c);
    assert BlockRecord(txs, b, j);
    assert InBlock(b, b.txs[j].txid, |b.txs|);
    forall t | t in txs ensures OutputsFreed(txs[t], now[t], b, t, j, i + 1) {
      BackTakeOutputs(txs, v, b, j, i, op, c, t);
    }
    forall x | 0 <= x < |b.txs| && b.txs[x].txid in txs
      ensures InputsBlanked(txs[b.txs[x].txid], now[b.txs[x].txid], x, j, i + 1)
    {
      assert BlockRecord(txs, b, x);
      BackTakeInputs(txs, v, b, j, i, op, c, x);
    }
  }

  lemma BackTakeInputs(txs: TxColumn, v: TxColumn, b: Block, j: nat, i: nat, op: OutPoint, c: Coin, x: nat)
    requires BlockOnTop(txs, b) && BackShape(txs, v, b, j, i) && Takes(b, j, i, op) && c.addr != NoAddr
    requires BlockRecord(txs, b, j) && SourceIn(txs, op).Some? && txs[b.txs[j].txid].inputs[i].coin == c
    requires x < |b.txs| && BlockRecord(txs, b, x)
    ensures InputsBlanked(txs[b.txs[x].txid], UnspendColumn(v, op, b.txs[j].txid, i, c)[b.txs[x].txid], x, j, i + 1)
  {
    assert BlockRecord(txs, b, j) && BlockRecord(txs, b, x);
    assert InputsBlanked(txs[b.txs[x].txid], v[b.txs[x].txid], x, j, i);
    assert InputsBlanked(txs[b.txs[j].txid], v[b.txs[j].txid], j, j, i);
    var mid := SetOutput(v, op.txid, op.vout, TxOutput(c, false, None));
    assert forall y :: y in v ==> mid[y].inputs == v[y].inputs;
    assert x != j ==> b.txs[x].txid != b.txs[j].txid;
  }

  lemma StoredTake(txs: TxColumn, v: TxColumn, stored: TxColumn, op: OutPoint, t: TxId, i: nat, c: Coin)
    requires StoredAs(txs, v, stored) && v.Keys == txs.Keys
    ensures StoredAs(txs, UnspendColumn(v, op, t, i, c), SetOutput(stored, op.txid, op.vout, TxOutput(c, false, None)))
  {
  }

  lemma BackNextTx(txs: TxColumn, v: TxColumn, b: Block, j: nat)
    requires BlockOnTop(txs, b) && j < |b.txs| && BackShape(txs, v, b, j, |b.txs[j].vin|)
    ensures BackShape(txs, v, b, j + 1, 0)
  {
    forall op ensures Taken(b, op, j + 1, 0) <==> Taken(b, op, j, |b.txs[j].vin|) {
      TakenNextTx(b, op, j);
    }
    forall t | t in txs ensures OutputsFreed(txs[t], v[t], b, t, j + 1, 0) {
      assert OutputsFreed(txs[t], v[t], b, t, j, |b.txs[j].vin|);
    }
    forall x | 0 <= x < |b.txs| && b.txs[x].txid in txs
      ensures InputsBlanked(txs[b.txs[x].txid], v[b.txs[x].txid], x, j + 1, 0)
    {
      assert BlockRecord(txs, b, x);
      assert InputsBlanked(txs[b.txs[x].txid], v[b.txs[x].txid], x, j, |b.txs[j].vin|);
    }
  }

  lemma TakenNextTx(b: Block, op: OutPoint, j: nat)
    requires j < |b.txs|
    ensures Taken(b, op, j + 1, 0) <==> Taken(b, op, j, |b.txs[j].vin|)
  {
    if Taken(b, op, j + 1, 0) {
      var j', i' :| Takes(b, j', i', op) && Before(j', i', j + 1, 0);
      assert Before(j', i', j, |b.txs[j].vin|);
    }
    if Taken(b, op, j, |b.txs[j].vin|) {
      var j', i' :| Takes(b, j', i', op) && Before(j', i', j, |b.txs[j].vin|);
      assert Before(j', i', j + 1, 0);
    }
  }

  // ---------------------------------------------------------------- what was met

  ghost predicate SeenInBlock(d: Undo, b: Block) {
    && (forall k, t :: Countable(k) && SeenBy(d, k, t) ==> InBlock(b, t, |b.txs|))
    && (forall s :: s in d.seen ==> InBlock(b, s.txid, |b.txs|))
  }

  /** Every key hit by an input before (j, i) was met. */
  ghost predicate InputsMet(d: Undo, txs: TxColumn, b: Block, j: int, i: int) {
    forall y, x, k :: (
      && 0 <= y < |b.txs| && b.txs[y].txid in txs && 0 <= x < |txs[b.txs[y].txid].inputs| && Before(y, x, j, i)
      && Countable(k) && Hits(txs[b.txs[y].txid].inputs[x].coin, k)) ==> SeenBy(d, k, b.txs[y].txid)
  }

  ghost predicate OutputsMet(d: Undo, txs: TxColumn, b: Block, j: int, i: int) {
    forall y, x, k :: (
      && 0 <= y < |b.txs| && b.txs[y].txid in txs && 0 <= x < |txs[b.txs[y].txid].outputs| && Before(y, x, j, i)
      && Countable(k) && Hits(txs[b.txs[y].txid].outputs[x].coin, k)) ==> SeenBy(d, k, b.txs[y].txid)
  }

  /** Columns a disconnect only rewrites in its final batch. */
  ghost predicate SameRows(l: Ledger, l': Ledger) {
    && l'.rows == l.rows && l'.assetRows == l.assetRows && l'.blockTxs == l.blockTxs && l'.heights == l.heights
    && l'.bals.Keys == l.bals.Keys
  }

  lemma MetMore(d: Undo, d': Undo, txs: TxColumn, b: Block, j: nat, c: Coin)
    requires j < |b.txs| && Undone(d, d', b.txs[j].txid, c) && SeenInBlock(d, b)
    ensures SeenInBlock(d', b)
    ensures forall y, x :: InputsMet(d, txs, b, y, x) ==> InputsMet(d', txs, b, y, x)
    ensures forall y, x :: OutputsMet(d, txs, b, y, x) ==> OutputsMet(d', txs, b, y, x)
    ensures forall k :: Countable(k) && Hits(c, k) ==> SeenBy(d', k, b.txs[j].txid)
  {
    assert InBlock(b, b.txs[j].txid, |b.txs|);
    forall k, t | Countable(k) && SeenBy(d', k, t) ensures InBlock(b, t, |b.txs|) {
      assert SeenBy(d, k, t) || (t == b.txs[j].txid && Hits(c, k));
    }
    forall k, t | Countable(k) && SeenBy(d, k, t) ensures SeenBy(d', k, t) {
    }
    forall k | Countable(k) && Hits(c, k) ensures SeenBy(d', k, b.txs[j].txid) {
    }
  }

  ghost predicate InputsBackOk(l: Ledger, d: Undo, v: TxColumn, b: Block, j: nat, i: nat) {
    && UndoInv(d, l.txs, v) && BackShape(l.txs, v, b, j, i) && StoredAs(l.txs, v, d.l.txs)
    && SeenInBlock(d, b) && InputsMet(d, l.txs, b, j, i) && SameRows(l, d.l)
  }

  /** As read from the database: no tombstones, in height order, index built by the read. */
  ghost predicate ListStored(u: UtxoList) { AllLive(u.slots) && SortedByHeight(u.slots) && u == Load(u.slots) }

  ghost predicate Stored(l: Ledger) { forall a :: ListStored(Bal(l, a).utxos) }

  lemma InputsBackStart(l: Ledger, b: Block)
    requires Inv(l) && Stored(l)
    ensures InputsBackOk(l, Undo(l, {}, {}, {}, {}), l.txs, b, 0, 0)
  {
    var d := Undo(l, {}, {}, {}, {});
    BackStart(l.txs, b);
    assert CountsLeft(d, l.txs) by {
      forall k | Countable(k) ensures CountOf(d.l, k) == |Remaining(l.txs, d, k)| {
        assert Remaining(l.txs, d, k) == Touching(l.txs, k);
      }
    }
    assert RowsPresent(d, l.txs) by {
      forall a, t | t in l.txs && Indexable(a) && TxHits(l.txs[t], AddrKey(a)) ensures a in d.l.bals {
        assert CountOf(l, AddrKey(a)) == |Touching(l.txs, AddrKey(a))|;
        assert t in Touching(l.txs, AddrKey(a));
      }
    }
    forall a ensures AllLive(Bal(d.l, a).utxos.slots) && SortedByHeight(Bal(d.l, a).utxos.slots)
                     && Bal(d.l, a).utxos == Load(Bal(d.l, a).utxos.slots)
    {
      assert ListStored(Bal(l, a).utxos);
    }
  }

  lemma InputBack(l: Ledger, d: Undo, v: TxColumn, b: Block, j: nat, i: nat) returns (v': TxColumn)
    requires BlockOnTop(l.txs, b) && j < |b.txs| && BlockRecord(l.txs, b, j) && i < |b.txs[j].vin|
    requires InputsBackOk(l, d, v, b, j, i)
    ensures InputsBackOk(l, UndoInput(d, BlockTxOf(b.txs[j]), l.txs[b.txs[j].txid], i), v', b, j, i + 1)
  {
    var t := b.txs[j].txid;
    var c := l.txs[t].inputs[i].coin;
    if c.addr == NoAddr {
      BackSkip(l.txs, v, b, j, i);
      v' := v;
      assert InputsMet(d, l.txs, b, j, i + 1) by {
        InputsMetNext(d, l.txs, b, j, i);
      }
    } else {
      BackReady(l.txs, v, b, j, i);
      var op := b.txs[j].vin[i].value;
      var bt := BlockTxOf(b.txs[j]);
      assert bt.inputs[i] == op;
      assert UndoInputReady(d, l.txs, v, bt, i);
      UndoInputKeeps(d, l.txs, v, bt, i);
      var d' := UndoInput(d, bt, l.txs[t], i);
      v' := UnspendColumn(v, op, t, i, c);
      BackTake(l.txs, v, b, j, i, op, c);
      StoredTake(l.txs, v, d.l.txs, op, t, i, c);
      MetMore(d, d', l.txs, b, j, c);
      assert InputsMet(d', l.txs, b, j, i);
      InputsMetNext(d', l.txs, b, j, i);
    }
  }

  lemma InputsMetNext(d: Undo, txs: TxColumn, b: Block, j: nat, i: nat)
    requires DistinctIds(b) && InputsMet(d, txs, b, j, i) && j < |b.txs| && b.txs[j].txid in txs
             && i < |txs[b.txs[j].txid].inputs|
    requires forall k :: Countable(k) && Hits(txs[b.txs[j].txid].inputs[i].coin, k) ==> SeenBy(d, k, b.txs[j].txid)
    ensures InputsMet(d, txs, b, j, i + 1)
  {
    forall y, x, k | (
        && 0 <= y < |b.txs| && b.txs[y].txid in txs && 0 <= x < |txs[b.txs[y].txid].inputs| && Before(y, x, j, i + 1)
        && Countable(k) && Hits(txs[b.txs[y].txid].inputs[x].coin, k))
      ensures SeenBy(d, k, b.txs[y].txid)
    {
      if !Before(y, x, j, i) { assert y == j && x == i; } else { assert Before(y, x, j, i); }
    }
  }

  lemma InputsBackNextTx(l: Ledger, d: Undo, v: TxColumn, b: Block, j: nat)
    requires BlockOnTop(l.txs, b) && j < |b.txs| && InputsBackOk(l, d, v, b, j, |b.txs[j].vin|)
    ensures InputsBackOk(l, d, v, b, j + 1, 0)
  {
    BackNextTx(l.txs, v, b, j);
    assert InputsMet(d, l.txs, b, j + 1, 0) by {
      forall y, x, k | (
          && 0 <= y < |b.txs| && b.txs[y].txid in l.txs
               && 0 <= x < |l.txs[b.txs[y].txid].inputs| && Before(y, x, j + 1, 0)
          && Countable(k) && Hits(l.txs[b.txs[y].txid].inputs[x].coin, k))
        ensures SeenBy(d, k, b.txs[y].txid)
      {
        assert BlockRecord(l.txs, b, y);
        assert Before(y, x, j, |b.txs[j].vin|);
      }
    }
  }

  lemma InputsBackDone(l: Ledger, b: Block, j: nat) returns (v: TxColumn)
    requires Inv(l) && Stored(l) && BlockOnTop(l.txs, b) && j <= |b.txs|
    ensures InputsBackOk(l, UndoInputsDone(l, BlockTxsOf(b), j), v, b, j, 0)
    decreases j, 0
  {
    if j == 0 {
      v := l.txs;
      InputsBackStart(l, b);
    } else {
      assert BlockRecord(l.txs, b, j - 1);
      v := InputsBack(l, b, j - 1, |b.txs[j - 1].vin|);
      InputsBackNextTx(l, UndoInputsAt(l, BlockTxsOf(b), j - 1, |b.txs[j - 1].vin|), v, b, j - 1);
    }
  }

  lemma InputsBack(l: Ledger, b: Block, j: nat, i: nat) returns (v: TxColumn)
    requires Inv(l) && Stored(l) && BlockOnTop(l.txs, b) && j < |b.txs| && BlockRecord(l.txs, b, j)
             && i <= |b.txs[j].vin|
    ensures InputsBackOk(l, UndoInputsAt(l, BlockTxsOf(b), j, i), v, b, j, i)
    decreases j, i + 1
  {
    hide Inv, Stored, BlockOnTop, InputsBackOk, UndoInput;
    if i == 0 {
      v := InputsBackDone(l, b, j);
    } else {
      var v0 := InputsBack(l, b, j, i - 1);
      v := InputBack(l, UndoInputsAt(l, BlockTxsOf(b), j, i - 1), v0, b, j, i - 1);
    }
  }

  // ---------------------------------------------------------------- outputs taken back

  ghost predicate OutputsBlanked(was: TxAddresses, now: TxAddresses, j': int, j: int, i: int) {
    && |now.outputs| == |was.outputs| && now == was.(outputs := now.outputs)
    && forall x :: 0 <= x < |was.outputs| ==>
         now.outputs[x] == if Before(j', x, j, i)
             && was.outputs[x].coin.addr != NoAddr then NoOutput else was.outputs[x]
  }

  /** `v` is `u` without the outputs of the block before (j, i). */
  ghost predicate GoneShape(u: TxColumn, v: TxColumn, b: Block, j: int, i: int) {
    && v.Keys == u.Keys
    && (forall t :: t in u && !InBlock(b, t, |b.txs|) ==> v[t] == u[t])
    && (forall x :: 0 <= x < |b.txs| && b.txs[x].txid in u ==>
         OutputsBlanked(u[b.txs[x].txid], v[b.txs[x].txid], x, j, i))
  }

  ghost predicate OutputsBackOk(l: Ledger, d: Undo, u: TxColumn, v: TxColumn, b: Block, j: nat, i: nat) {
    && UndoInv(d, l.txs, v) && BackShape(l.txs, u, b, |b.txs|, 0) && GoneShape(u, v, b, j, i)
         && StoredAs(l.txs, u, d.l.txs)
    && SeenInBlock(d, b) && InputsMet(d, l.txs, b, |b.txs|, 0) && OutputsMet(d, l.txs, b, j, i) && SameRows(l, d.l)
  }

  lemma OutputsBackStart(l: Ledger, d: Undo, u: TxColumn, b: Block)
    requires InputsBackOk(l, d, u, b, |b.txs|, 0)
    ensures OutputsBackOk(l, d, u, u, b, 0, 0)
  {
  }

  lemma GoneReady(txs: TxColumn, u: TxColumn, v: TxColumn, b: Block, j: nat, i: nat)
    requires BlockOnTop(txs, b) && j < |b.txs| && BlockRecord(txs, b, j) && i < |b.txs[j].vout|
    requires BackShape(txs, u, b, |b.txs|, 0) && GoneShape(u, v, b, j, i)
    requires txs[b.txs[j].txid].outputs[i].coin.addr != NoAddr
    ensures UndoOutputReady(txs, v, b.txs[j].txid, i)
  {
    var t := b.txs[j].txid;
    assert OutputsFreed(txs[t], u[t], b, t, |b.txs|, 0);
    assert OutputsBlanked(u[t], v[t], j, j, i);
    if !Freed(b, OutPoint(t, i), txs[t].outputs[i], |b.txs|, 0) {
      assert !Taken(b, OutPoint(t, i), |b.txs|, 0);
      assert !txs[t].outputs[i].spent;
    }
  }

  lemma GoneNext(txs: TxColumn, u: TxColumn, v: TxColumn, b: Block, j: nat, i: nat)
    requires BlockOnTop(txs, b) && j < |b.txs| && BlockRecord(txs, b, j) && i < |b.txs[j].vout|
    requires BackShape(txs, u, b, |b.txs|, 0) && GoneShape(u, v, b, j, i)
    ensures var c := txs[b.txs[j].txid].outputs[i].coin;
            GoneShape(u, if c.addr == NoAddr then v else SetOutput(v, b.txs[j].txid, i, NoOutput), b, j, i + 1)
  {
    hide Freed, InputsBlanked, InputsLinked, OutputsFree, StoredAs;
    var t := b.txs[j].txid;
    var c := txs[t].outputs[i].coin;
    var now := if c.addr == NoAddr then v else SetOutput(v, t, i, NoOutput);
    assert InBlock(b, t, |b.txs|);
    assert OutputsFreed(txs[t], u[t], b, t, |b.txs|, 0);
    assert u[t].outputs[i].coin == c;
    forall x | 0 <= x < |b.txs| && b.txs[x].txid in u
      ensures OutputsBlanked(u[b.txs[x].txid], now[b.txs[x].txid], x, j, i + 1)
    {
      assert OutputsBlanked(u[b.txs[x].txid], v[b.txs[x].txid], x, j, i);
      assert x != j ==> b.txs[x].txid != t;
    }
  }

  lemma OutputsMetNext(d: Undo, txs: TxColumn, b: Block, j: nat, i: nat)
    requires DistinctIds(b) && OutputsMet(d, txs, b, j, i) && j < |b.txs| && b.txs[j].txid in txs
             && i < |txs[b.txs[j].txid].outputs|
    requires forall k :: Countable(k) && Hits(txs[b.txs[j].txid].outputs[i].coin, k) ==> SeenBy(d, k, b.txs[j].txid)
    ensures OutputsMet(d, txs, b, j, i + 1)
  {
    forall y, x, k | (
        && 0 <= y < |b.txs| && b.txs[y].txid in txs && 0 <= x < |txs[b.txs[y].txid].outputs| && Before(y, x, j, i + 1)
        && Countable(k) && Hits(txs[b.txs[y].txid].outputs[x].coin, k))
      ensures SeenBy(d, k, b.txs[y].txid)
    {
      if !Before(y, x, j, i) { assert y == j && x == i; } else { assert Before(y, x, j, i); }
    }
  }

  lemma OutputBack(l: Ledger, d: Undo, u: TxColumn, v: TxColumn, b: Block, j: nat, i: nat) returns (v': TxColumn)
    requires BlockOnTop(l.txs, b) && j < |b.txs| && BlockRecord(l.txs, b, j) && i < |b.txs[j].vout|
    requires OutputsBackOk(l, d, u, v, b, j, i)
    ensures OutputsBackOk(l, UndoOutput(d, b.txs[j].txid, l.txs[b.txs[j].txid], i), u, v', b, j, i + 1)
  {
    var t := b.txs[j].txid;
    var c := l.txs[t].outputs[i].coin;
    GoneNext(l.txs, u, v, b, j, i);
    if c.addr == NoAddr {
      v' := v;
      OutputsMetNext(d, l.txs, b, j, i);
    } else {
      GoneReady(l.txs, u, v, b, j, i);
      UndoOutputKeeps(d, l.txs, v, t, i);
      var d' := UndoOutput(d, t, l.txs[t], i);
      v' := SetOutput(v, t, i, NoOutput);
      MetMore(d, d', l.txs, b, j, c);
      assert InputsMet(d', l.txs, b, |b.txs|, 0) && OutputsMet(d', l.txs, b, j, i);
      OutputsMetNext(d', l.txs, b, j, i);
    }
  }

  lemma OutputsBackNextTx(l: Ledger, d: Undo, u: TxColumn, v: TxColumn, b: Block, j: nat)
    requires BlockOnTop(l.txs, b) && j < |b.txs| && OutputsBackOk(l, d, u, v, b, j, |b.txs[j].vout|)
    ensures OutputsBackOk(l, d, u, v, b, j + 1, 0)
  {
    hide UndoInv, SeenInBlock, InputsLinked, OutputsFree, StoredAs, SameRows, InputsMet;
    assert OutputsMet(d, l.txs, b, j + 1, 0) by {
      forall y, x, k | (
          && 0 <= y < |b.txs| && b.txs[y].txid in l.txs
               && 0 <= x < |l.txs[b.txs[y].txid].outputs| && Before(y, x, j + 1, 0)
          && Countable(k) && Hits(l.txs[b.txs[y].txid].outputs[x].coin, k))
        ensures SeenBy(d, k, b.txs[y].txid)
      {
        assert BlockRecord(l.txs, b, y);
        assert Before(y, x, j, |b.txs[j].vout|);
      }
    }
    forall x | 0 <= x < |b.txs| && b.txs[x].txid in u
      ensures OutputsBlanked(u[b.txs[x].txid], v[b.txs[x].txid], x, j + 1, 0)
    {
      assert BlockRecord(l.txs, b, x);
      assert OutputsFreed(l.txs[b.txs[x].txid], u[b.txs[x].txid], b, b.txs[x].txid, |b.txs|, 0);
      assert OutputsBlanked(u[b.txs[x].txid], v[b.txs[x].txid], x, j, |b.txs[j].vout|);
    }
  }

  lemma OutputsBackDone(l: Ledger, b: Block, j: nat) returns (u: TxColumn, v: TxColumn)
    requires Inv(l) && Stored(l) && BlockOnTop(l.txs, b) && j <= |b.txs|
    ensures OutputsBackOk(l, UndoOutputsDone(l, BlockTxsOf(b), j), u, v, b, j, 0)
    decreases j, 0
  {
    if j == 0 {
      u := InputsBackDone(l, b, |b.txs|);
      v := u;
      OutputsBackStart(l, UndoInputsDone(l, BlockTxsOf(b), |b.txs|), u, b);
    } else {
      assert BlockRecord(l.txs, b, j - 1);
      u, v := OutputsBack(l, b, j - 1, |b.txs[j - 1].vout|);
      OutputsBackNextTx(l, UndoOutputsAt(l, BlockTxsOf(b), j - 1, |b.txs[j - 1].vout|), u, v, b, j - 1);
    }
  }

  lemma OutputsBack(l: Ledger, b: Block, j: nat, i: nat) returns (u: TxColumn, v: TxColumn)
    requires Inv(l) && Stored(l) && BlockOnTop(l.txs, b) && j < |b.txs| && BlockRecord(l.txs, b, j)
             && i <= |b.txs[j].vout|
    ensures OutputsBackOk(l, UndoOutputsAt(l, BlockTxsOf(b), j, i), u, v, b, j, i)
    decreases j, i + 1
  {
    hide OutputsBackOk, Inv, Stored, UndoOutput, InputsLinked, OutputsFree;
    if i == 0 {
      u, v := OutputsBackDone(l, b, j);
    } else {
      var v0;
      u, v0 := OutputsBack(l, b, j, i - 1);
      v := OutputBack(l, UndoOutputsAt(l, BlockTxsOf(b), j, i - 1), u, v0, b, j, i - 1);
    }
  }
}
