// The four kinds of steps of connecting a block, each keeping the invariant.
module LedgerSteps {
  import opened Types
  import opened UtxoIndex
  import opened LedgerModel
  import opened LedgerInvariant
  import opened LedgerConnect

  // ---------------------------------------------------------------- blank records

  lemma {:induction false} BlankOutputs(outs: seq<TxOutput>, k: Key, a: AddrDesc)
    requires forall i :: 0 <= i < |outs| ==> outs[i] == NoOutput
    ensures UnspentIn(outs, k) == 0 && !OutputsHit(outs, k)
    ensures Indexable(a) ==> OutputIndexes(outs, a) == []
  {
    if outs != [] { BlankOutputs(outs[..|outs| - 1], k, a); }
  }

  lemma {:induction false} BlankInputs(ins: seq<TxInput>, k: Key, a: AddrDesc)
    requires forall i :: 0 <= i < |ins| ==> ins[i] == NoInput
    ensures SpentIn(ins, k) == 0 && !InputsHit(ins, k)
    ensures Indexable(a) ==> InputIndexes(ins, a) == []
  {
    if ins != [] { BlankInputs(ins[..|ins| - 1], k, a); }
  }

  lemma BlankIsNeutral(was: TxColumn, t: TxId, ta: TxAddresses)
    requires t !in was && ta.inputs == [] && forall i :: 0 <= i < |ta.outputs| ==> ta.outputs[i] == NoOutput
    ensures Neutral(was, was[t := ta])
  {
    var now := was[t := ta];
    forall k: Key
      ensures UnspentTotal(now, k) == UnspentTotal(was, k) && SpentTotal(now, k) == SpentTotal(was, k) && !TxHits(ta, k)
    {
      BlankOutputs(ta.outputs, k, NoAddr);
      UnspentTotalUpdate(was, t, ta, k);
      SpentTotalUpdate(was, t, ta, k);
    }
  }

  lemma NewTxKeeps(w: Work, b: Block, tx: Tx)
    requires WorkInv(w, b.height) && tx.txid !in w.l.txs
    ensures WorkInv(NewTx(w, b, tx), b.height) && Tail(NewTx(w, b, tx).l, tx.txid)
  {
    var was, t := w.l.txs, tx.txid;
    var ta := TxAddresses(b.height, tx.version, [], seq(|tx.vout|, i => NoOutput));
    var now := was[t := ta];
    BlankIsNeutral(was, t, ta);
    hide Neutral, Inv, MovedOk;
    NeutralKeeps(w, now, b.height);
    forall a | Indexable(a) ensures TailOf(Bal(w.l, a).utxos.slots, t) {
      assert ListOk(Bal(w.l, a).utxos, was, a);
    }
  }

  lemma NewInputsNeutral(was: TxColumn, t: TxId, ins: seq<TxInput>)
    requires t in was && was[t].inputs == [] && forall i :: 0 <= i < |ins| ==> ins[i] == NoInput
    ensures Neutral(was, was[t := was[t].(inputs := ins)])
  {
    hide UnspentTotal, SpentTotal, InputIndexes, OutputIndexes;
    var ta := was[t].(inputs := ins);
    var now := was[t := ta];
    forall k: Key
      ensures UnspentTotal(now, k) == UnspentTotal(was, k) && SpentTotal(now, k) == SpentTotal(was, k)
      ensures TxHits(ta, k) <==> TxHits(was[t], k)
    {
      BlankInputs(ins, k, NoAddr);
      UnspentTotalUpdate(was, t, ta, k);
      SpentTotalUpdate(was, t, ta, k);
    }
    forall a | Indexable(a) ensures Indexes(now[t], a) == Indexes(was[t], a) {
      BlankInputs(ins, AddrKey(a), a);
      BlankInputs([], AddrKey(a), a);
    }
  }

  lemma NewInputsKeeps(w: Work, b: Block, tx: Tx)
    requires WorkInv(w, b.height) && tx.txid in w.l.txs && w.l.txs[tx.txid].inputs == []
    ensures WorkInv(NewInputs(w, tx), b.height)
  {
    hide WorkInv, Neutral;
    NewInputsNeutral(w.l.txs, tx.txid, seq(|tx.vin|, i => NoInput));
    NeutralKeeps(w, NewInputs(w, tx).l.txs, b.height);
  }

  // ---------------------------------------------------------------- outputs

  ghost predicate OutputReady(txs: TxColumn, b: Block, tx: Tx, i: nat) {
    && i < |tx.vout| && tx.txid in txs
    && var ta := txs[tx.txid];
       && ta.height == b.height && ta.inputs == [] && |ta.outputs| == |tx.vout|
       && forall x :: i <= x < |ta.outputs| ==> ta.outputs[x] == NoOutput
  }

  /** A coin no index cares about. */
  lemma UnindexedNeutral(was: TxColumn, now: TxColumn, t: TxId, c: Coin, index: int)
    requires CoinAdded(was, now, t, c) && IndexAdded(was, now, t, c, index) && !Indexable(c.addr)
    requires forall k: Key {:trigger UnspentTotal(now, k)} :: UnspentTotal(now, k) == UnspentTotal(was, k)
    requires forall k: Key {:trigger SpentTotal(now, k)} :: SpentTotal(now, k) == SpentTotal(was, k)
    requires forall a, u {:trigger IsUnspent(now, a, u)} :: Indexable(a) ==>
             (IsUnspent(now, a, u) <==> IsUnspent(was, a, u))
    ensures Neutral(was, now)
  {
  }

  lemma OutputNeutral(txs: TxColumn, b: Block, tx: Tx, i: nat)
    requires OutputReady(txs, b, tx, i) && !Indexable(CoinOf(tx.vout[i]).addr)
    ensures Neutral(txs, SetOutput(txs, tx.txid, i, TxOutput(CoinOf(tx.vout[i]), false, None)))
  {
    var t, c := tx.txid, CoinOf(tx.vout[i]);
    var now := SetOutput(txs, t, i, TxOutput(c, false, None));
    OutputAdded(txs, t, i, c);
    forall k: Key ensures UnspentTotal(now, k) == UnspentTotal(txs, k) && SpentTotal(now, k) == SpentTotal(txs, k) {
      OutputAddedTotals(txs, t, i, c, k);
    }
    forall a, u | Indexable(a) ensures IsUnspent(now, a, u) <==> IsUnspent(txs, a, u) {
      OutputUnspent(txs, t, i, c, a, u);
    }
    UnindexedNeutral(txs, now, t, c, i);
  }

  lemma OutputLists(l: Ledger, l': Ledger, b: Block, tx: Tx, i: nat)
    requires ListsOk(l, l.txs) && OutputReady(l.txs, b, tx, i) && Tail(l, tx.txid)
    requires var c := CoinOf(tx.vout[i]);
             && Indexable(c.addr)
             && l'.txs == SetOutput(l.txs, tx.txid, i, TxOutput(c, false, None))
             && Bal(l', c.addr).utxos == Append(Bal(l, c.addr).utxos, Utxo(tx.txid, i, b.height, c.value, c.asset))
             && forall a :: a != c.addr ==> Bal(l', a) == Bal(l, a)
    ensures ListsOk(l', l'.txs) && Tail(l', tx.txid)
  {
    var t, c := tx.txid, CoinOf(tx.vout[i]);
    forall a | Indexable(a) ensures ListOk(Bal(l', a).utxos, l'.txs, a) && TailOf(Bal(l', a).utxos.slots, t) {
      assert ListOk(Bal(l, a).utxos, l.txs, a) && TailOf(Bal(l, a).utxos.slots, t);
      if a == c.addr {
        ReceiveList(Bal(l, a).utxos, l.txs, t, i, c);
      } else {
        forall u ensures IsUnspent(l'.txs, a, u) <==> IsUnspent(l.txs, a, u) {
          OutputUnspent(l.txs, t, i, c, a, u);
        }
      }
    }
  }

  lemma AddOutputKeeps(w: Work, b: Block, tx: Tx, i: nat)
    requires WorkInv(w, b.height) && OutputReady(w.l.txs, b, tx, i) && Tail(w.l, tx.txid)
    ensures var w' := AddOutput(w, b, tx, i);
            && WorkInv(w', b.height) && Tail(w'.l, tx.txid)
            && w'.l.txs == SetOutput(w.l.txs, tx.txid, i, TxOutput(CoinOf(tx.vout[i]), false, None))
            && w'.l.blockTxs == w.l.blockTxs && w'.l.heights == w.l.heights
  {
    var t, c, h := tx.txid, CoinOf(tx.vout[i]), b.height;
    var was := w.l.txs;
    var now := SetOutput(was, t, i, TxOutput(c, false, None));
    if !Indexable(c.addr) {
      OutputNeutral(was, b, tx, i);
      NeutralKeeps(w, now, h);
      assert Tail(w.l.(txs := now), t) by {
        forall a | Indexable(a) ensures TailOf(Bal(w.l.(txs := now), a).utxos.slots, t) {
          assert TailOf(Bal(w.l, a).utxos.slots, t);
        }
      }
    } else {
      ReceiveIndexed(w, b, tx, i);
    }
  }

  lemma ReceiveIndexed(w: Work, b: Block, tx: Tx, i: nat)
    requires WorkInv(w, b.height) && OutputReady(w.l.txs, b, tx, i) && Tail(w.l, tx.txid)
             && Indexable(CoinOf(tx.vout[i]).addr)
    ensures var c := CoinOf(tx.vout[i]);
            var now := SetOutput(w.l.txs, tx.txid, i, TxOutput(c, false, None));
            var w' := Receive(w.(l := w.l.(txs := now)), b.height, tx.txid, tx.version, c, i);
            && WorkInv(w', b.height) && Tail(w'.l, tx.txid) && w'.l.txs == now
            && w'.l.blockTxs == w.l.blockTxs && w'.l.heights == w.l.heights
  {
    var t, c, h := tx.txid, CoinOf(tx.vout[i]), b.height;
    var was := w.l.txs;
    var now := SetOutput(was, t, i, TxOutput(c, false, None));
    var mid := w.(l := w.l.(txs := now));
    var w' := Receive(mid, h, t, tx.version, c, i);
    ReceiveEffect(mid, h, t, tx.version, c, i);
    RecordedSame(w, mid, w', h, t, c, i);
    assert CountsOk(w'.l, now) && RowsOk(w'.l, now) && AssetRowsOk(w'.l, now) && MovedOk(w'.moved, now, h)
        && PresenceOk(w'.l) by {
      OutputAdded(was, t, i, c);
      CoinKeeps(w, w', was, now, h, t, c, i);
    }
    assert AmountsOk(w'.l, now) by {
      ReceiveAmounts(w, mid, w', t, i, c);
    }
    OutputLists(w.l, w'.l, b, tx, i);
  }

  lemma ReceiveAmounts(w: Work, mid: Work, w': Work, t: TxId, i: nat, c: Coin)
    requires AmountsOk(w.l, w.l.txs) && SameButTxs(w, mid)
    requires t in w.l.txs && i < |w.l.txs[t].outputs| && w.l.txs[t].outputs[i] == NoOutput
    requires mid.l.txs == SetOutput(w.l.txs, t, i, TxOutput(c, false, None))
    requires forall k: Key {:trigger BalanceOf(w'.l, k)} {:trigger SentOf(w'.l, k)} :: !k.AssetKey? ==>
               BalanceOf(w'.l, k) == BalanceOf(mid.l, k) + Amount(c, k) && SentOf(w'.l, k) == SentOf(mid.l, k)
    ensures AmountsOk(w'.l, mid.l.txs)
  {
    var now := mid.l.txs;
    forall k: Key | !k.AssetKey? && Indexable(k.addr)
      ensures BalanceOf(w'.l, k) == UnspentTotal(now, k) && SentOf(w'.l, k) == SpentTotal(now, k)
    {
      OutputAddedTotals(w.l.txs, t, i, c, k);
      assert BalanceOf(mid.l, k) == BalanceOf(w.l, k) && SentOf(mid.l, k) == SentOf(w.l, k);
    }
  }

  // ---------------------------------------------------------------- the part common to outputs and inputs

  ghost predicate SameButTxs(w: Work, mid: Work) { mid == w.(l := w.l.(txs := mid.l.txs)) }

  /** Recorded does not look at the transactions before the step. */
  ghost predicate RecordedFrom(w: Work, w': Work, now: TxColumn, h: nat, t: TxId, c: Coin, index: int) {
    Recorded(w.(l := w.l.(txs := now)), w', h, t, c, index)
  }

  lemma RecordedSame(w: Work, mid: Work, w': Work, h: nat, t: TxId, c: Coin, index: int)
    requires SameButTxs(w, mid) && Recorded(mid, w', h, t, c, index)
    ensures RecordedFrom(w, w', mid.l.txs, h, t, c, index)
    ensures w'.l.blockTxs == w.l.blockTxs && w'.l.heights == w.l.heights
    ensures forall a :: a != c.addr ==> Bal(w'.l, a) == Bal(w.l, a)
  {
    assert forall a :: Bal(mid.l, a) == Bal(w.l, a);
  }

  /** Counters, history rows and presence after one more coin. */
  lemma CoinKeeps(w: Work, w': Work, was: TxColumn, now: TxColumn, h: nat, t: TxId, c: Coin, index: int)
    requires WorkInv(w, h) && w.l.txs == was && Indexable(c.addr)
    requires CoinAdded(was, now, t, c) && IndexAdded(was, now, t, c, index) && was[t].height == h
    requires RecordedFrom(w, w', now, h, t, c, index)
    ensures w'.l.txs == now && CountsOk(w'.l, now) && RowsOk(w'.l, now) && AssetRowsOk(w'.l, now)
    ensures MovedOk(w'.moved, now, h) && PresenceOk(w'.l)
  {
    var mid := w.(l := w.l.(txs := now));
    SameColumns(w.l, mid.l, was);
    CountsStep(mid, w', was, now, h, t, c, index);
    RowsStep(mid, w', was, now, h, t, c, index);
    AssetRowsStep(mid, w', was, now, h, t, c, index);
    assert TxHits(now[t], AddrKey(c.addr));
    PresenceStep(mid, w', h, t, c, index, now);
  }

  /** The columns checked against `txs` do not include the txAddresses column itself. */
  lemma SameColumns(l: Ledger, l': Ledger, txs: TxColumn)
    requires l' == l.(txs := l'.txs)
    requires CountsOk(l, txs) && RowsOk(l, txs) && AssetRowsOk(l, txs) && PresenceOk(l)
    ensures CountsOk(l', txs) && RowsOk(l', txs) && AssetRowsOk(l', txs) && PresenceOk(l')
  {
    forall k | Countable(k) ensures CountOf(l', k) == |Touching(txs, k)| { assert CountOf(l', k) == CountOf(l, k); }
    forall k: AddrRow | Indexable(k.addr) ensures RowOk(RowOf(l', k), txs, k.addr, k.height) {
      assert RowOf(l', k) == RowOf(l, k);
    }
    forall k, t
      ensures AssetListed(AssetRowOf(l', k), t)
              <==> t in txs && txs[t].height == k.height && TxHits(txs[t], AssetKey(k.guid))
    {
      assert AssetRowOf(l', k) == AssetRowOf(l, k);
    }
  }

  // ---------------------------------------------------------------- inputs

  /** Input `i` is the next blank one; if it names an output that is known and has a descriptor, that output is
      unspent. */
  ghost predicate InputReady(l: Ledger, b: Block, tx: Tx, i: nat) {
    && i < |tx.vin| && tx.txid in l.txs
    && (tx.vin[i].Some? && Source(l, tx.vin[i].value).Some? ==> Spendable(Source(l, tx.vin[i].value).value))
    && var ta := l.txs[tx.txid];
       && ta.height == b.height && |ta.inputs| == |tx.vin|
       && forall x :: i <= x < |ta.inputs| ==> ta.inputs[x] == NoInput
  }

  predicate Spendable(o: TxOutput) { o.spent ==> o.coin.addr == NoAddr }

  function SpentOutput(o: TxOutput, ext: bool, b: Block, tx: Tx, i: nat): TxOutput {
    TxOutput(o.coin, true, if ext then Some(SpendRef(tx.txid, i, b.height)) else o.spender)
  }

  function FilledInput(o: TxOutput, ext: bool, op: OutPoint): TxInput {
    TxInput(o.coin, if ext then Some(op) else None)
  }

  /** The txAddresses column after input `i` of `tx`. */
  function InputColumn(l: Ledger, ext: bool, b: Block, tx: Tx, i: nat): TxColumn
    requires i < |tx.vin|
  {
    if tx.vin[i].None? || Source(l, tx.vin[i].value).None? then l.txs
    else
      var op := tx.vin[i].value;
      var o := Source(l, op).value;
      SpendColumn(l.txs, op, tx.txid, i, SpentOutput(o, ext, b, tx, i), FilledInput(o, ext, op))
  }

  lemma InputNeutral(txs: TxColumn, op: OutPoint, t: TxId, i: nat, o: TxOutput, input: TxInput)
    requires SpendReady(txs, op, t, i, o, input) && !Indexable(o.coin.addr)
    ensures Neutral(txs, SpendColumn(txs, op, t, i, o, input))
  {
    var now := SpendColumn(txs, op, t, i, o, input);
    SpendAdded(txs, op, t, i, o, input);
    forall k: Key ensures UnspentTotal(now, k) == UnspentTotal(txs, k) && SpentTotal(now, k) == SpentTotal(txs, k) {
      SpendTotals(txs, op, t, i, o, input, k);
    }
    forall a, u | Indexable(a) ensures IsUnspent(now, a, u) <==> IsUnspent(txs, a, u) {
      SpendUnspent(txs, op, t, i, o, input, a, u);
    }
    UnindexedNeutral(txs, now, t, o.coin, -1 - i);
  }

  lemma InputLists(l: Ledger, l': Ledger, op: OutPoint, t: TxId, i: nat, o: TxOutput, input: TxInput)
    requires ListsOk(l, l.txs) && SpendReady(l.txs, op, t, i, o, input) && Indexable(o.coin.addr)
    requires l'.txs == SpendColumn(l.txs, op, t, i, o, input)
    requires Bal(l', o.coin.addr).utxos == MarkSpent(Bal(l, o.coin.addr).utxos, op.txid, op.vout)
    requires forall a :: a != o.coin.addr ==> Bal(l', a) == Bal(l, a)
    ensures ListsOk(l', l'.txs)
  {
    forall a | Indexable(a) ensures ListOk(Bal(l', a).utxos, l'.txs, a) {
      assert ListOk(Bal(l, a).utxos, l.txs, a);
      if a == o.coin.addr {
        SpendList(Bal(l, a).utxos, l.txs, op, t, i, o, input);
      } else {
        forall u ensures IsUnspent(l'.txs, a, u) <==> IsUnspent(l.txs, a, u) {
          SpendUnspent(l.txs, op, t, i, o, input, a, u);
        }
      }
    }
  }

  /** Spending a known unspent output keeps the invariant; no amount drops below zero on the way. */
  lemma SpendInputKeeps(w: Work, ext: bool, b: Block, tx: Tx, i: nat)
    requires WorkInv(w, b.height) && InputReady(w.l, b, tx, i)
    ensures var w' := SpendInput(w, ext, b, tx, i);
            && WorkInv(w', b.height)
            && w'.l.txs == InputColumn(w.l, ext, b, tx, i)
            && w'.l.blockTxs == w.l.blockTxs && w'.l.heights == w.l.heights
  {
    if tx.vin[i].None? || Source(w.l, tx.vin[i].value).None? { return; }
    var t, op, h := tx.txid, tx.vin[i].value, b.height;
    var was := w.l.txs;
    var o := Source(w.l, op).value;
    var o', input := SpentOutput(o, ext, b, tx, i), FilledInput(o, ext, op);
    var now := SpendColumn(was, op, t, i, o', input);
    assert SpendReady(was, op, t, i, o', input);
    if !Indexable(o.coin.addr) {
      InputNeutral(was, op, t, i, o', input);
      NeutralKeeps(w, now, h);
    } else {
      SpendIndexed(w, op, tx, i, o', input, h);
    }
  }

  lemma SpendIndexed(w: Work, op: OutPoint, tx: Tx, i: nat, o: TxOutput, input: TxInput, h: nat)
    requires WorkInv(w, h) && SpendReady(w.l.txs, op, tx.txid, i, o, input) && Indexable(o.coin.addr)
    requires w.l.txs[tx.txid].height == h
    ensures var now := SpendColumn(w.l.txs, op, tx.txid, i, o, input);
            var w' := Spend(w.(l := w.l.(txs := now)), h, tx.txid, tx.version, o.coin, op, i);
            WorkInv(w', h) && w'.l.txs == now && w'.l.blockTxs == w.l.blockTxs && w'.l.heights == w.l.heights
  {
    hide Spend, CountsOk, RowsOk, AssetRowsOk, MovedOk, PresenceOk, AmountsOk, ListsOk;
    var was, t, c := w.l.txs, tx.txid, o.coin;
    var now := SpendColumn(was, op, t, i, o, input);
    var mid := w.(l := w.l.(txs := now));
    var w' := Spend(mid, h, t, tx.version, c, op, i);
    SpendCovered(w, mid, op, t, i, o, input);
    SpendEffect(mid, h, t, tx.version, c, op, i);
    RecordedSame(w, mid, w', h, t, c, -1 - i);
    assert CountsOk(w'.l, now) && RowsOk(w'.l, now) && AssetRowsOk(w'.l, now) && MovedOk(w'.moved, now, h)
        && PresenceOk(w'.l) by {
      SpendAdded(was, op, t, i, o, input);
      CoinKeeps(w, w', was, now, h, t, c, -1 - i);
    }
    assert AmountsOk(w'.l, now) by {
      SpendAmounts(w, mid, w', op, t, i, o, input);
    }
    InputLists(w.l, w'.l, op, t, i, o, input);
  }

  /** Every amount the spent output is taken from is at least as large as the output. */
  lemma SpendCovered(w: Work, mid: Work, op: OutPoint, t: TxId, i: nat, o: TxOutput, input: TxInput)
    requires AmountsOk(w.l, w.l.txs) && SameButTxs(w, mid) && SpendReady(w.l.txs, op, t, i, o, input)
    ensures forall k: Key :: !k.AssetKey? && Hits(o.coin, k) ==> BalanceOf(mid.l, k) >= Amount(o.coin, k)
  {
    forall k: Key | !k.AssetKey? && Hits(o.coin, k) ensures BalanceOf(mid.l, k) >= Amount(o.coin, k) {
      assert BalanceOf(mid.l, k) == BalanceOf(w.l, k);
      SpendTotals(w.l.txs, op, t, i, o, input, k);
    }
  }

  lemma SpendAmounts(w: Work, mid: Work, w': Work, op: OutPoint, t: TxId, i: nat, o: TxOutput, input: TxInput)
    requires AmountsOk(w.l, w.l.txs) && SameButTxs(w, mid) && SpendReady(w.l.txs, op, t, i, o, input)
    requires mid.l.txs == SpendColumn(w.l.txs, op, t, i, o, input)
    requires forall k: Key {:trigger BalanceOf(w'.l, k)} {:trigger SentOf(w'.l, k)} :: !k.AssetKey? ==>
               && BalanceOf(w'.l, k) == BalanceOf(mid.l, k) - Amount(o.coin, k)
               && SentOf(w'.l, k) == SentOf(mid.l, k) + Amount(o.coin, k)
    ensures AmountsOk(w'.l, mid.l.txs)
  {
    var now := mid.l.txs;
    forall k: Key | !k.AssetKey? && Indexable(k.addr)
      ensures BalanceOf(w'.l, k) == UnspentTotal(now, k) && SentOf(w'.l, k) == SpentTotal(now, k)
    {
      SpendTotals(w.l.txs, op, t, i, o, input, k);
      assert BalanceOf(mid.l, k) == BalanceOf(w.l, k) && SentOf(mid.l, k) == SentOf(w.l, k);
    }
  }
}
