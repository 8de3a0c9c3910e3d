// Connecting a whole valid block: the invariant holds again, and the txAddresses column
// changes exactly by the block.
module LedgerBlock {
  import opened Types
  import opened LedgerModel
  import opened LedgerInvariant
  import opened LedgerConnect
  import opened LedgerSteps

  // ---------------------------------------------------------------- valid blocks

  ghost predicate InBlock(b: Block, t: TxId, n: nat) {
    exists j :: 0 <= j < n && j < |b.txs| && b.txs[j].txid == t
  }

  ghost predicate FreshTxids(txs: TxColumn, b: Block) {
    && (forall j :: 0 <= j < |b.txs| ==> b.txs[j].txid !in txs)
    && (forall j, k :: 0 <= j < k < |b.txs| ==> b.txs[j].txid != b.txs[k].txid)
  }

  /** The output an input names is unspent, if the index knows it and it has a descriptor. */
  ghost predicate FreeOutput(txs: TxColumn, op: OutPoint) {
    op.txid in txs && op.vout < |txs[op.txid].outputs| ==> Spendable(txs[op.txid].outputs[op.vout])
  }

  ghost predicate FreeInputs(txs: TxColumn, b: Block) {
    forall j, i :: 0 <= j < |b.txs| && 0 <= i < |b.txs[j].vin| && b.txs[j].vin[i].Some? ==>
                     FreeOutput(txs, b.txs[j].vin[i].value)
  }

  /** Input `i` of transaction `j` takes the output `op`. */
  ghost predicate Takes(b: Block, j: int, i: int, op: OutPoint) {
    0 <= j < |b.txs| && 0 <= i < |b.txs[j].vin| && b.txs[j].vin[i] == Some(op)
  }

  ghost predicate NoDoubleSpend(b: Block) {
    forall op, j, i, j', i' :: Takes(b, j, i, op) && Takes(b, j', i', op) ==> j == j' && i == i'
  }

  ghost predicate NewHeight(txs: TxColumn, h: nat) { forall t :: t in txs ==> txs[t].height < h }

  ghost predicate ValidBlock(txs: TxColumn, b: Block) {
    FreshTxids(txs, b) && FreeInputs(txs, b) && NoDoubleSpend(b) && NewHeight(txs, b.height)
  }

  // ---------------------------------------------------------------- the column after the outputs

  function OutputsOf(tx: Tx, i: nat): seq<TxOutput> {
    seq(|tx.vout|, x requires 0 <= x < |tx.vout| => if x < i
        then TxOutput(CoinOf(tx.vout[x]), false, None) else NoOutput)
  }

  /** The record of `tx` with `i` outputs filled in. */
  function Record(b: Block, tx: Tx, i: nat): TxAddresses {
    TxAddresses(b.height, tx.version, [], OutputsOf(tx, i))
  }

  ghost predicate OutputShape(was: TxColumn, now: TxColumn, b: Block, n: nat) {
    && (forall t :: t in now <==> t in was || InBlock(b, t, n))
    && (forall t :: t in was ==> now[t] == was[t])
  }

  ghost predicate RecordsDone(now: TxColumn, b: Block, n: nat) {
    forall j ::
        0 <= j < n && j < |b.txs| ==> b.txs[j].txid in now && now[b.txs[j].txid] == Record(b, b.txs[j], |b.txs[j].vout|)
  }

  ghost predicate Untouched(l: Ledger, l': Ledger) { l'.blockTxs == l.blockTxs && l'.heights == l.heights }

  ghost predicate OutputsDoneOk(l: Ledger, w: Work, b: Block, j: nat) {
    && WorkInv(w, b.height) && Untouched(l, w.l)
    && OutputShape(l.txs, w.l.txs, b, j) && RecordsDone(w.l.txs, b, j)
  }

  ghost predicate OutputsAtOk(l: Ledger, w: Work, b: Block, j: nat, i: nat)
    requires j < |b.txs|
  {
    && WorkInv(w, b.height) && Untouched(l, w.l) && Tail(w.l, b.txs[j].txid)
    && OutputShape(l.txs, w.l.txs, b, j + 1) && RecordsDone(w.l.txs, b, j)
    && b.txs[j].txid in w.l.txs && w.l.txs[b.txs[j].txid] == Record(b, b.txs[j], i)
  }

  lemma ShapeOfNew(was: TxColumn, now: TxColumn, b: Block, j: nat, r: TxAddresses)
    requires OutputShape(was, now, b, j) && RecordsDone(now, b, j) && j < |b.txs| && b.txs[j].txid !in now
    ensures OutputShape(was, now[b.txs[j].txid := r], b, j + 1) && RecordsDone(now[b.txs[j].txid := r], b, j)
  {
    forall t ensures InBlock(b, t, j + 1) <==> InBlock(b, t, j) || t == b.txs[j].txid {
      if InBlock(b, t, j + 1) {
        var k :| 0 <= k < j + 1 && b.txs[k].txid == t;
      }
    }
  }

  lemma FirstOutput(l: Ledger, w: Work, b: Block, j: nat)
    requires FreshTxids(l.txs, b) && j < |b.txs| && OutputsDoneOk(l, w, b, j)
    ensures OutputsAtOk(l, NewTx(w, b, b.txs[j]), b, j, 0)
  {
    var tx := b.txs[j];
    assert !InBlock(b, tx.txid, j);
    var r := TxAddresses(b.height, tx.version, [], seq(|tx.vout|, _ => NoOutput));
    assert r == Record(b, tx, 0) by {
      assert r.outputs == OutputsOf(tx, 0);
    }
    ShapeOfNew(l.txs, w.l.txs, b, j, Record(b, tx, 0));
    assert NewTx(w, b, tx).l.txs == w.l.txs[tx.txid := Record(b, tx, 0)];
    NewTxKeeps(w, b, tx);
  }

  lemma NextOutputColumn(was: TxColumn, now: TxColumn, b: Block, j: nat, i: nat)
    requires FreshTxids(was, b) && j < |b.txs| && i < |b.txs[j].vout|
    requires OutputShape(was, now, b, j + 1) && RecordsDone(now, b, j)
    requires b.txs[j].txid in now && now[b.txs[j].txid] == Record(b, b.txs[j], i)
    ensures OutputReady(now, b, b.txs[j], i)
    ensures var next := SetOutput(now, b.txs[j].txid, i, TxOutput(CoinOf(b.txs[j].vout[i]), false, None));
            && OutputShape(was, next, b, j + 1) && RecordsDone(next, b, j)
            && next[b.txs[j].txid] == Record(b, b.txs[j], i + 1)
  {
    var tx := b.txs[j];
    assert OutputsOf(tx, i)[i := TxOutput(CoinOf(tx.vout[i]), false, None)] == OutputsOf(tx, i + 1);
  }

  lemma NextOutput(l: Ledger, w: Work, b: Block, j: nat, i: nat)
    requires FreshTxids(l.txs, b) && j < |b.txs| && i < |b.txs[j].vout| && OutputsAtOk(l, w, b, j, i)
    ensures OutputsAtOk(l, AddOutput(w, b, b.txs[j], i), b, j, i + 1)
  {
    NextOutputColumn(l.txs, w.l.txs, b, j, i);
    AddOutputKeeps(w, b, b.txs[j], i);
  }

  lemma LastOutput(l: Ledger, w: Work, b: Block, j: nat)
    requires j < |b.txs| && OutputsAtOk(l, w, b, j, |b.txs[j].vout|)
    ensures OutputsDoneOk(l, w, b, j + 1)
  {
  }

  lemma OutputsPhaseDone(l: Ledger, b: Block, j: nat)
    requires Inv(l) && ValidBlock(l.txs, b) && j <= |b.txs|
    ensures OutputsDoneOk(l, OutputsDone(l, b, j), b, j)
    decreases j, 0
  {
    hide OutputsAtOk, OutputsDoneOk, Inv, ValidBlock;
    if j == 0 {
      OutputsStart(l, b);
    } else {
      OutputsPhase(l, b, j - 1, |b.txs[j - 1].vout|);
      LastOutput(l, OutputsAt(l, b, j - 1, |b.txs[j - 1].vout|), b, j - 1);
    }
  }

  lemma OutputsStart(l: Ledger, b: Block)
    requires Inv(l) && ValidBlock(l.txs, b)
    ensures OutputsDoneOk(l, Work(l, {}), b, 0)
  {
    hide Inv, FreeInputs, NoDoubleSpend;
  }

  lemma OutputsPhase(l: Ledger, b: Block, j: nat, i: nat)
    requires Inv(l) && ValidBlock(l.txs, b) && j < |b.txs| && i <= |b.txs[j].vout|
    ensures OutputsAtOk(l, OutputsAt(l, b, j, i), b, j, i)
    decreases j, i + 1
  {
    hide OutputsAtOk, OutputsDoneOk, Inv, FreeInputs, NoDoubleSpend, NewHeight, FreshTxids, AddOutput, NewTx;
    if i == 0 {
      OutputsPhaseDone(l, b, j);
      FirstOutput(l, OutputsDone(l, b, j), b, j);
    } else {
      OutputsPhase(l, b, j, i - 1);
      NextOutput(l, OutputsAt(l, b, j, i - 1), b, j, i - 1);
    }
  }

  // ---------------------------------------------------------------- the column after the inputs

  /** Inputs are worked off transaction by transaction. */
  predicate Before(j': int, i': int, j: int, i: int) { j' < j || (j' == j && i' < i) }

  ghost predicate Taken(b: Block, op: OutPoint, j: int, i: int) {
    exists j', i' :: Takes(b, j', i', op) && Before(j', i', j, i)
  }

  /** An output after the inputs before (j, i): as it was, or spent by the one input that takes it. */
  ghost predicate OutputKept(o: TxOutput, o': TxOutput, b: Block, ext: bool, op: OutPoint, j: int, i: int) {
    && (!Taken(b, op, j, i) ==> o' == o)
    && (forall j', i' :: Takes(b, j', i', op) && Before(j', i', j, i) ==> o' == SpentOutput(o, ext, b, b.txs[j'], i'))
  }

  function SourceIn(txs: TxColumn, op: OutPoint): Option<TxOutput> {
    if op.txid in txs && op.vout < |txs[op.txid].outputs| then Some(txs[op.txid].outputs[op.vout]) else None
  }

  /** The input record for a reference, given the outputs of `txs`. */
  function InputFor(txs: TxColumn, vin: Option<OutPoint>, ext: bool): TxInput {
    if vin.None? || SourceIn(txs, vin.value).None? then NoInput
    else FilledInput(SourceIn(txs, vin.value).value, ext, vin.value)
  }

  /** Number of input places of transaction `j'` at the cursor (j, i), where i == -1 is before their allocation. */
  function InputPlaces(b: Block, j': nat, j: int, i: int): nat
    requires j' < |b.txs|
  {
    if Before(j', -1, j, i) then |b.txs[j'].vin| else 0
  }

  ghost predicate InputsFilled(base: TxColumn, ta: TxAddresses, b: Block, ext: bool, j': nat, j: int, i: int)
    requires j' < |b.txs|
  {
    && |ta.inputs| == InputPlaces(b, j', j, i)
    && forall x :: 0 <= x < |ta.inputs| ==>
         ta.inputs[x] == if Before(j', x, j, i) then InputFor(base, b.txs[j'].vin[x], ext) else NoInput
  }

  ghost predicate Kept(base: TxAddresses, ta: TxAddresses, b: Block, ext: bool, t: TxId, j: int, i: int) {
    && ta.height == base.height && ta.version == base.version && |ta.outputs| == |base.outputs|
    && forall v :: 0 <= v < |ta.outputs| ==> OutputKept(base.outputs[v], ta.outputs[v], b, ext, OutPoint(t, v), j, i)
  }

  /** The column at the cursor (j, i) of the inputs, in terms of the column `base` after all outputs. */
  ghost predicate InputShape(base: TxColumn, now: TxColumn, b: Block, ext: bool, j: int, i: int) {
    && now.Keys == base.Keys
    && (forall t :: t in base ==> Kept(base[t], now[t], b, ext, t, j, i))
    && (forall t :: t in base && !InBlock(b, t, |b.txs|) ==> now[t].inputs == base[t].inputs)
    && (forall x ::
         0 <= x < |b.txs| ==> b.txs[x].txid in now && InputsFilled(base, now[b.txs[x].txid], b, ext, x, j, i))
  }

  /** `base` is the column after all outputs of the block. */
  ghost predicate BaseOf(was: TxColumn, base: TxColumn, b: Block) {
    OutputShape(was, base, b, |b.txs|) && RecordsDone(base, b, |b.txs|)
  }

  lemma BaseShape(was: TxColumn, base: TxColumn, b: Block, ext: bool)
    requires BaseOf(was, base, b)
    ensures InputShape(base, base, b, ext, 0, -1)
  {
    forall op ensures !Taken(b, op, 0, -1) {
    }
  }

  lemma BaseFree(was: TxColumn, base: TxColumn, b: Block, j: nat, i: nat)
    requires ValidBlock(was, b) && BaseOf(was, base, b)
    requires j < |b.txs| && i < |b.txs[j].vin| && b.txs[j].vin[i].Some?
    ensures FreeOutput(base, b.txs[j].vin[i].value)
  {
    var op := b.txs[j].vin[i].value;
    assert FreeOutput(was, op);
    if op.txid !in was && op.txid in base {
      var x :| 0 <= x < |b.txs| && b.txs[x].txid == op.txid;
      assert base[op.txid] == Record(b, b.txs[x], |b.txs[x].vout|);
    }
  }

  lemma StartInputsShape(base: TxColumn, now: TxColumn, b: Block, ext: bool, j: nat)
    requires j < |b.txs| && InputShape(base, now, b, ext, j, -1)
    requires forall x, y :: 0 <= x < y < |b.txs| ==> b.txs[x].txid != b.txs[y].txid
    ensures b.txs[j].txid in now && now[b.txs[j].txid].inputs == []
    ensures var ta := now[b.txs[j].txid].(inputs := seq(|b.txs[j].vin|, _ => NoInput));
            InputShape(base, now[b.txs[j].txid := ta], b, ext, j, 0)
  {
    var t := b.txs[j].txid;
    assert InputsFilled(base, now[t], b, ext, j, j, -1);
    var ta := now[t].(inputs := seq(|b.txs[j].vin|, _ => NoInput));
    var next := now[t := ta];
    forall op ensures Taken(b, op, j, 0) <==> Taken(b, op, j, -1) {
    }
    forall x | x in base ensures Kept(base[x], next[x], b, ext, x, j, 0) {
      assert Kept(base[x], now[x], b, ext, x, j, -1);
    }
    forall x | 0 <= x < |b.txs| ensures InputsFilled(base, next[b.txs[x].txid], b, ext, x, j, 0) {
      assert InputsFilled(base, now[b.txs[x].txid], b, ext, x, j, -1);
    }
  }

  lemma TakenNext(b: Block, op: OutPoint, j: nat, i: nat)
    requires j < |b.txs| && i < |b.txs[j].vin|
    ensures Taken(b, op, j, i + 1) <==> Taken(b, op, j, i) || b.txs[j].vin[i] == Some(op)
  {
    if Taken(b, op, j, i) {
      var j', i' :| Takes(b, j', i', op) && Before(j', i', j, i);
      assert Before(j', i', j, i + 1);
    }
    if b.txs[j].vin[i] == Some(op) {
      assert Takes(b, j, i, op) && Before(j, i, j, i + 1);
    }
  }

  lemma NotYetTaken(b: Block, op: OutPoint, j: nat, i: nat)
    requires NoDoubleSpend(b) && Takes(b, j, i, op)
    ensures !Taken(b, op, j, i)
  {
  }

  /** An output that input (j, i) does not take is kept as before. */
  lemma KeptOther(o: TxOutput, o': TxOutput, b: Block, ext: bool, op: OutPoint, j: nat, i: nat)
    requires j < |b.txs| && i < |b.txs[j].vin| && b.txs[j].vin[i] != Some(op)
    requires OutputKept(o, o', b, ext, op, j, i)
    ensures OutputKept(o, o', b, ext, op, j, i + 1)
  {
    TakenNext(b, op, j, i);
    forall j', i' | Takes(b, j', i', op) && Before(j', i', j, i + 1)
      ensures o' == SpentOutput(o, ext, b, b.txs[j'], i')
    {
      assert Before(j', i', j, i);
    }
  }

  lemma KeptTaken(o: TxOutput, b: Block, ext: bool, op: OutPoint, j: nat, i: nat)
    requires NoDoubleSpend(b) && Takes(b, j, i, op)
    ensures OutputKept(o, SpentOutput(o, ext, b, b.txs[j], i), b, ext, op, j, i + 1)
  {
    TakenNext(b, op, j, i);
  }

  /** An input that names no output there is takes nothing. */
  lemma NextInputNone(base: TxColumn, now: TxColumn, b: Block, ext: bool, j: nat, i: nat)
    requires j < |b.txs| && i < |b.txs[j].vin|
    requires b.txs[j].vin[i].None? || SourceIn(base, b.txs[j].vin[i].value).None?
    requires InputShape(base, now, b, ext, j, i)
    ensures InputShape(base, now, b, ext, j, i + 1)
  {
    forall t | t in base ensures Kept(base[t], now[t], b, ext, t, j, i + 1) {
      assert Kept(base[t], now[t], b, ext, t, j, i);
      forall v | 0 <= v < |now[t].outputs|
        ensures OutputKept(base[t].outputs[v], now[t].outputs[v], b, ext, OutPoint(t, v), j, i + 1)
      {
        KeptOther(base[t].outputs[v], now[t].outputs[v], b, ext, OutPoint(t, v), j, i);
      }
    }
    forall x | 0 <= x < |b.txs| ensures InputsFilled(base, now[b.txs[x].txid], b, ext, x, j, i + 1) {
      assert InputsFilled(base, now[b.txs[x].txid], b, ext, x, j, i);
    }
  }

  ghost predicate DistinctIds(b: Block) {
    forall x, y :: 0 <= x < y < |b.txs| ==> b.txs[x].txid != b.txs[y].txid
  }

  /** The column after input (j, i) takes `op`. */
  function TakeColumn(now: TxColumn, b: Block, ext: bool, j: nat, i: nat, op: OutPoint, o: TxOutput): TxColumn
    requires j < |b.txs|
  {
    SpendColumn(now, op, b.txs[j].txid, i, SpentOutput(o, ext, b, b.txs[j], i), FilledInput(o, ext, op))
  }

  lemma TakeOutputs(base: TxColumn, now: TxColumn, b: Block, ext: bool, j: nat, i: nat, op: OutPoint, t: TxId)
    requires NoDoubleSpend(b) && Takes(b, j, i, op) && InputShape(base, now, b, ext, j, i)
    requires SourceIn(base, op).Some? && t in base
    ensures var o := base[op.txid].outputs[op.vout];
            Kept(base[t], TakeColumn(now, b, ext, j, i, op, o)[t], b, ext, t, j, i + 1)
  {
    var o := base[op.txid].outputs[op.vout];
    var next := TakeColumn(now, b, ext, j, i, op, o);
    assert Kept(base[t], now[t], b, ext, t, j, i);
    assert Kept(base[op.txid], now[op.txid], b, ext, op.txid, j, i);
    forall v | 0 <= v < |next[t].outputs|
      ensures OutputKept(base[t].outputs[v], next[t].outputs[v], b, ext, OutPoint(t, v), j, i + 1)
    {
      if OutPoint(t, v) == op {
        KeptTaken(o, b, ext, op, j, i);
      } else {
        KeptOther(base[t].outputs[v], now[t].outputs[v], b, ext, OutPoint(t, v), j, i);
      }
    }
  }

  lemma TakeInputs(base: TxColumn, now: TxColumn, b: Block, ext: bool, j: nat, i: nat, op: OutPoint, x: nat)
    requires DistinctIds(b) && Takes(b, j, i, op) && InputShape(base, now, b, ext, j, i)
    requires SourceIn(base, op).Some? && x < |b.txs|
    ensures var o := base[op.txid].outputs[op.vout];
            var next := TakeColumn(now, b, ext, j, i, op, o);
            b.txs[x].txid in next && InputsFilled(base, next[b.txs[x].txid], b, ext, x, j, i + 1)
  {
    var o := base[op.txid].outputs[op.vout];
    var t := b.txs[j].txid;
    assert InputsFilled(base, now[b.txs[x].txid], b, ext, x, j, i);
    assert InputsFilled(base, now[t], b, ext, j, j, i);
    var mid := SetOutput(now, op.txid, op.vout, SpentOutput(o, ext, b, b.txs[j], i));
    assert forall y :: y in now ==> mid[y].inputs == now[y].inputs;
    assert InputFor(base, b.txs[j].vin[i], ext) == FilledInput(o, ext, op);
    assert x != j ==> b.txs[x].txid != t;
  }

  /** The output an input takes is as it was after the outputs. */
  lemma SourceStands(base: TxColumn, now: TxColumn, b: Block, ext: bool, j: nat, i: nat, op: OutPoint)
    requires NoDoubleSpend(b) && Takes(b, j, i, op)
    requires InputShape(base, now, b, ext, j, i) && SourceIn(base, op).Some?
    ensures SourceIn(now, op) == SourceIn(base, op)
  {
    assert Kept(base[op.txid], now[op.txid], b, ext, op.txid, j, i);
    NotYetTaken(b, op, j, i);
  }

  lemma NextInputTake(base: TxColumn, now: TxColumn, b: Block, ext: bool, j: nat, i: nat, op: OutPoint)
    requires NoDoubleSpend(b) && DistinctIds(b) && Takes(b, j, i, op)
    requires InputShape(base, now, b, ext, j, i) && SourceIn(base, op).Some?
    ensures SourceIn(now, op) == SourceIn(base, op)
    ensures InputShape(base, TakeColumn(now, b, ext, j, i, op, SourceIn(now, op).value), b, ext, j, i + 1)
  {
    hide Kept, InputsFilled, NoDoubleSpend;
    SourceStands(base, now, b, ext, j, i, op);
    var o := base[op.txid].outputs[op.vout];
    var next := TakeColumn(now, b, ext, j, i, op, o);
    forall t | t in base ensures Kept(base[t], next[t], b, ext, t, j, i + 1) {
      TakeOutputs(base, now, b, ext, j, i, op, t);
    }
    forall x | 0 <= x < |b.txs|
      ensures b.txs[x].txid in next && InputsFilled(base, next[b.txs[x].txid], b, ext, x, j, i + 1)
    {
      TakeInputs(base, now, b, ext, j, i, op, x);
    }
    assert InBlock(b, b.txs[j].txid, |b.txs|);
  }

  /** Running past the last input of a transaction is arriving before the next one. */
  lemma LastInputShape(base: TxColumn, now: TxColumn, b: Block, ext: bool, j: nat)
    requires j < |b.txs| && InputShape(base, now, b, ext, j, |b.txs[j].vin|)
    ensures InputShape(base, now, b, ext, j + 1, -1)
  {
    forall op ensures Taken(b, op, j + 1, -1) <==> Taken(b, op, j, |b.txs[j].vin|) {
      if Taken(b, op, j + 1, -1) {
        var j', i' :| Takes(b, j', i', op) && Before(j', i', j + 1, -1);
        assert Before(j', i', j, |b.txs[j].vin|);
      }
      if Taken(b, op, j, |b.txs[j].vin|) {
        var j', i' :| Takes(b, j', i', op) && Before(j', i', j, |b.txs[j].vin|);
        assert Before(j', i', j + 1, -1);
      }
    }
    forall t | t in base ensures Kept(base[t], now[t], b, ext, t, j + 1, -1) {
      assert Kept(base[t], now[t], b, ext, t, j, |b.txs[j].vin|);
      forall v | 0 <= v < |now[t].outputs|
        ensures OutputKept(base[t].outputs[v], now[t].outputs[v], b, ext, OutPoint(t, v), j + 1, -1)
      {
        assert OutputKept(base[t].outputs[v], now[t].outputs[v], b, ext, OutPoint(t, v), j, |b.txs[j].vin|);
        forall j', i' | Takes(b, j', i', OutPoint(t, v)) && Before(j', i', j + 1, -1)
          ensures now[t].outputs[v] == SpentOutput(base[t].outputs[v], ext, b, b.txs[j'], i')
        {
          assert Before(j', i', j, |b.txs[j].vin|);
        }
      }
    }
    forall x | 0 <= x < |b.txs| ensures InputsFilled(base, now[b.txs[x].txid], b, ext, x, j + 1, -1) {
      assert InputsFilled(base, now[b.txs[x].txid], b, ext, x, j, |b.txs[j].vin|);
    }
  }

  // ---------------------------------------------------------------- the whole block

  ghost predicate InputsAtOk(l: Ledger, base: TxColumn, w: Work, b: Block, ext: bool, j: nat, i: int) {
    WorkInv(w, b.height) && Untouched(l, w.l) && InputShape(base, w.l.txs, b, ext, j, i)
  }

  lemma FirstInput(l: Ledger, base: TxColumn, w: Work, b: Block, ext: bool, j: nat)
    requires DistinctIds(b) && j < |b.txs| && InputsAtOk(l, base, w, b, ext, j, -1)
    ensures InputsAtOk(l, base, NewInputs(w, b.txs[j]), b, ext, j, 0)
  {
    StartInputsShape(base, w.l.txs, b, ext, j);
    NewInputsKeeps(w, b, b.txs[j]);
    assert seq(|b.txs[j].vin|, i => NoInput) == seq(|b.txs[j].vin|, _ => NoInput);
  }

  lemma NextInputReady(was: TxColumn, base: TxColumn, l: Ledger, b: Block, ext: bool, j: nat, i: nat)
    requires ValidBlock(was, b) && BaseOf(was, base, b) && InputShape(base, l.txs, b, ext, j, i)
    requires j < |b.txs| && i < |b.txs[j].vin|
    ensures InputReady(l, b, b.txs[j], i)
  {
    var tx := b.txs[j];
    assert InputsFilled(base, l.txs[tx.txid], b, ext, j, j, i);
    assert Kept(base[tx.txid], l.txs[tx.txid], b, ext, tx.txid, j, i);
    assert base[tx.txid] == Record(b, tx, |tx.vout|);
    if tx.vin[i].Some? {
      var op := tx.vin[i].value;
      BaseFree(was, base, b, j, i);
      SourceKept(base, l.txs, b, ext, j, i, op);
      if SourceIn(base, op).Some? {
        assert Takes(b, j, i, op);
        NextInputTake(base, l.txs, b, ext, j, i, op);
      }
    }
  }

  lemma SourceKept(base: TxColumn, now: TxColumn, b: Block, ext: bool, j: int, i: int, op: OutPoint)
    requires InputShape(base, now, b, ext, j, i)
    ensures SourceIn(now, op).Some? <==> SourceIn(base, op).Some?
  {
    if op.txid in base { assert Kept(base[op.txid], now[op.txid], b, ext, op.txid, j, i); }
  }

  lemma NextInput(l: Ledger, base: TxColumn, w: Work, b: Block, ext: bool, j: nat, i: nat)
    requires ValidBlock(l.txs, b) && BaseOf(l.txs, base, b) && j < |b.txs| && i < |b.txs[j].vin|
    requires InputsAtOk(l, base, w, b, ext, j, i)
    ensures InputsAtOk(l, base, SpendInput(w, ext, b, b.txs[j], i), b, ext, j, i + 1)
  {
    NextInputReady(l.txs, base, w.l, b, ext, j, i);
    SpendInputKeeps(w, ext, b, b.txs[j], i);
    if b.txs[j].vin[i].None? || SourceIn(base, b.txs[j].vin[i].value).None? {
      NextInputNone(base, w.l.txs, b, ext, j, i);
      if b.txs[j].vin[i].Some? { SourceKept(base, w.l.txs, b, ext, j, i, b.txs[j].vin[i].value); }
    } else {
      var op := b.txs[j].vin[i].value;
      assert Takes(b, j, i, op);
      NextInputTake(base, w.l.txs, b, ext, j, i, op);
    }
  }

  lemma LastInput(l: Ledger, base: TxColumn, w: Work, b: Block, ext: bool, j: nat)
    requires j < |b.txs| && InputsAtOk(l, base, w, b, ext, j, |b.txs[j].vin|)
    ensures InputsAtOk(l, base, w, b, ext, j + 1, -1)
  {
    LastInputShape(base, w.l.txs, b, ext, j);
  }

  lemma BeforeInputs(l: Ledger, w: Work, b: Block, ext: bool)
    requires OutputsDoneOk(l, w, b, |b.txs|)
    ensures BaseOf(l.txs, w.l.txs, b) && InputsAtOk(l, w.l.txs, w, b, ext, 0, -1)
  {
    BaseShape(l.txs, w.l.txs, b, ext);
  }

  lemma InputsPhaseDone(l: Ledger, b: Block, ext: bool, j: nat)
    requires Inv(l) && ValidBlock(l.txs, b) && j <= |b.txs|
    ensures var base := OutputsDone(l, b, |b.txs|).l.txs;
            BaseOf(l.txs, base, b) && InputsAtOk(l, base, InputsDone(l, ext, b, j), b, ext, j, -1)
    decreases j, 0
  {
    if j == 0 {
      OutputsPhaseDone(l, b, |b.txs|);
      BeforeInputs(l, OutputsDone(l, b, |b.txs|), b, ext);
    } else {
      InputsPhase(l, b, ext, j - 1, |b.txs[j - 1].vin|);
      LastInput(l, OutputsDone(l, b, |b.txs|).l.txs, InputsAt(l, ext, b, j - 1, |b.txs[j - 1].vin|), b, ext, j - 1);
    }
  }

  lemma InputsPhase(l: Ledger, b: Block, ext: bool, j: nat, i: nat)
    requires Inv(l) && ValidBlock(l.txs, b) && j < |b.txs| && i <= |b.txs[j].vin|
    ensures var base := OutputsDone(l, b, |b.txs|).l.txs;
            BaseOf(l.txs, base, b) && InputsAtOk(l, base, InputsAt(l, ext, b, j, i), b, ext, j, i)
    decreases j, i + 1
  {
    hide InputsAtOk, BaseOf, Inv, FreeInputs, NoDoubleSpend, NewHeight, SpendInput, NewInputs;
    var base := OutputsDone(l, b, |b.txs|).l.txs;
    if i == 0 {
      InputsPhaseDone(l, b, ext, j);
      FirstInput(l, base, InputsDone(l, ext, b, j), b, ext, j);
    } else {
      InputsPhase(l, b, ext, j, i - 1);
      NextInput(l, base, InputsAt(l, ext, b, j, i - 1), b, ext, j, i - 1);
    }
  }

  /** What a column says before and after a block, both directions. */
  ghost predicate Extends(was: TxColumn, now: TxColumn, b: Block, ext: bool) {
    exists base :: BaseOf(was, base, b) && InputShape(base, now, b, ext, |b.txs|, -1)
  }

  /** Connecting a valid block keeps the invariant and extends the txAddresses column by exactly that block. */
  lemma ProcessKeepsInv(l: Ledger, ext: bool, b: Block)
    requires Inv(l) && ValidBlock(l.txs, b)
    ensures Inv(Process(l, ext, b)) && Untouched(l, Process(l, ext, b))
    ensures Extends(l.txs, Process(l, ext, b).txs, b, ext)
  {
    InputsPhaseDone(l, b, ext, |b.txs|);
  }
}
