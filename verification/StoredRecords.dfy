// The records of the ledger as they are stored: what is written for a transaction of any reachable index reads back.
module StoredRecords {
  import opened Types
  import opened LedgerModel
  import opened LedgerInvariant
  import opened LedgerSteps
  import opened LedgerBlock
  import opened LedgerUndo
  import opened LedgerUndoBlock
  import opened LedgerTheorems
  import opened LedgerRuns
  import B = BalanceCodec
  import C = TxCodec
  import Totals
  import U = UtxoIndex

  // ---------------------------------------------------------------- between the two forms

  function InputOut(i: TxInput): C.Input {
    C.Input(i.coin.addr.script, i.coin.value, i.coin.asset,
            if i.prev.None? then None else Some(C.Prev(i.prev.value.txid.packed, i.prev.value.vout)))
  }

  function OutputOut(o: TxOutput): C.Output {
    C.Output(o.coin.addr.script, o.coin.value, o.coin.asset, o.spent,
             if o.spender.None? then None
             else Some(C.Spender(o.spender.value.txid.packed, o.spender.value.index, o.spender.value.height)))
  }

  /** The record written for a transaction; its size and memo are not part of the ledger. */
  function RecordOut(ta: TxAddresses): C.Record {
    C.Record(ta.version, ta.height, 0,
             seq(|ta.inputs|, i requires 0 <= i < |ta.inputs| => InputOut(ta.inputs[i])),
             seq(|ta.outputs|, i requires 0 <= i < |ta.outputs| => OutputOut(ta.outputs[i])), [])
  }

  function InputBack(i: C.Input): TxInput {
    TxInput(Coin(AddrDesc(i.addr), i.value, i.asset),
            if i.prev.None? then None else Some(OutPoint(TxId(i.prev.value.txid), i.prev.value.vout)))
  }

  function OutputBack(o: C.Output): TxOutput {
    TxOutput(Coin(AddrDesc(o.addr), o.value, o.asset), o.spent,
             if o.spender.None? then None
             else Some(SpendRef(TxId(o.spender.value.txid), o.spender.value.index, o.spender.value.height)))
  }

  function RecordBack(r: C.Record): TxAddresses {
    TxAddresses(r.height, r.version,
                seq(|r.inputs|, i requires 0 <= i < |r.inputs| => InputBack(r.inputs[i])),
                seq(|r.outputs|, i requires 0 <= i < |r.outputs| => OutputBack(r.outputs[i])))
  }

  lemma OutAndBack(ta: TxAddresses)
    ensures RecordBack(RecordOut(ta)) == ta
  {
    forall i | 0 <= i < |ta.inputs| ensures InputBack(InputOut(ta.inputs[i])) == ta.inputs[i] { }
    forall i | 0 <= i < |ta.outputs| ensures OutputBack(OutputOut(ta.outputs[i])) == ta.outputs[i] { }
  }

  lemma BackAndOut(r: C.Record)
    requires r.vsize == 0 && r.memo == []
    ensures RecordOut(RecordBack(r)) == r
  {
    forall i | 0 <= i < |r.inputs| ensures InputOut(InputBack(r.inputs[i])) == r.inputs[i] { }
    forall i | 0 <= i < |r.outputs| ensures OutputOut(OutputBack(r.outputs[i])) == r.outputs[i] { }
  }

  // ---------------------------------------------------------------- what an index of one kind holds

  predicate OutputShaped(ext: bool, o: TxOutput) { if ext then o.spent <==> o.spender.Some? else o.spender.None? }

  /** The extended index names previous outputs and, exactly for spent outputs, spenders; the other one neither. */
  ghost predicate Shaped(ext: bool, ta: TxAddresses) {
    && (forall i :: 0 <= i < |ta.inputs| ==> ext || ta.inputs[i].prev.None?)
    && (forall i :: 0 <= i < |ta.outputs| ==> OutputShaped(ext, ta.outputs[i]))
  }

  ghost predicate ShapedColumn(ext: bool, txs: TxColumn) { forall t :: t in txs ==> Shaped(ext, txs[t]) }

  lemma ShapedOutputs(ext: bool, was: TxColumn, base: TxColumn, now: TxColumn, b: Block, t: TxId, i: nat)
    requires ShapedColumn(ext, was) && BaseOf(was, base, b) && InputShape(base, now, b, ext, |b.txs|, -1)
    requires t in now && i < |now[t].outputs|
    ensures OutputShaped(ext, now[t].outputs[i])
  {
    OutputAfter(was, base, now, b, ext, t, i);
    hide BaseOf, InputShape;
    assert t in was ==> Shaped(ext, was[t]);
    assert OutputShaped(ext, base[t].outputs[i]);
    if Taken(b, OutPoint(t, i), |b.txs|, -1) {
      var x, y :| Takes(b, x, y, OutPoint(t, i)) && Before(x, y, |b.txs|, -1);
      assert now[t].outputs[i] == SpentOutput(base[t].outputs[i], ext, b, b.txs[x], y);
    }
  }

  lemma ShapedInputs(ext: bool, was: TxColumn, base: TxColumn, now: TxColumn, b: Block, t: TxId, i: nat)
    requires ShapedColumn(ext, was) && BaseOf(was, base, b) && InputShape(base, now, b, ext, |b.txs|, -1)
    requires t in now && i < |now[t].inputs|
    ensures ext || now[t].inputs[i].prev.None?
  {
    if InBlock(b, t, |b.txs|) {
      var j :| 0 <= j < |b.txs| && b.txs[j].txid == t;
      assert InputsFilled(base, now[t], b, ext, j, |b.txs|, -1);
    } else {
      assert t in was && Shaped(ext, was[t]) && now[t].inputs == was[t].inputs;
    }
  }

  /** A connect keeps the shape of the column. */
  lemma ExtendsShaped(ext: bool, was: TxColumn, now: TxColumn, b: Block)
    requires ShapedColumn(ext, was) && Extends(was, now, b, ext)
    ensures ShapedColumn(ext, now)
  {
    var base: TxColumn :| BaseOf(was, base, b) && InputShape(base, now, b, ext, |b.txs|, -1);
    hide BaseOf, InputShape, ShapedColumn, OutputShaped;
    forall t | t in now ensures Shaped(ext, now[t]) {
      forall i | 0 <= i < |now[t].inputs| ensures ext || now[t].inputs[i].prev.None? {
        ShapedInputs(ext, was, base, now, b, t, i);
      }
      forall i | 0 <= i < |now[t].outputs| ensures OutputShaped(ext, now[t].outputs[i]) {
        ShapedOutputs(ext, was, base, now, b, t, i);
      }
    }
    ShapedBy(ext, now);
  }

  lemma ShapedBy(ext: bool, txs: TxColumn)
    requires forall t :: t in txs ==> Shaped(ext, txs[t])
    ensures ShapedColumn(ext, txs)
  {
  }

  /** So does a disconnect. */
  lemma TakenOutShaped(ext: bool, was: TxColumn, now: TxColumn, b: Block)
    requires ShapedColumn(ext, was) && TakenOut(was, now, b)
    ensures ShapedColumn(ext, now)
  {
    forall t | t in now ensures Shaped(ext, now[t]) {
      assert Shaped(ext, was[t]);
      assert OutputsFreed(was[t], now[t], b, t, |b.txs|, 0);
      hide Freed;
      forall i | 0 <= i < |now[t].outputs| ensures OutputShaped(ext, now[t].outputs[i]) {
        assert OutputShaped(ext, was[t].outputs[i]);
      }
    }
  }

  lemma {:induction false} RunIsShaped(ext: bool, es: seq<Event>)
    requires LegalRun(Node(EmptyLedger, []), ext, es)
    ensures ShapedColumn(ext, Execute(Node(EmptyLedger, []), ext, es).l.txs)
  {
    if es != [] {
      var n := |es| - 1;
      var m := Execute(Node(EmptyLedger, []), ext, es[..n]);
      RunIsShaped(ext, es[..n]);
      RunIsReplay(ext, es[..n]);
      StepIsShaped(ext, m, es[n]);
    }
  }

  lemma StepIsShaped(ext: bool, n: Node, e: Event)
    requires NodeOk(n, ext) && LegalEvent(n, e) && ShapedColumn(ext, n.l.txs)
    ensures ShapedColumn(ext, Step(n, ext, e).l.txs)
  {
    match e {
      case Add(b) =>
        ConnectKeepsGood(n.l, ext, b);
        ExtendsShaped(ext, n.l.txs, ConnectBlock(n.l, ext, b).txs, b);
      case Drop =>
        DropColumn(n, ext);
        TakenOutShaped(ext, n.l.txs, Disconnect(n.l, Last(n.chain).height).value.txs, Last(n.chain));
    }
  }

  // ---------------------------------------------------------------- what is stored reads back

  function ModeOf(ext: bool, txidLen: nat): C.Mode { C.Mode(ext, true, txidLen) }

  /** A mode has all fields of a record of its kind. */
  lemma ShapedIsIn(ext: bool, txidLen: nat, ta: TxAddresses)
    requires Shaped(ext, ta)
    ensures C.RecordIn(ModeOf(ext, txidLen), RecordOut(ta)) == RecordOut(ta)
  {
    var m, r := ModeOf(ext, txidLen), RecordOut(ta);
    forall i | 0 <= i < |r.inputs| ensures C.InputIn(m, r.inputs[i]) == r.inputs[i] {
      assert ext || ta.inputs[i].prev.None?;
    }
    forall i | 0 <= i < |r.outputs| ensures C.OutputIn(m, r.outputs[i]) == r.outputs[i] {
      assert OutputShaped(ext, ta.outputs[i]);
    }
  }

  /** A record of an index of the kind stored for reads back as itself exactly when its amounts have at most 31
      words. */
  lemma ShapedReadsBack(ext: bool, txidLen: nat, ta: TxAddresses, rest: seq<byte>)
    requires Shaped(ext, ta) && C.RecordOk(ModeOf(ext, txidLen), RecordOut(ta))
    ensures var m := ModeOf(ext, txidLen);
            var p := C.GetRecord(m, C.PutRecord(m, RecordOut(ta)) + rest, 0);
            p.Got? && (RecordBack(p.value) == ta <==> C.AllSmall(RecordOut(ta)))
  {
    hide C.GetRecord, C.PutRecord, C.RecordOk, RecordOut, RecordBack, C.AllSmall, C.RecordIn, Shaped;
    var m := ModeOf(ext, txidLen);
    C.RecordRead(m, RecordOut(ta), rest);
    C.RecordReadExactly(m, RecordOut(ta), rest);
    ShapedIsIn(ext, txidLen, ta);
    OutAndBack(ta);
    KeptPlain(m, RecordOut(ta), ta);
    BackAndOut(C.Kept(m, RecordOut(ta)));
  }

  lemma KeptPlain(m: C.Mode, r: C.Record, ta: TxAddresses)
    requires r == RecordOut(ta)
    ensures C.Kept(m, r).vsize == 0 && C.Kept(m, r).memo == []
  {
  }

  /** In every index reached by connects and disconnects, what is stored for a transaction reads back as its record
      exactly when its amounts have at most 31 words. */
  lemma ReachableReadsBack(ext: bool, es: seq<Event>, t: TxId, txidLen: nat, rest: seq<byte>)
    requires LegalRun(Node(EmptyLedger, []), ext, es) && t in Execute(Node(EmptyLedger, []), ext, es).l.txs
    requires C.RecordOk(ModeOf(ext, txidLen), RecordOut(Execute(Node(EmptyLedger, []), ext, es).l.txs[t]))
    ensures var m, ta := ModeOf(ext, txidLen), Execute(Node(EmptyLedger, []), ext, es).l.txs[t];
            var p := C.GetRecord(m, C.PutRecord(m, RecordOut(ta)) + rest, 0);
            p.Got? && (RecordBack(p.value) == ta <==> C.AllSmall(RecordOut(ta)))
  {
    hide LegalRun, Execute, C.GetRecord, C.PutRecord, C.RecordOk, RecordOut, RecordBack, C.AllSmall, Shaped;
    RunIsShaped(ext, es);
    ShapedReadsBack(ext, txidLen, Execute(Node(EmptyLedger, []), ext, es).l.txs[t], rest);
  }

  // ---------------------------------------------------------------- balances

  /** Counters, indexes and heights within 32 bits, guids within 64, txids of one length. */
  ghost predicate Sizes(txidLen: nat, b: AddrBalance) {
    && b.txs < U32 && (forall g :: g in b.assets ==> g < C.U64 && b.assets[g].transfers < U32)
    && forall u :: u in U.LiveSet(b.utxos.slots) ==>
         && |u.txid.packed| == txidLen && u.vout < 0x8000_0000 && u.height < U32 && C.AssetOk(u.asset)
  }

  /** Nothing of a balance is negative. */
  lemma StoredIsOk(l: Ledger, a: AddrDesc, m: C.Mode)
    requires Inv(l) && a in l.bals && Sizes(m.txidLen, l.bals[a])
    ensures B.BalanceOk(m, l.bals[a])
  {
    var b := l.bals[a];
    assert Indexable(a) && b == Bal(l, a);
    assert CountOf(l, AddrKey(a)) == |Touching(l.txs, AddrKey(a))|;
    AmountsNotNegative(l, AddrKey(a));
    forall g | g in b.assets ensures B.HoldingOk(g, b.assets[g]) {
      assert CountOf(l, HoldingKey(a, g)) == |Touching(l.txs, HoldingKey(a, g))|;
      AmountsNotNegative(l, HoldingKey(a, g));
    }
  }

  lemma AmountsNotNegative(l: Ledger, k: Key)
    requires Inv(l) && !k.AssetKey? && Indexable(k.addr)
    ensures BalanceOf(l, k) >= 0 && SentOf(l, k) >= 0
  {
    assert BalanceOf(l, k) == UnspentTotal(l.txs, k) && SentOf(l, k) == SpentTotal(l.txs, k);
    Totals.TotalNonNegative(UnspentPerTx(l.txs, k));
    Totals.TotalNonNegative(SpentPerTx(l.txs, k));
  }

  /** In every index reached by connects and disconnects, what is stored for an address reads back as its balance, with
      the same list of outputs and index, exactly when its amounts have at most 31 words. */
  lemma ReachableBalanceReadsBack(ext: bool, es: seq<Event>, a: AddrDesc, txidLen: nat, order: seq<Guid>)
    requires LegalRun(Node(EmptyLedger, []), ext, es) && a in Execute(Node(EmptyLedger, []), ext, es).l.bals
    requires Sizes(txidLen, Execute(Node(EmptyLedger, []), ext, es).l.bals[a])
    requires B.IsOrder(order, Execute(Node(EmptyLedger, []), ext, es).l.bals[a].assets)
    ensures var m, b := ModeOf(ext, txidLen), Execute(Node(EmptyLedger, []), ext, es).l.bals[a];
            && B.BalanceOk(m, b)
            && var r := B.GetBalance(m, B.PutBalance(m, b, order), B.UtxosIndexed);
               r.Got? && (r.value == b <==> B.SmallBalance(b))
  {
    hide LegalRun, Execute, Inv, Sizes, B.BalanceOk, B.GetBalance, B.PutBalance, B.SmallBalance, B.IsOrder, ValidChain;
    hide SameColumn, SameIndex, ListStored;
    var l := Execute(Node(EmptyLedger, []), ext, es).l;
    RunIsReplay(ext, es);
    StoredIsOk(l, a, ModeOf(ext, txidLen));
    B.BalanceReadExactly(ModeOf(ext, txidLen), l.bals[a], order);
    StoredIsStripped(l, a);
  }

  lemma StoredIsStripped(l: Ledger, a: AddrDesc)
    requires Stored(l) && a in l.bals
    ensures U.Strip(l.bals[a].utxos) == l.bals[a].utxos
  {
    var u := Bal(l, a).utxos;
    assert ListStored(u);
    U.LiveOfLive(u.slots);
  }
}
