// The records of a chain: after its blocks were connected from scratch, the txAddresses column states of every
// transaction what the blocks state.
module ChainRecords {
  import opened Types
  import opened LedgerModel
  import opened LedgerInvariant
  import opened LedgerSteps
  import opened LedgerBlock
  import opened LedgerTheorems
  import opened LedgerRuns
  import opened BlockReading
  import R = ChainReading

  // ---------------------------------------------------------------- coins

  lemma ExtendsCoins(was: TxColumn, now: TxColumn, b: Block, ext: bool, chain: seq<Block>)
    requires ValidBlock(was, b) && Extends(was, now, b, ext) && CoinsSay(was, chain)
    ensures CoinsSay(now, chain + [b])
  {
    hide CoinsSay, BaseOf, InputShape, FreeInputs, NoDoubleSpend, NewHeight;
    var base: TxColumn :| BaseOf(was, base, b) && InputShape(base, now, b, ext, |b.txs|, -1);
    BaseCoins(was, base, chain, b);
    ShapeCoins(base, now, b, ext, |b.txs|, -1, chain + [b]);
  }

  lemma NoCoins()
    ensures CoinsSay(map[], [])
  {
  }

  lemma {:induction false} ReplayCoins(ext: bool, chain: seq<Block>)
    requires ValidChain(ext, chain)
    ensures CoinsSay(Replay(ext, chain).txs, chain)
  {
    hide CoinsSay, ValidBlock, Extends, ConnectBlock, Good;
    if chain == [] {
      NoCoins();
    } else {
      ReplayCoins(ext, Front(chain));
      ReplayGood(ext, chain);
      ExtendsCoins(Replay(ext, Front(chain)).txs, Replay(ext, chain).txs, Last(chain), ext, Front(chain));
      assert Front(chain) + [Last(chain)] == chain;
    }
  }

  lemma SameCoins(txs: TxColumn, txs': TxColumn, chain: seq<Block>)
    requires SameColumn(txs, txs') && CoinsSay(txs, chain)
    ensures CoinsSay(txs', chain)
  {
    forall op ensures CoinSaid(txs', chain, op) {
      assert CoinSaid(txs, chain, op);
      if op.txid in txs {
        assert SameTx(txs[op.txid], txs'[op.txid]);
        if op.vout < |txs[op.txid].outputs| {
          assert SameOutputs(txs[op.txid].outputs[op.vout], txs'[op.txid].outputs[op.vout]);
        }
      }
    }
  }

  // ---------------------------------------------------------------- marks

  lemma NamedNext(chain: seq<Block>, b: Block, from: nat, op: OutPoint)
    requires from <= |chain|
    ensures R.Named(chain + [b], from, op) <==> R.Named(chain, from, op) || Taken(b, op, |b.txs|, -1)
  {
    var now := chain + [b];
    if R.Named(now, from, op) {
      var x, j, i :| from <= x && R.Names(now, x, j, i, op);
      if x < |chain| {
        assert R.Names(chain, x, j, i, op);
      } else {
        assert Takes(b, j, i, op) && Before(j, i, |b.txs|, -1);
      }
    }
    if R.Named(chain, from, op) {
      var x, j, i :| from <= x && R.Names(chain, x, j, i, op);
      assert R.Names(now, x, j, i, op);
    }
    if Taken(b, op, |b.txs|, -1) {
      var j, i :| Takes(b, j, i, op) && Before(j, i, |b.txs|, -1);
      assert R.Names(now, |chain|, j, i, op);
    }
  }

  /** An output with a descriptor, from before the block to after it. */
  lemma MarkNext(o: TxOutput, o': TxOutput, chain: seq<Block>, b: Block, ext: bool, from: nat, op: OutPoint)
    requires NoDoubleSpend(b) && from <= |chain| && R.MarkSays(o, chain, ext, from, op)
    requires OutputKept(o, o', b, ext, op, |b.txs|, -1) && (Taken(b, op, |b.txs|, -1) ==> !o.spent)
    ensures R.MarkSays(o', chain + [b], ext, from, op)
  {
    var now := chain + [b];
    NamedNext(chain, b, from, op);
    if Taken(b, op, |b.txs|, -1) {
      var j, i :| Takes(b, j, i, op) && Before(j, i, |b.txs|, -1);
      assert o' == SpentOutput(o, ext, b, b.txs[j], i);
    }
    forall x, j, i | from <= x && R.Names(now, x, j, i, op) && ext
      ensures o'.spender == Some(SpendRef(now[x].txs[j].txid, i, now[x].height))
    {
      if x < |chain| {
        assert R.Names(chain, x, j, i, op);
        assert R.Named(chain, from, op);
      } else {
        assert Takes(b, j, i, op) && Before(j, i, |b.txs|, -1);
      }
    }
  }

  // ---------------------------------------------------------------- records

  lemma OldOutput(was: TxColumn, base: TxColumn, now: TxColumn, chain: seq<Block>, b: Block, ext: bool, from: nat,
                  t: TxId, i: nat)
    requires ValidBlock(was, b) && BaseOf(was, base, b) && InputShape(base, now, b, ext, |b.txs|, -1)
    requires t in was && t in now && i < |was[t].outputs| && i < |now[t].outputs| && from <= |chain|
    ensures now[t].outputs[i].coin == was[t].outputs[i].coin
    ensures was[t].outputs[i].coin.addr.script != [] && R.MarkSays(was[t].outputs[i], chain, ext, from, OutPoint(t, i))
            ==> R.MarkSays(now[t].outputs[i], chain + [b], ext, from, OutPoint(t, i))
  {
    OutputAfter(was, base, now, b, ext, t, i);
    var op := OutPoint(t, i);
    if was[t].outputs[i].coin.addr.script != [] && R.MarkSays(was[t].outputs[i], chain, ext, from, op) {
      if Taken(b, op, |b.txs|, -1) {
        var x, y :| Takes(b, x, y, op) && Before(x, y, |b.txs|, -1);
        TakenSpendable(was, b, x, y, op);
      }
      MarkNext(was[t].outputs[i], now[t].outputs[i], chain, b, ext, from, op);
    }
  }

  lemma OldRecord(was: TxColumn, base: TxColumn, now: TxColumn, chain: seq<Block>, b: Block, ext: bool, x: nat, j: nat)
    requires ValidBlock(was, b) && BaseOf(was, base, b) && InputShape(base, now, b, ext, |b.txs|, -1)
    requires x < |chain| && j < |chain[x].txs| && chain[x].txs[j].txid in was
    requires R.RecordSays(was[chain[x].txs[j].txid], chain, ext, x, j)
    ensures chain[x].txs[j].txid in now && R.RecordSays(now[chain[x].txs[j].txid], chain + [b], ext, x, j)
  {
    var tx := chain[x].txs[j];
    var t := tx.txid;
    OldFrame(was, base, now, b, ext, t);
    hide InputShape, BaseOf, R.MarkSays, R.InputSays;
    assert (chain + [b])[..x + 1] == chain[..x + 1];
    forall i | 0 <= i < |tx.vout|
      ensures R.Says(now[t].outputs[i].coin, tx.vout[i])
      ensures now[t].outputs[i].coin.addr.script != [] ==>
              R.MarkSays(now[t].outputs[i], chain + [b], ext, x, OutPoint(t, i))
    {
      OldOutput(was, base, now, chain, b, ext, x, t, i);
    }
  }

  lemma OldFrame(was: TxColumn, base: TxColumn, now: TxColumn, b: Block, ext: bool, t: TxId)
    requires ValidBlock(was, b) && BaseOf(was, base, b) && InputShape(base, now, b, ext, |b.txs|, -1) && t in was
    ensures t in now && now[t].inputs == was[t].inputs && |now[t].outputs| == |was[t].outputs|
    ensures now[t].height == was[t].height && now[t].version == was[t].version
  {
    assert Kept(base[t], now[t], b, ext, t, |b.txs|, -1);
    assert !InBlock(b, t, |b.txs|);
  }

  lemma NewFrame(was: TxColumn, base: TxColumn, now: TxColumn, b: Block, ext: bool, j: nat)
    requires BaseOf(was, base, b) && InputShape(base, now, b, ext, |b.txs|, -1) && j < |b.txs|
    ensures var t := b.txs[j].txid;
            && t in base && t in now && base[t] == Record(b, b.txs[j], |b.txs[j].vout|)
            && now[t].height == b.height && now[t].version == b.txs[j].version
            && |now[t].outputs| == |b.txs[j].vout| && |now[t].inputs| == |b.txs[j].vin|
            && forall i :: 0 <= i < |b.txs[j].vin| ==> now[t].inputs[i] == InputFor(base, b.txs[j].vin[i], ext)
  {
    var t := b.txs[j].txid;
    assert Kept(base[t], now[t], b, ext, t, |b.txs|, -1);
    assert InputsFilled(base, now[t], b, ext, j, |b.txs|, -1);
  }

  lemma NewOutput(was: TxColumn, base: TxColumn, now: TxColumn, chain: seq<Block>, b: Block, ext: bool, j: nat, i: nat)
    requires ValidBlock(was, b) && BaseOf(was, base, b) && InputShape(base, now, b, ext, |b.txs|, -1)
    requires j < |b.txs| && i < |b.txs[j].vout|
    ensures var t := b.txs[j].txid;
            && t in now && i < |now[t].outputs| && R.Says(now[t].outputs[i].coin, b.txs[j].vout[i])
            && R.MarkSays(now[t].outputs[i], chain + [b], ext, |chain|, OutPoint(t, i))
  {
    var t := b.txs[j].txid;
    NewFrame(was, base, now, b, ext, j);
    OutputAfter(was, base, now, b, ext, t, i);
    CoinSays(b.txs[j].vout[i], AssetKey(0));
    hide InputShape, BaseOf;
    var o := base[t].outputs[i];
    assert o == TxOutput(CoinOf(b.txs[j].vout[i]), false, None);
    assert R.MarkSays(o, chain, ext, |chain|, OutPoint(t, i));
    MarkNext(o, now[t].outputs[i], chain, b, ext, |chain|, OutPoint(t, i));
  }

  lemma NewInputSays(base: TxColumn, chain: seq<Block>, b: Block, ext: bool, vin: Option<OutPoint>)
    requires CoinsSay(base, chain + [b])
    ensures R.InputSays(InputFor(base, vin, ext), chain + [b], ext, vin)
  {
    if vin.Some? { assert CoinSaid(base, chain + [b], vin.value); }
  }

  lemma NewRecord(was: TxColumn, base: TxColumn, now: TxColumn, chain: seq<Block>, b: Block, ext: bool, j: nat)
    requires ValidBlock(was, b) && BaseOf(was, base, b) && InputShape(base, now, b, ext, |b.txs|, -1)
    requires CoinsSay(base, chain + [b]) && j < |b.txs|
    ensures b.txs[j].txid in now && R.RecordSays(now[b.txs[j].txid], chain + [b], ext, |chain|, j)
  {
    hide InputShape, BaseOf, R.MarkSays, R.InputSays, CoinsSay, ValidBlock, InputFor;
    var tx := b.txs[j];
    NewFrame(was, base, now, b, ext, j);
    assert (chain + [b])[..|chain| + 1] == chain + [b];
    forall i | 0 <= i < |tx.vout|
      ensures R.Says(now[tx.txid].outputs[i].coin, tx.vout[i])
      ensures R.MarkSays(now[tx.txid].outputs[i], chain + [b], ext, |chain|, OutPoint(tx.txid, i))
    {
      NewOutput(was, base, now, chain, b, ext, j, i);
    }
    forall i | 0 <= i < |tx.vin| ensures R.InputSays(now[tx.txid].inputs[i], chain + [b], ext, tx.vin[i]) {
      NewInputSays(base, chain, b, ext, tx.vin[i]);
    }
  }

  lemma InChainNext(chain: seq<Block>, b: Block, t: TxId)
    ensures R.InChain(chain + [b], t) <==> R.InChain(chain, t) || InBlock(b, t, |b.txs|)
  {
    var now := chain + [b];
    if R.InChain(now, t) {
      var x, j :| 0 <= x < |now| && 0 <= j < |now[x].txs| && now[x].txs[j].txid == t;
      assert x < |chain| ==> now[x] == chain[x];
    }
    if R.InChain(chain, t) {
      var x, j :| 0 <= x < |chain| && 0 <= j < |chain[x].txs| && chain[x].txs[j].txid == t;
      assert now[x].txs[j].txid == t;
    }
    if InBlock(b, t, |b.txs|) {
      var j :| 0 <= j < |b.txs| && b.txs[j].txid == t;
      assert now[|chain|].txs[j].txid == t;
    }
  }

  /** One block more: the column goes on to say what the chain says. */
  lemma ExtendsRecords(was: TxColumn, now: TxColumn, b: Block, ext: bool, chain: seq<Block>)
    requires ValidBlock(was, b) && Extends(was, now, b, ext) && CoinsSay(was, chain) && R.RecordsSay(was, chain, ext)
    ensures R.RecordsSay(now, chain + [b], ext)
  {
    hide CoinsSay, InputShape, BaseOf, R.RecordSays, FreeInputs, NoDoubleSpend, NewHeight;
    var base: TxColumn :| BaseOf(was, base, b) && InputShape(base, now, b, ext, |b.txs|, -1);
    BaseCoins(was, base, chain, b);
    var all := chain + [b];
    forall t ensures t in now <==> R.InChain(all, t) {
      InChainNext(chain, b, t);
      ExtendsKeys(was, base, now, b, ext, t);
    }
    forall x, j | 0 <= x < |all| && 0 <= j < |all[x].txs|
      ensures all[x].txs[j].txid in now && R.RecordSays(now[all[x].txs[j].txid], all, ext, x, j)
    {
      if x < |chain| {
        assert all[x] == chain[x];
        OldRecord(was, base, now, chain, b, ext, x, j);
      } else {
        NewRecord(was, base, now, chain, b, ext, j);
      }
    }
  }

  lemma ExtendsKeys(was: TxColumn, base: TxColumn, now: TxColumn, b: Block, ext: bool, t: TxId)
    requires BaseOf(was, base, b) && InputShape(base, now, b, ext, |b.txs|, -1)
    ensures t in now <==> t in was || InBlock(b, t, |b.txs|)
  {
  }

  lemma NoRecords(ext: bool)
    ensures R.RecordsSay(map[], [], ext)
  {
  }

  lemma {:induction false} ReplayRecords(ext: bool, chain: seq<Block>)
    requires ValidChain(ext, chain)
    ensures R.RecordsSay(Replay(ext, chain).txs, chain, ext)
  {
    hide CoinsSay, ValidBlock, Extends, ConnectBlock, Good, R.RecordsSay;
    if chain == [] {
      NoRecords(ext);
    } else {
      ReplayRecords(ext, Front(chain));
      ReplayCoins(ext, Front(chain));
      ReplayGood(ext, chain);
      ExtendsRecords(Replay(ext, Front(chain)).txs, Replay(ext, chain).txs, Last(chain), ext, Front(chain));
      assert Front(chain) + [Last(chain)] == chain;
    }
  }

  /** What is said does not depend on the marks of outputs without descriptor. */
  lemma SameRecords(txs: TxColumn, txs': TxColumn, chain: seq<Block>, ext: bool)
    requires SameColumn(txs, txs') && R.RecordsSay(txs, chain, ext)
    ensures R.RecordsSay(txs', chain, ext)
  {
    forall x, j | 0 <= x < |chain| && 0 <= j < |chain[x].txs|
      ensures chain[x].txs[j].txid in txs' && R.RecordSays(txs'[chain[x].txs[j].txid], chain, ext, x, j)
    {
      SameRecord(txs[chain[x].txs[j].txid], txs'[chain[x].txs[j].txid], chain, ext, x, j);
    }
  }

  lemma SameRecord(ta: TxAddresses, ta': TxAddresses, chain: seq<Block>, ext: bool, x: nat, j: nat)
    requires x < |chain| && j < |chain[x].txs| && R.RecordSays(ta, chain, ext, x, j) && SameTx(ta, ta')
    ensures R.RecordSays(ta', chain, ext, x, j)
  {
    hide R.MarkSays, R.InputSays;
    forall i | 0 <= i < |ta.outputs|
      ensures ta'.outputs[i].coin == ta.outputs[i].coin
      ensures ta.outputs[i].coin.addr.script != [] ==> ta'.outputs[i] == ta.outputs[i]
    {
      assert SameOutputs(ta.outputs[i], ta'.outputs[i]);
    }
  }
}
