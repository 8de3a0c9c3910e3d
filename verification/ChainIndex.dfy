// In every reachable state the index says what the blocks of the surviving chain say: records, history rows in
// their order, asset rows, amounts, counters and lists of outputs.
module ChainIndex {
  import opened Types
  import U = UtxoIndex
  import opened LedgerModel
  import opened LedgerInvariant
  import opened LedgerBlock
  import opened LedgerUndo
  import opened LedgerUndoBlock
  import opened LedgerTheorems
  import opened LedgerRuns
  import opened BlockReading
  import opened ChainRecords
  import R = ChainReading

  // ---------------------------------------------------------------- places of an address

  lemma {:induction false} PayPlacesSay(outs: seq<TxOutput>, vout: seq<Vout>, a: AddrDesc)
    requires |outs| == |vout| && Indexable(a)
    requires forall i :: 0 <= i < |vout| ==> R.Says(outs[i].coin, vout[i])
    ensures OutputIndexes(outs, a) == R.PayPlaces(vout, a)
    ensures OutputsHit(outs, AddrKey(a)) <==> exists i :: 0 <= i < |vout| && R.Pays(vout[i], AddrKey(a))
  {
    OutputsHitSay(outs, vout, AddrKey(a));
    if outs != [] {
      var n := |outs| - 1;
      PayPlacesSay(outs[..n], vout[..n], a);
      SaysHits(outs[n].coin, vout[n], AddrKey(a));
    }
  }

  lemma {:induction false} OutputsHitSay(outs: seq<TxOutput>, vout: seq<Vout>, k: Key)
    requires |outs| == |vout| && forall i :: 0 <= i < |vout| ==> R.Says(outs[i].coin, vout[i])
    ensures OutputsHit(outs, k) <==> exists i :: 0 <= i < |vout| && R.Pays(vout[i], k)
  {
    if outs != [] {
      var n := |outs| - 1;
      OutputsHitSay(outs[..n], vout[..n], k);
      SaysHits(outs[n].coin, vout[n], k);
      if OutputsHit(outs[..n], k) {
        var i :| 0 <= i < n && R.Pays(vout[..n][i], k);
        assert R.Pays(vout[i], k);
      }
      if x :| 0 <= x < |vout| && R.Pays(vout[x], k) {
        assert x < n ==> R.Pays(vout[..n][x], k);
      }
    }
  }

  lemma InputSaysHits(input: TxInput, chain: seq<Block>, ext: bool, vin: Option<OutPoint>, k: Key)
    requires R.InputSays(input, chain, ext, vin)
    ensures Hits(input.coin, k) <==> R.Takes(chain, vin, k)
    ensures k.AddrKey? && Indexable(k.addr) ==> (input.coin.addr == k.addr <==> R.Takes(chain, vin, k))
  {
    if R.Given(chain, vin).Some? { SaysHits(input.coin, R.Given(chain, vin).value, k); }
  }

  lemma {:induction false} TakePlacesSay(ins: seq<TxInput>, chain: seq<Block>, ext: bool, vin: seq<Option<OutPoint>>,
                                         a: AddrDesc)
    requires |ins| == |vin| && Indexable(a)
    requires forall i :: 0 <= i < |vin| ==> R.InputSays(ins[i], chain, ext, vin[i])
    ensures InputIndexes(ins, a) == R.TakePlaces(chain, vin, a)
  {
    if ins != [] {
      var n := |ins| - 1;
      TakePlacesSay(ins[..n], chain, ext, vin[..n], a);
      InputSaysHits(ins[n], chain, ext, vin[n], AddrKey(a));
    }
  }

  lemma {:induction false} InputsHitSay(ins: seq<TxInput>, chain: seq<Block>, ext: bool, vin: seq<Option<OutPoint>>,
                                        k: Key)
    requires |ins| == |vin| && forall i :: 0 <= i < |vin| ==> R.InputSays(ins[i], chain, ext, vin[i])
    ensures InputsHit(ins, k) <==> exists i :: 0 <= i < |vin| && R.Takes(chain, vin[i], k)
  {
    if ins != [] {
      var n := |ins| - 1;
      InputsHitSay(ins[..n], chain, ext, vin[..n], k);
      InputSaysHits(ins[n], chain, ext, vin[n], k);
      if InputsHit(ins[..n], k) {
        var i :| 0 <= i < n && R.Takes(chain, vin[..n][i], k);
        assert R.Takes(chain, vin[i], k);
      }
      if x :| 0 <= x < |vin| && R.Takes(chain, vin[x], k) {
        assert x < n ==> R.Takes(chain, vin[..n][x], k);
      }
    }
  }

  lemma RecordHits(ta: TxAddresses, chain: seq<Block>, ext: bool, x: nat, j: nat, k: Key)
    requires x < |chain| && j < |chain[x].txs| && R.RecordSays(ta, chain, ext, x, j)
    ensures TxHits(ta, k) <==> R.TxPays(chain[x].txs[j], k) || R.TxTakes(chain[..x + 1], chain[x].txs[j], k)
  {
    OutputsHitSay(ta.outputs, chain[x].txs[j].vout, k);
    InputsHitSay(ta.inputs, chain[..x + 1], ext, chain[x].txs[j].vin, k);
  }

  // ---------------------------------------------------------------- rows

  /** The rows of block `x` of the chain. */
  ghost predicate RowsSayAt(l: Ledger, chain: seq<Block>, x: nat)
    requires x < |chain|
  {
    && (forall a :: Indexable(a) ==> RowOf(l, AddrRow(a, chain[x].height)) == R.RowFor(chain[..x + 1], a))
    && (forall g :: AssetRowOf(l, AssetRow(g, chain[x].height)) == R.AssetRowFor(chain[..x + 1], g))
  }

  /** The rows of every block of the chain, and no others. */
  ghost predicate RowsSay(l: Ledger, chain: seq<Block>) {
    && (forall x :: 0 <= x < |chain| ==> RowsSayAt(l, chain, x))
    && (forall k :: k in l.rows ==> Indexable(k.addr) && exists x :: 0 <= x < |chain| && chain[x].height == k.height)
    && (forall k {:trigger AssetRowOf(l, k)} :: AssetRowOf(l, k) != [] ==>
          exists x :: 0 <= x < |chain| && chain[x].height == k.height)
  }

  lemma {:induction false} OrderFrom(chain: seq<Block>, k: Key)
    requires chain != []
    ensures forall i :: 0 <= i < |R.Order(chain, k)| ==> R.Order(chain, k)[i] in Last(chain).txs
  {
    PayersFrom(Last(chain).txs, k);
    TakersFrom(chain, Last(chain).txs, k);
  }

  lemma NewRow(l: Ledger, chain: seq<Block>, ext: bool, a: AddrDesc)
    requires chain != [] && RowsOk(l, l.txs) && Indexable(a) && R.RecordsSay(l.txs, chain, ext)
    requires Rowed(l, Last(chain).height, AddrKey(a), R.Order(chain, AddrKey(a)))
    ensures RowOf(l, AddrRow(a, Last(chain).height)) == R.RowFor(chain, a)
  {
    hide R.RecordsSay, RowsOk, R.Order, R.PayPlaces, R.TakePlaces, Indexable;
    var row, ts := RowOf(l, AddrRow(a, Last(chain).height)), R.Order(chain, AddrKey(a));
    forall i | 0 <= i < |ts|
      ensures row[i] == TxIndexes(ts[i].txid, R.PayPlaces(ts[i].vout, a) + R.TakePlaces(chain, ts[i].vin, a))
    {
      NewEntry(l, chain, ext, a, i);
    }
  }

  lemma NewEntry(l: Ledger, chain: seq<Block>, ext: bool, a: AddrDesc, i: nat)
    requires chain != [] && RowsOk(l, l.txs) && Indexable(a) && R.RecordsSay(l.txs, chain, ext)
    requires Rowed(l, Last(chain).height, AddrKey(a), R.Order(chain, AddrKey(a)))
    requires i < |R.Order(chain, AddrKey(a))|
    ensures var row, tx := RowOf(l, AddrRow(a, Last(chain).height)), R.Order(chain, AddrKey(a))[i];
            && i < |row|
            && row[i] == TxIndexes(tx.txid, R.PayPlaces(tx.vout, a) + R.TakePlaces(chain, tx.vin, a))
  {
    hide R.RecordsSay, R.RecordSays, Indexes, R.Order, R.PayPlaces, R.TakePlaces, RowsOk, Indexable;
    var row, ts := RowOf(l, AddrRow(a, Last(chain).height)), R.Order(chain, AddrKey(a));
    OrderFrom(chain, AddrKey(a));
    assert ts[i] in Last(chain).txs;
    var j :| 0 <= j < |Last(chain).txs| && Last(chain).txs[j] == ts[i];
    RecordAt(l.txs, chain, ext, |chain| - 1, j);
    RecordPlaces(l.txs[ts[i].txid], chain, ext, |chain| - 1, j, a);
    assert chain[..|chain|] == chain;
    RowEntry(l, AddrRow(a, Last(chain).height), i);
  }

  lemma RecordAt(txs: TxColumn, chain: seq<Block>, ext: bool, x: nat, j: nat)
    requires R.RecordsSay(txs, chain, ext) && x < |chain| && j < |chain[x].txs|
    ensures chain[x].txs[j].txid in txs && R.RecordSays(txs[chain[x].txs[j].txid], chain, ext, x, j)
  {
  }

  lemma RowEntry(l: Ledger, k: AddrRow, i: nat)
    requires RowsOk(l, l.txs) && Indexable(k.addr) && i < |RowOf(l, k)|
    ensures RowOf(l, k)[i].txid in l.txs && RowOf(l, k)[i].indexes == Indexes(l.txs[RowOf(l, k)[i].txid], k.addr)
  {
    assert RowOk(RowOf(l, k), l.txs, k.addr, k.height);
  }

  lemma RecordPlaces(ta: TxAddresses, chain: seq<Block>, ext: bool, x: nat, j: nat, a: AddrDesc)
    requires x < |chain| && j < |chain[x].txs| && R.RecordSays(ta, chain, ext, x, j) && Indexable(a)
    ensures Indexes(ta, a)
            == R.PayPlaces(chain[x].txs[j].vout, a) + R.TakePlaces(chain[..x + 1], chain[x].txs[j].vin, a)
  {
    PayPlacesSay(ta.outputs, chain[x].txs[j].vout, a);
    TakePlacesSay(ta.inputs, chain[..x + 1], ext, chain[x].txs[j].vin, a);
  }

  lemma NoRowsYet(l: Ledger, h: nat, k: Key)
    requires Inv(l) && NewHeight(l.txs, h) && Countable(k)
    ensures Rowed(l, h, k, [])
  {
    match k
    case AddrKey(a) => EmptyRowAt(l, AddrRow(a, h));
    case HoldingKey(_, _) =>
    case AssetKey(g) => EmptyAssetRowAt(l, AssetRow(g, h));
  }

  /** The rows of a block that was just connected. */
  lemma ConnectedOrder(l: Ledger, ext: bool, b: Block, chain: seq<Block>, k: Key)
    requires OnChain(l, b, chain) && Countable(k)
    ensures Rowed(ConnectBlock(l, ext, b), b.height, k, R.Order(chain + [b], k))
  {
    hide OnChain, Inv, ValidBlock, Process, Rowed, NewHeight, BlockTxsOf, StripBalance;
    OnChainInv(l, b, chain);
    HeightIsNew(l.txs, b);
    NoRowsYet(l, b.height, k);
    BlockOrder(l, b, ext, chain, k);
    RowsKept(Process(l, ext, b), ConnectBlock(l, ext, b), b.height, k, R.Order(chain + [b], k));
  }

  lemma ConnectedRows(l: Ledger, ext: bool, b: Block, chain: seq<Block>)
    requires OnChain(l, b, chain) && Good(l) && R.RecordsSay(l.txs, chain, ext)
    ensures RowsSayAt(ConnectBlock(l, ext, b), chain + [b], |chain|)
  {
    hide OnChain, Good, ValidBlock, ConnectBlock, Extends, R.RecordsSay, BlockOnTop, Rowed, R.RowFor, R.AssetRowFor;
    hide CoinsSay;
    var all, l' := chain + [b], ConnectBlock(l, ext, b);
    OnChainParts(l, b, chain);
    ConnectKeepsGood(l, ext, b);
    ExtendsRecords(l.txs, l'.txs, b, ext, chain);
    GoodRows(l');
    assert all[..|chain| + 1] == all && Last(all) == b;
    forall a | Indexable(a) ensures RowOf(l', AddrRow(a, b.height)) == R.RowFor(all, a) {
      ConnectedOrder(l, ext, b, chain, AddrKey(a));
      NewRow(l', all, ext, a);
    }
    forall g ensures AssetRowOf(l', AssetRow(g, b.height)) == R.AssetRowFor(all, g) {
      ConnectedOrder(l, ext, b, chain, AssetKey(g));
      RowedAsset(l', b.height, g, all);
    }
  }

  lemma RowedAsset(l: Ledger, h: nat, g: Guid, chain: seq<Block>)
    requires chain != [] && Rowed(l, h, AssetKey(g), R.Order(chain, AssetKey(g)))
    ensures AssetRowOf(l, AssetRow(g, h)) == R.AssetRowFor(chain, g)
  {
  }

  lemma OnChainParts(l: Ledger, b: Block, chain: seq<Block>)
    requires OnChain(l, b, chain)
    ensures ValidBlock(l.txs, b) && CoinsSay(l.txs, chain)
  {
  }

  lemma GoodRows(l: Ledger)
    requires Good(l)
    ensures Inv(l) && RowsOk(l, l.txs)
  {
  }

  /** Blocks have different heights. */
  ghost predicate Ascending(chain: seq<Block>) {
    forall x, y :: 0 <= x < y < |chain| ==> chain[x].height < chain[y].height
  }

  lemma {:induction false} ValidAscending(ext: bool, chain: seq<Block>)
    requires ValidChain(ext, chain)
    ensures Ascending(chain)
  {
    if chain != [] { ValidAscending(ext, Front(chain)); }
  }

  /** A row belongs to a block of the chain, as the records do. */
  lemma RowHeights(l: Ledger, chain: seq<Block>, ext: bool)
    requires Inv(l) && R.RecordsSay(l.txs, chain, ext)
    ensures forall k :: k in l.rows ==> Indexable(k.addr) && exists x :: 0 <= x < |chain| && chain[x].height == k.height
    ensures forall k {:trigger AssetRowOf(l, k)} :: AssetRowOf(l, k) != [] ==>
              exists x :: 0 <= x < |chain| && chain[x].height == k.height
  {
    forall k | k in l.rows ensures Indexable(k.addr) && exists x :: 0 <= x < |chain| && chain[x].height == k.height {
      var row := RowOf(l, k);
      assert RowOk(row, l.txs, k.addr, k.height);
      assert Listed(row, row[0].txid);
      RecordHeight(l.txs, chain, ext, row[0].txid);
    }
    forall k | AssetRowOf(l, k) != [] ensures exists x :: 0 <= x < |chain| && chain[x].height == k.height {
      assert AssetListed(AssetRowOf(l, k), AssetRowOf(l, k)[0].txid);
      RecordHeight(l.txs, chain, ext, AssetRowOf(l, k)[0].txid);
    }
  }

  lemma RecordHeight(txs: TxColumn, chain: seq<Block>, ext: bool, t: TxId)
    requires R.RecordsSay(txs, chain, ext) && t in txs
    ensures exists x :: 0 <= x < |chain| && chain[x].height == txs[t].height
  {
    var x, j :| 0 <= x < |chain| && 0 <= j < |chain[x].txs| && chain[x].txs[j].txid == t;
    assert R.RecordSays(txs[t], chain, ext, x, j);
  }

  lemma RowsAfterAdd(n: Node, ext: bool, b: Block)
    requires NodeFit(n, ext) && LegalEvent(n, Add(b)) && RowsSay(n.l, n.chain) && Ascending(n.chain + [b])
    ensures forall x :: 0 <= x < |n.chain + [b]| ==> RowsSayAt(ConnectBlock(n.l, ext, b), n.chain + [b], x)
  {
    hide Good, SameColumn, ConnectBlock, CoinsSay, R.RecordsSay, Inv, RowsSayAt, ValidBlock;
    NodeSays(n, ext);
    AddOnChain(n, ext, b);
    ConnectedRows(n.l, ext, b, n.chain);
    forall x | 0 <= x < |n.chain| ensures RowsSayAt(ConnectBlock(n.l, ext, b), n.chain + [b], x) {
      assert RowsSayAt(n.l, n.chain, x);
      OldRows(n.l, ext, b, n.chain, x);
    }
  }

  lemma AddOnChain(n: Node, ext: bool, b: Block)
    requires NodeFit(n, ext) && LegalEvent(n, Add(b)) && CoinsSay(n.l.txs, n.chain)
    ensures OnChain(n.l, b, n.chain)
  {
  }

  lemma OldRows(l: Ledger, ext: bool, b: Block, chain: seq<Block>, x: nat)
    requires Good(l) && ValidBlock(l.txs, b) && x < |chain| && chain[x].height < b.height && RowsSayAt(l, chain, x)
    ensures RowsSayAt(ConnectBlock(l, ext, b), chain + [b], x)
  {
    hide Inv, Stored, SpendersOk, ConnectBlock, R.RowFor, R.AssetRowFor, NewHeight;
    HeightIsNew(l.txs, b);
    ConnectRows(l, ext, b);
    assert (chain + [b])[..x + 1] == chain[..x + 1];
  }

  /** The records of a fitting node. */
  lemma NodeSays(n: Node, ext: bool)
    requires NodeFit(n, ext)
    ensures R.RecordsSay(n.l.txs, n.chain, ext) && CoinsSay(n.l.txs, n.chain) && Good(n.l) && Inv(n.l)
  {
    hide SameColumn, CoinsSay, R.RecordsSay, ValidChain, Inv, Stored, SpendersOk;
    ReplayRecords(ext, n.chain);
    ReplayCoins(ext, n.chain);
    SameRecords(Replay(ext, n.chain).txs, n.l.txs, n.chain, ext);
    SameCoins(Replay(ext, n.chain).txs, n.l.txs, n.chain);
  }

  lemma AddKeepsRows(n: Node, ext: bool, b: Block)
    requires NodeFit(n, ext) && LegalEvent(n, Add(b)) && RowsSay(n.l, n.chain)
    ensures RowsSay(Step(n, ext, Add(b)).l, n.chain + [b])
  {
    hide NodeFit, LegalEvent, RowsSayAt, ConnectBlock, R.RecordsSay, CoinsSay, Good, Inv;
    AddFits(n, ext, b);
    var n' := Step(n, ext, Add(b));
    FitAscends(n', ext);
    RowsAfterAdd(n, ext, b);
    NodeSays(n', ext);
    RowHeights(n'.l, n'.chain, ext);
  }

  lemma FitAscends(n: Node, ext: bool)
    requires NodeFit(n, ext)
    ensures Ascending(n.chain)
  {
    ValidAscending(ext, n.chain);
  }

  lemma DropKeepsRows(n: Node, ext: bool)
    requires NodeOk(n, ext) && n.chain != [] && RowsSay(n.l, n.chain)
    ensures var n' := Step(n, ext, Drop); RowsSay(n'.l, n'.chain)
  {
    hide NodeFit, Disconnect, R.RecordsSay, CoinsSay, Good, Inv, BlockTxsOf, TakenOut, RowsTakenOut, RowsSayAt;
    hide SameColumn;
    DropColumn(n, ext);
    DropKeepsOk(n, ext);
    FitAscends(n, ext);
    var n' := Step(n, ext, Drop);
    NodeSays(n', ext);
    RowHeights(n'.l, n'.chain, ext);
    forall x | 0 <= x < |n'.chain| ensures RowsSayAt(n'.l, n'.chain, x) {
      assert RowsSayAt(n.l, n.chain, x);
      LowerRows(n.l, n'.l, n.chain, x);
    }
  }

  lemma LowerRows(l: Ledger, l': Ledger, chain: seq<Block>, x: nat)
    requires Ascending(chain) && x < |chain| - 1 && RowsSayAt(l, chain, x) && RowsTakenOut(l, l', Last(chain).height)
    ensures RowsSayAt(l', Front(chain), x)
  {
    hide R.RowFor, R.AssetRowFor;
    assert Front(chain)[..x + 1] == chain[..x + 1];
    assert chain[x].height != Last(chain).height;
  }

  lemma {:induction false} RunRows(ext: bool, es: seq<Event>)
    requires LegalRun(Node(EmptyLedger, []), ext, es)
    ensures var n := Execute(Node(EmptyLedger, []), ext, es); RowsSay(n.l, n.chain)
  {
    hide NodeOk, NodeFit, RowsSayAt, LegalEvent, Inv, SameIndex, Step;
    if es != [] {
      var m := Execute(Node(EmptyLedger, []), ext, es[..|es| - 1]);
      RunRows(ext, es[..|es| - 1]);
      RunIsReplay(ext, es[..|es| - 1]);
      StepRows(m, ext, es[|es| - 1]);
    }
  }

  lemma StepRows(n: Node, ext: bool, e: Event)
    requires NodeOk(n, ext) && LegalEvent(n, e) && RowsSay(n.l, n.chain)
    ensures var n' := Step(n, ext, e); RowsSay(n'.l, n'.chain)
  {
    hide NodeFit, RowsSay, ConnectBlock, Disconnect, HasRecord, ValidBlock;
    match e
    case Add(b) => AddKeepsRows(n, ext, b);
    case Drop => DropKeepsRows(n, ext);
  }

  // ---------------------------------------------------------------- blocks

  ghost function Heights(chain: seq<Block>): set<nat> { set x | 0 <= x < |chain| :: chain[x].height }

  /** The hash and the record of every block of the chain, and no others. */
  ghost predicate BlocksSay(l: Ledger, chain: seq<Block>) {
    && l.heights.Keys == Heights(chain) && l.blockTxs.Keys == Heights(chain)
    && forall x :: 0 <= x < |chain| ==>
         && chain[x].height in Heights(chain)
         && l.heights[chain[x].height] == chain[x].hash && R.BlockSays(l.blockTxs[chain[x].height], chain[x])
  }

  lemma HeightsNext(chain: seq<Block>, b: Block)
    ensures Heights(chain + [b]) == Heights(chain) + {b.height}
  {
    var all := chain + [b];
    forall h | h in Heights(all) ensures h in Heights(chain) + {b.height} {
      var x :| 0 <= x < |all| && all[x].height == h;
      if x < |chain| { assert chain[x].height == h; }
    }
    forall h | h in Heights(chain) + {b.height} ensures h in Heights(all) {
      if h in Heights(chain) {
        var x :| 0 <= x < |chain| && chain[x].height == h;
        assert all[x].height == h;
      } else {
        assert all[|chain|].height == h;
      }
    }
  }

  lemma AddKeepsBlocks(l: Ledger, ext: bool, b: Block, chain: seq<Block>)
    requires BlocksSay(l, chain) && Ascending(chain + [b])
    ensures BlocksSay(ConnectBlock(l, ext, b), chain + [b])
  {
    hide Process, StripAll, R.BlockSays;
    HeightsNext(chain, b);
    var all, l' := chain + [b], ConnectBlock(l, ext, b);
    BlockRecorded(b);
    forall x | 0 <= x < |all|
      ensures && all[x].height in Heights(all)
              && l'.heights[all[x].height] == all[x].hash && R.BlockSays(l'.blockTxs[all[x].height], all[x])
    {
      if x < |chain| { assert all[x] == chain[x] && all[x].height < all[|chain|].height; }
    }
  }

  lemma BlockRecorded(b: Block)
    ensures R.BlockSays(BlockTxsOf(b), b)
  {
  }

  lemma DropKeepsBlocks(l: Ledger, l': Ledger, chain: seq<Block>)
    requires chain != [] && BlocksSay(l, chain) && Ascending(chain)
    requires l'.heights == l.heights - {Last(chain).height} && l'.blockTxs == l.blockTxs - {Last(chain).height}
    ensures BlocksSay(l', Front(chain))
  {
    hide R.BlockSays;
    assert Front(chain) + [Last(chain)] == chain;
    HeightsNext(Front(chain), Last(chain));
    assert Last(chain).height !in Heights(Front(chain)) by {
      forall x | 0 <= x < |Front(chain)| ensures Front(chain)[x].height != Last(chain).height {
        assert chain[x].height < chain[|chain| - 1].height;
      }
    }
    forall x | 0 <= x < |Front(chain)| ensures Front(chain)[x].height in Heights(Front(chain)) { }
  }

  lemma StepBlocks(n: Node, ext: bool, e: Event)
    requires NodeOk(n, ext) && LegalEvent(n, e) && BlocksSay(n.l, n.chain)
    ensures var n' := Step(n, ext, e); BlocksSay(n'.l, n'.chain)
  {
    hide NodeFit, BlocksSay, ConnectBlock, Disconnect, BlockTxsOf, ValidBlock, RowsTakenOut, TakenOut, Good;
    match e
    case Add(b) =>
      AddFits(n, ext, b);
      FitAscends(Step(n, ext, e), ext);
      AddKeepsBlocks(n.l, ext, b, n.chain);
    case Drop =>
      DropColumn(n, ext);
      FitAscends(n, ext);
      TakenOutBlocks(n.l, Disconnect(n.l, Last(n.chain).height).value, Last(n.chain).height);
      DropKeepsBlocks(n.l, Disconnect(n.l, Last(n.chain).height).value, n.chain);
  }

  lemma TakenOutBlocks(l: Ledger, l': Ledger, h: nat)
    requires RowsTakenOut(l, l', h)
    ensures l'.heights == l.heights - {h} && l'.blockTxs == l.blockTxs - {h}
  {
  }

  lemma {:induction false} RunBlocks(ext: bool, es: seq<Event>)
    requires LegalRun(Node(EmptyLedger, []), ext, es)
    ensures var n := Execute(Node(EmptyLedger, []), ext, es); BlocksSay(n.l, n.chain)
  {
    hide NodeOk, LegalEvent, Inv, SameIndex, Step;
    if es != [] {
      RunBlocks(ext, es[..|es| - 1]);
      RunIsReplay(ext, es[..|es| - 1]);
      StepBlocks(Execute(Node(EmptyLedger, []), ext, es[..|es| - 1]), ext, es[|es| - 1]);
    }
  }

  // ---------------------------------------------------------------- amounts

  lemma {:induction false} ReplayAmounts(ext: bool, chain: seq<Block>, k: Key)
    requires ValidChain(ext, chain) && Amounted(k)
    ensures var l := Replay(ext, chain);
            BalanceOf(l, k) + SentOf(l, k) == R.Received(chain, k) && SentOf(l, k) == R.Spent(chain, k)
  {
    if chain != [] {
      var l, b := Replay(ext, Front(chain)), Last(chain);
      ReplayAmounts(ext, Front(chain), k);
      ReplayOnChain(ext, chain);
      hide Good, ValidBlock, Process, OnChain, BalanceOf, SentOf, ConnectBlock, R.TxsPay, R.TxsTake;
      assert Front(chain) + [b] == chain;
      BlockAmounts(l, b, ext, Front(chain), k);
      ConnectAmounts(l, ext, b, k);
    }
  }

  lemma ReplayOnChain(ext: bool, chain: seq<Block>)
    requires ValidChain(ext, chain) && chain != []
    ensures OnChain(Replay(ext, Front(chain)), Last(chain), Front(chain))
  {
    ReplayGood(ext, Front(chain));
    ReplayCoins(ext, Front(chain));
  }

  lemma ConnectAmounts(l: Ledger, ext: bool, b: Block, k: Key)
    requires Amounted(k)
    ensures var p, l' := Process(l, ext, b), ConnectBlock(l, ext, b);
            BalanceOf(l', k) == BalanceOf(p, k) && SentOf(l', k) == SentOf(p, k)
  {
    hide Process, BlockTxsOf;
    StripBal(Process(l, ext, b), k.addr);
    assert Bal(ConnectBlock(l, ext, b), k.addr) == Bal(StripAll(Process(l, ext, b)), k.addr);
  }

  /** Connecting a valid block to any good index stores the values, assets and descriptors of its outputs, and what an
      address or a holding has and what was taken from it grow together by what these outputs pay it. */
  lemma ConnectStates(l: Ledger, ext: bool, b: Block)
    requires Good(l) && ValidBlock(l.txs, b)
    ensures var l' := ConnectBlock(l, ext, b);
            && (forall j, i :: 0 <= j < |b.txs| && 0 <= i < |b.txs[j].vout| ==>
                  OutputStored(l'.txs, b.txs[j].txid, i, b.txs[j].vout[i]))
            && (forall k: Key {:trigger BalanceOf(l', k)} {:trigger SentOf(l', k)} :: Amounted(k) ==>
                  BalanceOf(l', k) + SentOf(l', k) == BalanceOf(l, k) + SentOf(l, k) + R.TxsPay(b.txs, k))
  {
    hide Inv, Stored, SpendersOk, ValidBlock, Process, BalanceOf, SentOf, R.TxsPay, BlockTxsOf, StripBalance;
    var l' := ConnectBlock(l, ext, b);
    forall j, i | 0 <= j < |b.txs| && 0 <= i < |b.txs[j].vout|
      ensures OutputStored(l'.txs, b.txs[j].txid, i, b.txs[j].vout[i])
    {
      BlockRecords(l, b, ext, j, i);
    }
    forall k: Key | Amounted(k)
      ensures BalanceOf(l', k) + SentOf(l', k) == BalanceOf(l, k) + SentOf(l, k) + R.TxsPay(b.txs, k)
    {
      BlockConserves(l, b, ext, k);
      ConnectAmounts(l, ext, b, k);
    }
  }

  /** The record of `t` holds the output with its value, its asset and its descriptor, if that is neither empty nor too
      long. */
  predicate OutputStored(txs: TxColumn, t: TxId, i: int, o: Vout) {
    && t in txs && 0 <= i < |txs[t].outputs|
    && var c := txs[t].outputs[i].coin;
       && c.value == o.value && c.asset == o.asset
       && c.addr == if 1 <= |o.desc.script| <= 1024 then o.desc else AddrDesc([])
  }

  // ---------------------------------------------------------------- counters, lists and presence

  lemma TouchingSays(txs: TxColumn, chain: seq<Block>, ext: bool, k: Key)
    requires R.RecordsSay(txs, chain, ext)
    ensures Touching(txs, k) == R.TouchedBy(chain, k)
  {
    hide R.RecordSays;
    forall t | t in Touching(txs, k) ensures t in R.TouchedBy(chain, k) {
      var x, j :| 0 <= x < |chain| && 0 <= j < |chain[x].txs| && chain[x].txs[j].txid == t;
      RecordHits(txs[t], chain, ext, x, j, k);
    }
    forall t | t in R.TouchedBy(chain, k) ensures t in Touching(txs, k) {
      var x, j :| 0 <= x < |chain| && 0 <= j < |chain[x].txs| && chain[x].txs[j].txid == t
          && (R.TxPays(chain[x].txs[j], k) || R.TxTakes(chain[..x + 1], chain[x].txs[j], k));
      RecordHits(txs[t], chain, ext, x, j, k);
    }
  }

  lemma UnspentSays(txs: TxColumn, chain: seq<Block>, ext: bool, a: AddrDesc, u: Utxo)
    requires R.RecordsSay(txs, chain, ext) && Indexable(a)
    ensures IsUnspent(txs, a, u) <==> R.Unspent(chain, a, u)
  {
    hide R.RecordSays;
    if IsUnspent(txs, a, u) {
      var x, j :| 0 <= x < |chain| && 0 <= j < |chain[x].txs| && chain[x].txs[j].txid == u.txid;
      UnspentAtSays(txs, chain, ext, a, u, x, j);
    }
    if R.Unspent(chain, a, u) {
      var x, j :| 0 <= x < |chain| && 0 <= j < |chain[x].txs| && R.UnspentAt(chain, a, u, x, j);
      UnspentAtSays(txs, chain, ext, a, u, x, j);
    }
  }

  lemma UnspentAtSays(txs: TxColumn, chain: seq<Block>, ext: bool, a: AddrDesc, u: Utxo, x: nat, j: nat)
    requires R.RecordsSay(txs, chain, ext) && Indexable(a)
    requires x < |chain| && j < |chain[x].txs| && chain[x].txs[j].txid == u.txid
    ensures IsUnspent(txs, a, u) <==> R.UnspentAt(chain, a, u, x, j)
  {
    RecordAt(txs, chain, ext, x, j);
    hide R.RecordsSay;
    var ta, tx := txs[u.txid], chain[x].txs[j];
    if 0 <= u.vout < |tx.vout| {
      assert R.Says(ta.outputs[u.vout].coin, tx.vout[u.vout]);
      SaysHits(ta.outputs[u.vout].coin, tx.vout[u.vout], AddrKey(a));
      if ta.outputs[u.vout].coin.addr.script != [] {
        assert R.MarkSays(ta.outputs[u.vout], chain, ext, x, OutPoint(tx.txid, u.vout));
      }
    }
  }

  /** All that a chain says of its index. */
  ghost predicate IndexSays(l: Ledger, chain: seq<Block>, ext: bool) {
    && R.RecordsSay(l.txs, chain, ext)
    && RowsSay(l, chain) && BlocksSay(l, chain)
    && (forall k: Key {:trigger BalanceOf(l, k)} {:trigger SentOf(l, k)} :: Amounted(k) ==>
          BalanceOf(l, k) + SentOf(l, k) == R.Received(chain, k) && SentOf(l, k) == R.Spent(chain, k))
    && (forall k {:trigger CountOf(l, k)} :: Countable(k) ==> CountOf(l, k) == |R.TouchedBy(chain, k)|)
    && (forall a, u :: Indexable(a) ==> (u in U.LiveSet(Bal(l, a).utxos.slots) <==> R.Unspent(chain, a, u)))
    && (forall a :: a in l.bals <==> Indexable(a) && R.TouchedBy(chain, AddrKey(a)) != {})
  }

  lemma PresenceSays(l: Ledger, chain: seq<Block>, ext: bool, a: AddrDesc)
    requires Inv(l) && R.RecordsSay(l.txs, chain, ext)
    ensures a in l.bals <==> Indexable(a) && R.TouchedBy(chain, AddrKey(a)) != {}
  {
    TouchingSays(l.txs, chain, ext, AddrKey(a));
    assert Countable(AddrKey(a)) ==> CountOf(l, AddrKey(a)) == |Touching(l.txs, AddrKey(a))|;
  }

  lemma ListSays(l: Ledger, chain: seq<Block>, ext: bool, a: AddrDesc, u: Utxo)
    requires Inv(l) && R.RecordsSay(l.txs, chain, ext) && Indexable(a)
    ensures u in U.LiveSet(Bal(l, a).utxos.slots) <==> R.Unspent(chain, a, u)
  {
    UnspentSays(l.txs, chain, ext, a, u);
    assert ListOk(Bal(l, a).utxos, l.txs, a);
  }

  lemma CountSays(l: Ledger, chain: seq<Block>, ext: bool, k: Key)
    requires Inv(l) && R.RecordsSay(l.txs, chain, ext) && Countable(k)
    ensures CountOf(l, k) == |R.TouchedBy(chain, k)|
  {
    TouchingSays(l.txs, chain, ext, k);
  }

  /** In every reachable state the index says what the surviving blocks say. */
  lemma RunSaysChain(ext: bool, es: seq<Event>)
    requires LegalRun(Node(EmptyLedger, []), ext, es)
    ensures var n := Execute(Node(EmptyLedger, []), ext, es); IndexSays(n.l, n.chain, ext)
  {
    hide Inv, R.RecordsSay, RowsSay, NodeFit, Execute, Replay, BalanceOf, SentOf, CountOf, SameColumn;
    hide BlocksSay, R.Unspent, R.TouchedBy, R.Received, R.Spent;
    var n := Execute(Node(EmptyLedger, []), ext, es);
    RunIsReplay(ext, es);
    RunRows(ext, es);
    RunBlocks(ext, es);
    NodeSays(n, ext);
    forall k: Key | Amounted(k)
      ensures BalanceOf(n.l, k) + SentOf(n.l, k) == R.Received(n.chain, k) && SentOf(n.l, k) == R.Spent(n.chain, k)
    {
      FitValid(n, ext);
      ReplayAmounts(ext, n.chain, k);
    }
    forall k | Countable(k) ensures CountOf(n.l, k) == |R.TouchedBy(n.chain, k)| { CountSays(n.l, n.chain, ext, k); }
    forall a, u | Indexable(a) ensures u in U.LiveSet(Bal(n.l, a).utxos.slots) <==> R.Unspent(n.chain, a, u) {
      ListSays(n.l, n.chain, ext, a, u);
    }
    forall a ensures a in n.l.bals <==> Indexable(a) && R.TouchedBy(n.chain, AddrKey(a)) != {} {
      PresenceSays(n.l, n.chain, ext, a);
    }
  }

  lemma FitValid(n: Node, ext: bool)
    requires NodeFit(n, ext)
    ensures ValidChain(ext, n.chain)
  {
  }
}
