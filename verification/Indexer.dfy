// The index as it is kept: columns on disk, maps in memory that are filled while a block is
// folded in and drained by flushes, and the persisted state that guards a bulk import.
module Indexer {
  import opened Types
  import opened UtxoIndex
  import opened LedgerModel
  import opened Overlay

  datatype DbState = Open | Inconsistent

  /** The columns overlaid by what is cached or pending. */
  ghost function Merge(db: Ledger, txs: map<TxId, TxAddresses>, bals: map<AddrDesc, AddrBalance>,
                       assets: map<Guid, int>, assetRows: map<AssetRow, seq<AssetTx>>, bulk: seq<Pending>): Ledger
  {
    Ledger(db.txs + txs, db.bals + bals, db.rows + PendingRows(bulk), db.assets + assets, db.assetRows + assetRows,
           db.blockTxs, db.heights + PendingHeights(bulk))
  }

  lemma MergeTx(db: Ledger, txs: map<TxId, TxAddresses>, bals: map<AddrDesc, AddrBalance>, assets: map<Guid, int>,
                assetRows: map<AssetRow, seq<AssetTx>>, bulk: seq<Pending>, t: TxId, ta: TxAddresses)
    ensures var v := Merge(db, txs, bals, assets, assetRows, bulk);
            Merge(db, txs[t := ta], bals, assets, assetRows, bulk) == v.(txs := v.txs[t := ta])
  {
    OverlayPut(db.txs, txs, t, ta);
  }

  lemma MergeBalance(db: Ledger, txs: map<TxId, TxAddresses>, bals: map<AddrDesc, AddrBalance>, assets: map<Guid, int>,
                     assetRows: map<AssetRow, seq<AssetTx>>, bulk: seq<Pending>, a: AddrDesc, b: AddrBalance)
    ensures var v := Merge(db, txs, bals, assets, assetRows, bulk);
            Merge(db, txs, bals[a := b], assets, assetRows, bulk) == v.(bals := v.bals[a := b])
  {
    OverlayPut(db.bals, bals, a, b);
  }

  lemma MergeAsset(db: Ledger, txs: map<TxId, TxAddresses>, bals: map<AddrDesc, AddrBalance>, assets: map<Guid, int>,
                   assetRows: map<AssetRow, seq<AssetTx>>, bulk: seq<Pending>, g: Guid, n: int, key: AssetRow,
                   row: seq<AssetTx>)
    ensures var v := Merge(db, txs, bals, assets, assetRows, bulk);
            Merge(db, txs, bals, assets[g := n], assetRows[key := row], bulk)
            == v.(assets := v.assets[g := n], assetRows := v.assetRows[key := row])
  {
    OverlayPut(db.assets, assets, g, n);
    OverlayPut(db.assetRows, assetRows, key, row);
  }

  class Indexer {
    const ext: bool
    // columns on disk
    var db: Ledger
    var state: DbState
    // what was read or changed and is not written yet
    var txAddressesMap: map<TxId, TxAddresses>
    var balances: map<AddrDesc, AddrBalance>
    var assets: map<Guid, int>
    var txAssets: map<AssetRow, seq<AssetTx>>
    var bulkAddresses: seq<Pending>
    var bulkAddressesCount: nat

    constructor (ext: bool)
      ensures this.ext == ext && db == EmptyLedger && state == Open
      ensures txAddressesMap == map[] && balances == map[] && assets == map[] && txAssets == map[]
              && bulkAddresses == []
    {
      this.ext := ext;
      db := EmptyLedger;
      state := Open;
      txAddressesMap, balances, assets, txAssets, bulkAddresses := map[], map[], map[], map[], [];
      bulkAddressesCount := 0;
    }

    /** What a reader that looks into the caches first sees. */
    ghost function View(): Ledger
      reads this
    {
      Merge(db, txAddressesMap, balances, assets, txAssets, bulkAddresses)
    }

    /** The same with the history rows of the block at hand. */
    ghost function ViewWith(addresses: map<AddrDesc, seq<TxIndexes>>, h: nat): Ledger
      reads this
    {
      View().(rows := View().rows + BlockRows(addresses, h))
    }

    /** Nothing is on disk for height `h`. */
    ghost predicate FreshHeight(h: nat)
      reads this`db, this`bulkAddresses
    {
      var rows := db.rows + PendingRows(bulkAddresses);
      && (forall g :: AssetRow(g, h) in db.assetRows ==> db.assetRows[AssetRow(g, h)] == [])
      && (forall a :: AddrRow(a, h) in rows ==> rows[AddrRow(a, h)] == [])
    }

    /** Asset rows enter the cache only for the height at hand. */
    ghost predicate AssetKeys(was: map<AssetRow, seq<AssetTx>>, h: nat)
      reads this`txAssets
    {
      forall k :: k in txAssets ==> k in was || k.height == h
    }

    // -------------------------------------------------------------- reading through the caches

    function CachedBalance(a: AddrDesc): (b: AddrBalance)
      reads this
      ensures b == Bal(View(), a)
    {
      if a in balances then balances[a] else if a in db.bals then db.bals[a] else NoBalance
    }

    function CachedTx(t: TxId): (r: Option<TxAddresses>)
      reads this
      ensures r.Some? <==> t in View().txs
      ensures r.Some? ==> r.value == View().txs[t]
    {
      if t in txAddressesMap then Some(txAddressesMap[t]) else if t in db.txs then Some(db.txs[t]) else None
    }

    function CachedAssetCount(g: Guid): (n: int)
      reads this
      ensures n == AssetTxCount(View(), g)
    {
      if g in assets then assets[g] else if g in db.assets then db.assets[g] else 0
    }

    // -------------------------------------------------------------- per-block maps

    /** Returns whether the transaction was listed before, to not count it twice. */
    static method AddToAddressesMap(addresses: map<AddrDesc, seq<TxIndexes>>, a: AddrDesc, t: TxId, index: int)
      returns (r: map<AddrDesc, seq<TxIndexes>>, counted: bool)
      ensures var row := if a in addresses then addresses[a] else [];
              r == addresses[a := AddIndex(row, t, index)] && counted == Listed(row, t)
    {
      var at := if a in addresses then addresses[a] else [];
      var i := 0;
      while i < |at|
        invariant 0 <= i <= |at| && FindEntry(at, t, 0) == FindEntry(at, t, i)
      {
        if at[i].txid == t {
          return addresses[a := at[i := TxIndexes(t, at[i].indexes + [index])]], true;
        }
        i := i + 1;
      }
      return addresses[a := at + [TxIndexes(t, [index])]], false;
    }

    method AddToAssetsMap(g: Guid, t: TxId, version: int, h: nat) returns (counted: bool)
      modifies this`txAssets
      ensures var row := if AssetRow(g, h) in old(txAssets) then old(txAssets)[AssetRow(g, h)] else [];
              && counted == AssetListed(row, t)
              && txAssets == if counted
                   then old(txAssets) else old(txAssets)[AssetRow(g, h) := row + [AssetTx(t, version)]]
    {
      var key := AssetRow(g, h);
      var at := if key in txAssets then txAssets[key] else [];
      var i := 0;
      while i < |at|
        invariant 0 <= i <= |at| && forall k :: 0 <= k < i ==> at[k].txid != t
      {
        if at[i].txid == t {
          return true;
        }
        i := i + 1;
      }
      txAssets := txAssets[key := at + [AssetTx(t, version)]];
      return false;
    }

    /** The row of an asset in the block at hand is the one that is being built. */
    lemma AssetRowAtHand(g: Guid, h: nat)
      requires FreshHeight(h)
      ensures var key := AssetRow(g, h);
              AssetRowOf(View(), key) == if key in txAssets then txAssets[key] else []
    {
    }

    /** The asset row of the block and the asset's transaction counter, in the caches. */
    method CountAssetTx(g: Guid, t: TxId, version: int, h: nat)
      requires FreshHeight(h)
      modifies this`assets, this`txAssets
      ensures var v, key := old(View()), AssetRow(g, h);
              var row := AssetRowOf(v, key);
              var counted := AssetListed(row, t);
              View() == v.(assetRows := v.assetRows[key := if counted then row else row + [AssetTx(t, version)]],
                           assets := if counted then v.assets else v.assets[g := AssetTxCount(v, g) + 1])
      ensures AssetKeys(old(txAssets), h)
    {
      hide Merge, FreshHeight;
      ghost var v, key := View(), AssetRow(g, h);
      ghost var row := AssetRowOf(v, key);
      AssetRowAtHand(g, h);
      var count := CachedAssetCount(g);
      var counted := AddToAssetsMap(g, t, version, h);
      if !counted {
        assets := assets[g := count + 1];
        MergeAsset(db, txAddressesMap, balances, old(assets), old(txAssets), bulkAddresses, g, count + 1, key,
            row + [AssetTx(t, version)]);
      } else {
        assert v.assetRows[key := row] == v.assetRows;
      }
    }

    /** The balance side of an allocation; amounts never stay negative. */
    static method MoveAllocation(ab: AssetBalance, value: nat, spend: bool, counted: bool) returns (r: AssetBalance)
      ensures r.transfers == ab.transfers + OneIf(!counted)
      ensures spend ==>
              r.sent == ab.sent + value && r.balance == if ab.balance - value < 0 then 0 else ab.balance - value
      ensures !spend ==> r.sent == ab.sent && r.balance == ab.balance + value
    {
      r := ab;
      if !counted {
        r := r.(transfers := r.transfers + 1);
      }
      if spend {
        r := r.(balance := r.balance - value);
        if r.balance < 0 {
          r := r.(balance := 0);
        }
        r := r.(sent := r.sent + value);
      } else {
        r := r.(balance := r.balance + value);
      }
    }

    /** ConnectAllocationOutput and, with `spend`, ConnectAllocationInput; nothing to do without an asset. */
    method ConnectAllocation(h: nat, t: TxId, version: int, a: AddrDesc, b: AddrBalance, info: Option<AssetInfo>,
                             spend: bool, moved: set<Moved>)
      returns (b': AddrBalance, moved': set<Moved>)
      requires FreshHeight(h)
      modifies this`assets, this`txAssets
      ensures var p := ConnectAssetOpt(Work(old(View()), moved), h, t, version, a, b, info, spend);
              View() == p.0.l && moved' == p.0.moved && b' == p.1
      ensures AssetKeys(old(txAssets), h)
    {
      hide View;
      if info.None? {
        return b, moved;
      }
      var g := info.value.guid;
      CountAssetTx(g, t, version, h);
      var ab := MoveAllocation(AssetBal(b, g), info.value.value, spend, Moved(g, t, a) in moved);
      moved' := moved + {Moved(g, t, a)};
      b' := b.(assets := b.assets[g := ab]);
    }

    // -------------------------------------------------------------- outputs and inputs

    /** One output: its record, and if its address is indexed the balance, the UTXO list and the history row. */
    method ConnectOutput(b: Block, tx: Tx, i: nat, addresses: map<AddrDesc, seq<TxIndexes>>, moved: set<Moved>)
      returns (addresses': map<AddrDesc, seq<TxIndexes>>, moved': set<Moved>)
      requires FreshHeight(b.height) && i < |tx.vout|
      requires tx.txid in txAddressesMap && i < |txAddressesMap[tx.txid].outputs|
      modifies this`txAddressesMap, this`balances, this`assets, this`txAssets
      ensures Work(ViewWith(addresses', b.height), moved')
              == AddOutput(Work(old(ViewWith(addresses, b.height)), moved), b, tx, i)
      ensures txAddressesMap.Keys == old(txAddressesMap).Keys
      ensures |txAddressesMap[tx.txid].outputs| == |old(txAddressesMap)[tx.txid].outputs|
      ensures AssetKeys(old(txAssets), b.height)
    {
      var c, t, h := CoinOf(tx.vout[i]), tx.txid, b.height;
      ghost var v := View();
      ghost var rows := v.rows + BlockRows(addresses, h);
      txAddressesMap := SetOutput(txAddressesMap, t, i, TxOutput(c, false, None));
      MergeOutput(db, old(txAddressesMap), balances, assets, txAssets, bulkAddresses, t, i, TxOutput(c, false, None));
      OutputOnRows(v, View(), rows, moved, b, tx, i);
      hide Merge, View, Receive, AddOutput;
      addresses', moved' := addresses, moved;
      if Indexable(c.addr) {
        addresses', moved' := ReceiveCoin(h, t, tx.version, c, i, addresses, moved);
      }
    }

    /** The row of an address in the block at hand is the one that is being built. */
    lemma RowAtHand(addresses: map<AddrDesc, seq<TxIndexes>>, a: AddrDesc, h: nat)
      requires FreshHeight(h)
      ensures RowOf(ViewWith(addresses, h), AddrRow(a, h)) == if a in addresses then addresses[a] else []
    {
    }

    /** Lists the transaction under the address and puts the balance into the cache. */
    method StoreCoin(h: nat, t: TxId, a: AddrDesc, b: AddrBalance, index: int,
                     addresses: map<AddrDesc, seq<TxIndexes>>, ghost moved: set<Moved>)
      returns (addresses': map<AddrDesc, seq<TxIndexes>>)
      requires FreshHeight(h)
      modifies this`balances
      ensures Work(ViewWith(addresses', h), moved)
              == StoreTouched(Work(old(ViewWith(addresses, h)), moved), h, t, a, b, index)
    {
      hide AddIndex, Listed, Merge, FreshHeight, BlockRows;
      ghost var v, key := View(), AddrRow(a, h);
      ghost var rows := v.rows + BlockRows(addresses, h);
      ghost var row := if a in addresses then addresses[a] else [];
      RowAtHand(addresses, a, h);
      var counted;
      addresses', counted := AddToAddressesMap(addresses, a, t, index);
      var balance := b;
      if !counted {
        balance := balance.(txs := balance.txs + 1);
      }
      balances := balances[a := balance];
      MergeBalance(db, txAddressesMap, old(balances), assets, txAssets, bulkAddresses, a, balance);
      BlockRowsPut(addresses, h, a, AddIndex(row, t, index));
      OverlayPut(v.rows, BlockRows(addresses, h), key, AddIndex(row, t, index));
      assert ViewWith(addresses', h) == v.(rows := rows[key := AddIndex(row, t, index)], bals := v.bals[a := balance]);
    }

    method ReceiveCoin(h: nat, t: TxId, version: int, c: Coin, i: nat, addresses: map<AddrDesc, seq<TxIndexes>>,
                       moved: set<Moved>)
      returns (addresses': map<AddrDesc, seq<TxIndexes>>, moved': set<Moved>)
      requires FreshHeight(h)
      modifies this`balances, this`assets, this`txAssets
      ensures Work(ViewWith(addresses', h), moved')
              == Receive(Work(old(ViewWith(addresses, h)), moved), h, t, version, c, i)
      ensures AssetKeys(old(txAssets), h)
    {
      hide View, ConnectAssetOpt, StoreTouched, Append, Receive;
      ghost var v := View();
      ghost var rows := v.rows + BlockRows(addresses, h);
      var balance := CachedBalance(c.addr);
      balance := balance.(balance := balance.balance + c.value);
      AssetOnRows(v, rows, moved, h, t, version, c.addr, balance, c.asset, false);
      balance, moved' := ConnectAllocation(h, t, version, c.addr, balance, c.asset, false, moved);
      balance := balance.(utxos := Append(balance.utxos, Utxo(t, i, h, c.value, c.asset)));
      addresses' := StoreCoin(h, t, c.addr, balance, i, addresses, moved');
      ReceiveOnRows(v, rows, moved, h, t, version, c, i);
    }

    method SpendCoin(h: nat, t: TxId, version: int, c: Coin, op: OutPoint, i: nat,
                     addresses: map<AddrDesc, seq<TxIndexes>>, moved: set<Moved>)
      returns (addresses': map<AddrDesc, seq<TxIndexes>>, moved': set<Moved>)
      requires FreshHeight(h)
      modifies this`balances, this`assets, this`txAssets
      ensures Work(ViewWith(addresses', h), moved')
              == Spend(Work(old(ViewWith(addresses, h)), moved), h, t, version, c, op, i)
      ensures AssetKeys(old(txAssets), h)
    {
      hide View, ConnectAssetOpt, StoreTouched, MarkSpent, Spend;
      ghost var v := View();
      ghost var rows := v.rows + BlockRows(addresses, h);
      var balance := CachedBalance(c.addr);
      var utxos := MarkSpent(balance.utxos, op.txid, op.vout);
      var left, sent := balance.balance - c.value, balance.sent + c.value;
      if left < 0 {
        left := 0;
      }
      AssetOnRows(v, rows, moved, h, t, version, c.addr, balance, c.asset, true);
      balance, moved' := ConnectAllocation(h, t, version, c.addr, balance, c.asset, true, moved);
      balance := balance.(utxos := utxos, balance := left, sent := sent);
      addresses' := StoreCoin(h, t, c.addr, balance, -1 - i, addresses, moved');
      SpendOnRows(v, rows, moved, h, t, version, c, op, i);
    }

    /** One input: the output it names is marked spent and, if indexed, taken from its address. Inputs without txid, of
        unknown transactions or out of bounds stay blank. */
    method ConnectInput(b: Block, tx: Tx, i: nat, addresses: map<AddrDesc, seq<TxIndexes>>, moved: set<Moved>)
      returns (addresses': map<AddrDesc, seq<TxIndexes>>, moved': set<Moved>)
      requires FreshHeight(b.height) && i < |tx.vin|
      requires tx.txid in txAddressesMap && i < |txAddressesMap[tx.txid].inputs|
      modifies this`txAddressesMap, this`balances, this`assets, this`txAssets
      ensures Work(ViewWith(addresses', b.height), moved')
              == SpendInput(Work(old(ViewWith(addresses, b.height)), moved), ext, b, tx, i)
      ensures old(txAddressesMap).Keys <= txAddressesMap.Keys
      ensures |txAddressesMap[tx.txid].inputs| == |old(txAddressesMap)[tx.txid].inputs|
      ensures AssetKeys(old(txAssets), b.height)
    {
      hide View, Spend, FreshHeight, SpendInput, Source, BlockRows;
      addresses', moved' := addresses, moved;
      ghost var v := View();
      ghost var rows := v.rows + BlockRows(addresses, b.height);
      if tx.vin[i].None? {
        InputSkipped(Work(v.(rows := rows), moved), ext, b, tx, i);
        return;
      }
      var op := tx.vin[i].value;
      var ita := CachedTx(op.txid);
      SourceOnRows(v, rows, op);
      if ita.None? || op.vout >= |ita.value.outputs| {
        InputSkipped(Work(v.(rows := rows), moved), ext, b, tx, i);
        return;
      }
      var c := ita.value.outputs[op.vout].coin;
      MarkTaken(b, tx, i, op, ita.value);
      InputOnRows(v, View(), rows, moved, ext, b, tx, i);
      if Indexable(c.addr) {
        addresses', moved' := SpendCoin(b.height, tx.txid, tx.version, c, op, i, addresses, moved);
      }
    }

    /** The records of an input and of the output it takes. */
    method MarkTaken(b: Block, tx: Tx, i: nat, op: OutPoint, ita: TxAddresses)
      requires tx.txid in txAddressesMap && CachedTx(op.txid) == Some(ita) && op.vout < |ita.outputs|
      modifies this`txAddressesMap
      ensures var o := ita.outputs[op.vout];
              var o' := TxOutput(o.coin, true, if ext then Some(SpendRef(tx.txid, i, b.height)) else o.spender);
              View() == old(View()).(txs := SetInput(SetOutput(old(View()).txs, op.txid, op.vout, o'), tx.txid, i,
                                                     TxInput(o.coin, if ext then Some(op) else None)))
      ensures old(txAddressesMap).Keys <= txAddressesMap.Keys
      ensures |txAddressesMap[tx.txid].inputs| == |old(txAddressesMap)[tx.txid].inputs|
    {
      hide Merge, SetInput, SetOutput;
      var t, o := tx.txid, ita.outputs[op.vout];
      var o' := TxOutput(o.coin, true, if ext then Some(SpendRef(t, i, b.height)) else o.spender);
      var input := TxInput(o.coin, if ext then Some(op) else None);
      txAddressesMap := FillInput(txAddressesMap, t, i, input, op, ita, o');
      MergeInput(db, old(txAddressesMap), balances, assets, txAssets, bulkAddresses, t, i, input, op, ita, o');
    }

    // -------------------------------------------------------------- a block

    method BlankTx(b: Block, tx: Tx, ghost addresses: map<AddrDesc, seq<TxIndexes>>, ghost moved: set<Moved>)
      modifies this`txAddressesMap
      ensures Work(ViewWith(addresses, b.height), moved)
              == NewTx(Work(old(ViewWith(addresses, b.height)), moved), b, tx)
      ensures txAddressesMap.Keys == old(txAddressesMap).Keys + {tx.txid}
      ensures |txAddressesMap[tx.txid].outputs| == |tx.vout|
    {
      hide Merge;
      var ta := TxAddresses(b.height, tx.version, [], seq(|tx.vout|, i => NoOutput));
      txAddressesMap := txAddressesMap[tx.txid := ta];
      MergeTx(db, old(txAddressesMap), balances, assets, txAssets, bulkAddresses, tx.txid, ta);
    }

    method BlankInputs(tx: Tx, ghost h: nat, ghost addresses: map<AddrDesc, seq<TxIndexes>>, ghost moved: set<Moved>)
      requires tx.txid in txAddressesMap
      modifies this`txAddressesMap
      ensures Work(ViewWith(addresses, h), moved) == NewInputs(Work(old(ViewWith(addresses, h)), moved), tx)
      ensures txAddressesMap.Keys == old(txAddressesMap).Keys
      ensures |txAddressesMap[tx.txid].inputs| == |tx.vin|
    {
      assert View().txs[tx.txid] == txAddressesMap[tx.txid];
      hide Merge;
      var ta := txAddressesMap[tx.txid].(inputs := seq(|tx.vin|, i => NoInput));
      txAddressesMap := txAddressesMap[tx.txid := ta];
      MergeTx(db, old(txAddressesMap), balances, assets, txAssets, bulkAddresses, tx.txid, ta);
    }

    /** The outputs of one transaction, after those of the transactions before it. */
    method ConnectOutputs(ghost l: Ledger, b: Block, j: nat, addresses: map<AddrDesc, seq<TxIndexes>>,
                          moved: set<Moved>)
      returns (addresses': map<AddrDesc, seq<TxIndexes>>, moved': set<Moved>)
      requires FreshHeight(b.height) && j < |b.txs|
      requires Work(ViewWith(addresses, b.height), moved) == OutputsDone(l, b, j)
      modifies this`txAddressesMap, this`balances, this`assets, this`txAssets
      ensures Work(ViewWith(addresses', b.height), moved') == OutputsAt(l, b, j, |b.txs[j].vout|)
      ensures old(txAddressesMap).Keys + {b.txs[j].txid} <= txAddressesMap.Keys
      ensures AssetKeys(old(txAssets), b.height)
    {
      hide View, ViewWith, NewTx, AddOutput, FreshHeight;
      var tx := b.txs[j];
      BlankTx(b, tx, addresses, moved);
      addresses', moved' := addresses, moved;
      for i := 0 to |tx.vout|
        invariant Work(ViewWith(addresses', b.height), moved') == OutputsAt(l, b, j, i)
        invariant AssetKeys(old(txAssets), b.height)
        invariant old(txAddressesMap).Keys + {tx.txid} <= txAddressesMap.Keys
        invariant |txAddressesMap[tx.txid].outputs| == |tx.vout|
      {
        addresses', moved' := ConnectOutput(b, tx, i, addresses', moved');
      }
    }

    method ConnectInputs(ghost l: Ledger, b: Block, j: nat, addresses: map<AddrDesc, seq<TxIndexes>>, moved: set<Moved>)
      returns (addresses': map<AddrDesc, seq<TxIndexes>>, moved': set<Moved>)
      requires FreshHeight(b.height) && j < |b.txs| && b.txs[j].txid in txAddressesMap
      requires Work(ViewWith(addresses, b.height), moved) == InputsDone(l, ext, b, j)
      modifies this`txAddressesMap, this`balances, this`assets, this`txAssets
      ensures Work(ViewWith(addresses', b.height), moved') == InputsAt(l, ext, b, j, |b.txs[j].vin|)
      ensures old(txAddressesMap).Keys <= txAddressesMap.Keys
      ensures AssetKeys(old(txAssets), b.height)
    {
      hide View, ViewWith, NewInputs, SpendInput, FreshHeight;
      var tx := b.txs[j];
      BlankInputs(tx, b.height, addresses, moved);
      addresses', moved' := addresses, moved;
      for i := 0 to |tx.vin|
        invariant Work(ViewWith(addresses', b.height), moved') == InputsAt(l, ext, b, j, i)
        invariant AssetKeys(old(txAssets), b.height)
        invariant old(txAddressesMap).Keys <= txAddressesMap.Keys
        invariant |txAddressesMap[tx.txid].inputs| == |tx.vin|
      {
        addresses', moved' := ConnectInput(b, tx, i, addresses', moved');
      }
    }

    lemma NothingTouched(h: nat)
      ensures ViewWith(map[], h) == View()
    {
      hide View;
      NoRows(View(), h);
    }

    method ConnectAllOutputs(b: Block) returns (addresses: map<AddrDesc, seq<TxIndexes>>, moved: set<Moved>)
      requires FreshHeight(b.height)
      modifies this`txAddressesMap, this`balances, this`assets, this`txAssets
      ensures Work(ViewWith(addresses, b.height), moved) == OutputsDone(old(View()), b, |b.txs|)
      ensures forall k :: 0 <= k < |b.txs| ==> b.txs[k].txid in txAddressesMap
      ensures AssetKeys(old(txAssets), b.height)
    {
      hide View, ViewWith, FreshHeight, OutputsAt;
      addresses, moved := map[], {};
      ghost var l := View();
      NothingTouched(b.height);
      for j := 0 to |b.txs|
        invariant Work(ViewWith(addresses, b.height), moved) == OutputsDone(l, b, j)
        invariant AssetKeys(old(txAssets), b.height)
        invariant forall k :: 0 <= k < j ==> b.txs[k].txid in txAddressesMap
      {
        addresses, moved := ConnectOutputs(l, b, j, addresses, moved);
      }
    }

    /** Folds a block into the caches: all outputs first, then all inputs. */
    method ProcessAddresses(b: Block) returns (addresses: map<AddrDesc, seq<TxIndexes>>)
      requires FreshHeight(b.height)
      modifies this`txAddressesMap, this`balances, this`assets, this`txAssets
      ensures ViewWith(addresses, b.height) == Process(old(View()), ext, b)
      ensures AssetKeys(old(txAssets), b.height)
    {
      hide View, ViewWith, FreshHeight, OutputsDone, InputsAt;
      ghost var l := View();
      var moved;
      addresses, moved := ConnectAllOutputs(b);
      for j := 0 to |b.txs|
        invariant Work(ViewWith(addresses, b.height), moved) == InputsDone(l, ext, b, j)
        invariant AssetKeys(old(txAssets), b.height)
        invariant forall k :: 0 <= k < |b.txs| ==> b.txs[k].txid in txAddressesMap
      {
        addresses, moved := ConnectInputs(l, b, j, addresses, moved);
      }
    }
  }

  /** The two records an input touches: the spent output, cached or just read, and the input itself. */
  function FillInput(txs: map<TxId, TxAddresses>, t: TxId, i: nat, input: TxInput, op: OutPoint, sa: TxAddresses,
                     o: TxOutput)
    : (r: map<TxId, TxAddresses>)
    requires op.vout < |sa.outputs|
    ensures txs.Keys <= r.Keys
    ensures t in txs && (op.txid in txs ==> txs[op.txid] == sa) ==> |r[t].inputs| == |txs[t].inputs|
  {
    SetInput(txs[op.txid := sa.(outputs := sa.outputs[op.vout := o])], t, i, input)
  }

  lemma MergeOutput(db: Ledger, txs: map<TxId, TxAddresses>, bals: map<AddrDesc, AddrBalance>, assets: map<Guid, int>,
                    assetRows: map<AssetRow, seq<AssetTx>>, bulk: seq<Pending>, t: TxId, i: nat, o: TxOutput)
    requires t in txs
    ensures var v := Merge(db, txs, bals, assets, assetRows, bulk);
            Merge(db, SetOutput(txs, t, i, o), bals, assets, assetRows, bulk) == v.(txs := SetOutput(v.txs, t, i, o))
  {
    if i < |txs[t].outputs| {
      MergeTx(db, txs, bals, assets, assetRows, bulk, t, txs[t].(outputs := txs[t].outputs[i := o]));
    }
  }

  lemma MergeInput(db: Ledger, txs: map<TxId, TxAddresses>, bals: map<AddrDesc, AddrBalance>, assets: map<Guid, int>,
                   assetRows: map<AssetRow, seq<AssetTx>>, bulk: seq<Pending>,
                   t: TxId, i: nat, input: TxInput, op: OutPoint, sa: TxAddresses, o: TxOutput)
    requires t in txs && op.vout < |sa.outputs|
    requires var v := Merge(db, txs, bals, assets, assetRows, bulk); op.txid in v.txs && v.txs[op.txid] == sa
    ensures var v := Merge(db, txs, bals, assets, assetRows, bulk);
            Merge(db, FillInput(txs, t, i, input, op, sa, o), bals, assets, assetRows, bulk)
            == v.(txs := SetInput(SetOutput(v.txs, op.txid, op.vout, o), t, i, input))
  {
    var v := Merge(db, txs, bals, assets, assetRows, bulk);
    var sa' := sa.(outputs := sa.outputs[op.vout := o]);
    MergeTx(db, txs, bals, assets, assetRows, bulk, op.txid, sa');
    var mid := txs[op.txid := sa'];
    assert v.txs[op.txid := sa'][t] == mid[t];
    if i < |mid[t].inputs| {
      MergeTx(db, mid, bals, assets, assetRows, bulk, t, mid[t].(inputs := mid[t].inputs[i := input]));
    }
  }

  /** The asset part of a step does not look at history rows. */
  lemma AssetOnRows(v: Ledger, rows: map<AddrRow, seq<TxIndexes>>, moved: set<Moved>, h: nat, t: TxId, version: int,
                    a: AddrDesc, b: AddrBalance, info: Option<AssetInfo>, spend: bool)
    ensures var p := ConnectAssetOpt(Work(v, moved), h, t, version, a, b, info, spend);
            && ConnectAssetOpt(Work(v.(rows := rows), moved), h, t, version, a, b, info, spend)
               == (p.0.(l := p.0.l.(rows := rows)), p.1)
            && p.0.l.rows == v.rows
  {
  }

  lemma ReceiveOnRows(v: Ledger, rows: map<AddrRow, seq<TxIndexes>>, moved: set<Moved>, h: nat, t: TxId, version: int,
                      c: Coin, i: nat)
    ensures var b := Bal(v, c.addr);
            var p := ConnectAssetOpt(Work(v, moved), h, t, version, c.addr, b.(balance := b.balance + c.value),
                c.asset, false);
            Receive(Work(v.(rows := rows), moved), h, t, version, c, i)
            == StoreTouched(p.0.(l := p.0.l.(rows := rows)), h, t, c.addr,
                            p.1.(utxos := Append(p.1.utxos, Utxo(t, i, h, c.value, c.asset))), i)
  {
    hide ConnectAssetOpt, StoreTouched, Append;
    var b := Bal(v, c.addr);
    assert Bal(v.(rows := rows), c.addr) == b;
    AssetOnRows(v, rows, moved, h, t, version, c.addr, b.(balance := b.balance + c.value), c.asset, false);
  }

  lemma SpendOnRows(v: Ledger, rows: map<AddrRow, seq<TxIndexes>>, moved: set<Moved>, h: nat, t: TxId, version: int,
                    c: Coin, op: OutPoint, i: nat)
    ensures var b := Bal(v, c.addr);
            var left := b.balance - c.value;
            var p := ConnectAssetOpt(Work(v, moved), h, t, version, c.addr, b, c.asset, true);
            Spend(Work(v.(rows := rows), moved), h, t, version, c, op, i)
            == StoreTouched(p.0.(l := p.0.l.(rows := rows)), h, t, c.addr,
                            p.1.(utxos := MarkSpent(b.utxos, op.txid, op.vout),
                                 balance := if left < 0 then 0 else left,
                                 sent := b.sent + c.value), -1 - i)
  {
    hide ConnectAssetOpt, StoreTouched, MarkSpent;
    var b := Bal(v, c.addr);
    assert Bal(v.(rows := rows), c.addr) == b;
    AssetOnRows(v, rows, moved, h, t, version, c.addr, b, c.asset, true);
  }

  lemma OutputOnRows(v: Ledger, v': Ledger, rows: map<AddrRow, seq<TxIndexes>>, moved: set<Moved>, b: Block, tx: Tx,
                     i: nat)
    requires i < |tx.vout| && v' == v.(txs := SetOutput(v.txs, tx.txid, i, TxOutput(CoinOf(tx.vout[i]), false, None)))
    ensures var c, w := CoinOf(tx.vout[i]), Work(v'.(rows := rows), moved);
            AddOutput(Work(v.(rows := rows), moved), b, tx, i)
            == if Indexable(c.addr) then Receive(w, b.height, tx.txid, tx.version, c, i) else w
  {
    hide Receive;
  }

  lemma NoRows(l: Ledger, h: nat)
    ensures l.(rows := l.rows + BlockRows(map[], h)) == l
  {
    assert l.rows + BlockRows(map[], h) == l.rows;
  }

  lemma InputSkipped(w: Work, ext: bool, b: Block, tx: Tx, i: nat)
    requires i < |tx.vin| && (tx.vin[i].None? || Source(w.l, tx.vin[i].value).None?)
    ensures SpendInput(w, ext, b, tx, i) == w
  {
  }

  lemma SourceOnRows(v: Ledger, rows: map<AddrRow, seq<TxIndexes>>, op: OutPoint)
    ensures Source(v.(rows := rows), op) == Source(v, op)
    ensures Source(v, op) == if op.txid in v.txs && op.vout < |v.txs[op.txid].outputs|
                             then Some(v.txs[op.txid].outputs[op.vout]) else None
  {
  }

  /** An input that names a known output, on the records and then on the balances. */
  lemma InputOnRows(v: Ledger, v': Ledger, rows: map<AddrRow, seq<TxIndexes>>, moved: set<Moved>, ext: bool, b: Block,
                    tx: Tx, i: nat)
    requires i < |tx.vin| && tx.vin[i].Some? && Source(v, tx.vin[i].value).Some?
    requires var op := tx.vin[i].value;
             var o := Source(v, op).value;
             var o' := TxOutput(o.coin, true, if ext then Some(SpendRef(tx.txid, i, b.height)) else o.spender);
             v' == v.(txs := SetInput(SetOutput(v.txs, op.txid, op.vout, o'), tx.txid, i,
                 TxInput(o.coin, if ext then Some(op) else None)))
    ensures var op := tx.vin[i].value;
            var o, w := Source(v, op).value, Work(v'.(rows := rows), moved);
            SpendInput(Work(v.(rows := rows), moved), ext, b, tx, i)
            == if Indexable(o.coin.addr) then Spend(w, b.height, tx.txid, tx.version, o.coin, op, i) else w
  {
    hide Spend;
  }
}
