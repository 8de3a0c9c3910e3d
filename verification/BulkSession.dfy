// A whole bulk import against connecting the same blocks one by one.
module BulkSession {
  import opened Types
  import opened UtxoIndex
  import opened LedgerModel
  import opened LedgerInvariant
  import opened LedgerBlock
  import opened LedgerUndoBlock
  import opened LedgerTheorems
  import opened LedgerRuns
  import opened BulkStrip
  import opened Overlay
  import opened Indexer
  import opened BulkConnect

  /** The view `v` over disk and caches shows `spec`, up to tombstones and the records of blocks. */
  ghost predicate Faithful(spec: Ledger, v: Ledger, bals: map<AddrDesc, AddrBalance>,
                           stored: map<AssetRow, seq<AssetTx>>, cached: map<AssetRow, seq<AssetTx>>)
  {
    && Good(spec) && Inv(v) && Alike(spec, v) && v.heights == spec.heights
    && Stripped(bals) && RowsApart(stored, cached)
  }

  ghost predicate BulkOk(d: Indexer, spec: Ledger)
    reads d
  {
    Faithful(spec, d.View(), d.db.bals, d.db.assetRows, d.txAssets)
  }

  /** Nothing waits to be written. */
  ghost predicate Settled(d: Indexer)
    reads d
  {
    d.txAddressesMap == map[] && d.balances == map[] && d.assets == map[] && d.txAssets == map[]
        && d.bulkAddresses == []
  }

  /** An open database is complete: all that was connected is on disk. */
  ghost predicate Consistent(d: Indexer, spec: Ledger)
    reads d
  {
    BulkOk(d, spec) && (d.state == Open ==> Settled(d) && d.db == spec.(blockTxs := d.db.blockTxs))
  }

  // ---------------------------------------------------------------- views

  lemma SettledView(db: Ledger)
    ensures Merge(db, map[], map[], map[], map[], []) == db
  {
    assert db.txs + map[] == db.txs && db.bals + map[] == db.bals && db.assets + map[] == db.assets;
    assert db.assetRows + map[] == db.assetRows && db.rows + PendingRows([]) == db.rows
        && db.heights + PendingHeights([]) == db.heights;
  }

  lemma StoredIsStripped(u: UtxoList)
    requires ListStored(u)
    ensures Strip(u) == u
  {
    LiveOfLive(u.slots);
  }

  lemma GoodIsStripped(l: Ledger)
    requires Stored(l)
    ensures Stripped(l.bals)
  {
    forall a | a in l.bals ensures StripBalance(l.bals[a]) == l.bals[a] {
      assert ListStored(Bal(l, a).utxos);
      StoredIsStripped(l.bals[a].utxos);
    }
  }

  lemma AlikeSelf(l: Ledger)
    ensures Alike(l, l)
  {
  }

  /** A good database with empty caches is a faithful start. */
  lemma StartFaithful(l: Ledger)
    requires Good(l)
    ensures Faithful(l, l, l.bals, l.assetRows, map[])
  {
    GoodIsStripped(l);
    AlikeSelf(l);
    hide Good, Inv, Alike;
    assert Inv(l) by { assert Good(l); }
  }

  /** With everything written, faithful means equal. */
  lemma EndFaithful(spec: Ledger, db: Ledger, cached: map<AssetRow, seq<AssetTx>>)
    requires Faithful(spec, db, db.bals, db.assetRows, cached)
    ensures db == spec.(blockTxs := db.blockTxs)
  {
    GoodIsStripped(spec);
    forall a | a in db.bals ensures a in spec.bals && db.bals[a] == spec.bals[a] {
      assert SameBalance(Bal(spec, a), Bal(db, a));
    }
    assert db.bals == spec.bals;
  }

  lemma PartlyStoredAlike(spec: Ledger, v: Ledger, v': Ledger)
    requires Alike(spec, v) && PartlyStored(v, v')
    ensures Alike(spec, v')
  {
    forall a ensures SameBalance(Bal(spec, a), Bal(v', a)) {
      assert SameBalance(Bal(spec, a), Bal(v, a));
      StripTwice(Bal(v, a).utxos);
    }
  }

  lemma PartlyStoredFaithful(spec: Ledger, v: Ledger, v': Ledger, bals: map<AddrDesc, AddrBalance>,
                             bals': map<AddrDesc, AddrBalance>,
                             stored: map<AssetRow, seq<AssetTx>>, cached: map<AssetRow, seq<AssetTx>>)
    requires Faithful(spec, v, bals, stored, cached) && PartlyStored(v, v') && Stripped(bals')
    ensures Faithful(spec, v', bals', stored, cached)
  {
    PartlyStoredAlike(spec, v, v');
    PartlyStoredKeepsInv(v, v');
  }

  // ---------------------------------------------------------------- one block

  lemma HeightIsFresh(d: Indexer, spec: Ledger, h: nat)
    requires BulkOk(d, spec) && NewHeight(spec.txs, h)
    ensures d.FreshHeight(h)
  {
    var v := d.View();
    assert v.txs == spec.txs;
    forall g | AssetRow(g, h) in d.db.assetRows ensures d.db.assetRows[AssetRow(g, h)] == [] {
      EmptyAssetRowAt(v, AssetRow(g, h));
      if AssetRow(g, h) !in d.txAssets {
        assert AssetRowOf(v, AssetRow(g, h)) == d.db.assetRows[AssetRow(g, h)];
      }
    }
    forall a ensures AddrRow(a, h) !in v.rows {
      if AddrRow(a, h) in v.rows {
        EmptyRowAt(v, AddrRow(a, h));
        assert false;
      }
    }
  }

  lemma AlikeConnected(p: Ledger, q: Ledger, c: Ledger, v: Ledger)
    requires Alike(p, q) && c == StripAll(p).(blockTxs := c.blockTxs, heights := c.heights)
             && v == q.(heights := v.heights)
    ensures Alike(c, v)
  {
    forall a ensures SameBalance(Bal(c, a), Bal(v, a)) {
      StripBal(p, a);
      StripTwice(Bal(p, a).utxos);
      assert SameBalance(Bal(p, a), Bal(q, a));
    }
  }

  /** Folding a block into the view follows connecting it to the specification. */
  lemma BlockFaithful(spec: Ledger, v: Ledger, v': Ledger, ext: bool, b: Block, bals: map<AddrDesc, AddrBalance>,
                      stored: map<AssetRow, seq<AssetTx>>, cached: map<AssetRow, seq<AssetTx>>,
                      cached': map<AssetRow, seq<AssetTx>>)
    requires Faithful(spec, v, bals, stored, cached) && ValidBlock(spec.txs, b) && RowsApart(stored, cached')
    requires v' == Process(v, ext, b).(heights := v.heights[b.height := b.hash])
    ensures Faithful(ConnectBlock(spec, ext, b), v', bals, stored, cached')
  {
    assert v.txs == spec.txs && Inv(spec);
    hide Inv, Alike, ValidBlock, Good;
    ProcessAlike(spec, v, ext, b);
    ProcessKeepsInv(v, ext, b);
    InvIgnoresBlocks(Process(v, ext, b), v');
    ConnectKeepsGood(spec, ext, b);
    AlikeConnected(Process(spec, ext, b), Process(v, ext, b), ConnectBlock(spec, ext, b), v');
  }

  lemma ApartAfter(stored: map<AssetRow, seq<AssetTx>>, was: map<AssetRow, seq<AssetTx>>,
                   now: map<AssetRow, seq<AssetTx>>, h: nat)
    requires RowsApart(stored, was) && forall k :: k in now ==> k in was || k.height == h
    requires forall g :: AssetRow(g, h) in stored ==> stored[AssetRow(g, h)] == []
    ensures RowsApart(stored, now)
  {
    forall k | k in now && k in stored ensures stored[k] == [] {
      if k.height == h { assert k == AssetRow(k.guid, h); }
    }
  }

  method Fold(d: Indexer, ghost spec: Ledger, b: Block) returns (addresses: map<AddrDesc, seq<TxIndexes>>)
    requires BulkOk(d, spec) && ValidBlock(spec.txs, b)
    modifies d`txAddressesMap, d`balances, d`assets, d`txAssets
    ensures d.ViewWith(addresses, b.height) == Process(old(d.View()), d.ext, b)
    ensures RowsApart(d.db.assetRows, d.txAssets)
    ensures d.View().heights == old(d.View()).heights
  {
    HeightIsFresh(d, spec, b.height);
    ghost var cached := d.txAssets;
    hide Merge, Faithful, PendingRows, PendingHeights, BlockRows, Process, Indexer.FreshHeight, Indexer.AssetKeys;
    assert RowsApart(d.db.assetRows, cached) by { FaithfulApart(spec, d.View(), d.db.bals, d.db.assetRows, cached); }
    hide RowsApart;
    addresses := d.ProcessAddresses(b);
    MergeHeights(d.db, d.bulkAddresses, d.txAddressesMap, d.balances, d.assets, d.txAssets, old(d.txAddressesMap),
        old(d.balances), old(d.assets), cached);
    StillApart(d, cached, b.height);
  }

  lemma StillApart(d: Indexer, was: map<AssetRow, seq<AssetTx>>, h: nat)
    requires d.FreshHeight(h) && d.AssetKeys(was, h) && RowsApart(d.db.assetRows, was)
    ensures RowsApart(d.db.assetRows, d.txAssets)
  {
    ApartAfter(d.db.assetRows, was, d.txAssets, h);
  }

  /** Folds a block into the caches and queues its history rows. */
  method Queue(d: Indexer, ghost spec: Ledger, b: Block)
    requires BulkOk(d, spec) && ValidBlock(spec.txs, b)
    modifies d`txAddressesMap, d`balances, d`assets, d`txAssets, d`bulkAddresses, d`bulkAddressesCount
    ensures BulkOk(d, ConnectBlock(spec, d.ext, b))
  {
    hide *;
    ghost var v, cached := d.View(), d.txAssets;
    FaithfulView(d, spec);
    var addresses := Fold(d, spec, b);
    Push(d, Pending(b.height, b.hash, addresses));
    BlockFaithful(spec, v, d.View(), d.ext, b, d.db.bals, d.db.assetRows, cached, d.txAssets);
    ViewFaithful(d, ConnectBlock(spec, d.ext, b));
  }

  method Push(d: Indexer, p: Pending)
    modifies d`bulkAddresses, d`bulkAddressesCount
    ensures d.View() == old(d.ViewWith(p.addresses, p.height)).(heights := old(d.View()).heights[p.height := p.hash])
  {
    hide Merge, BlockRows;
    QueueRows(d.db, d.txAddressesMap, d.balances, d.assets, d.txAssets, d.bulkAddresses, p);
    d.bulkAddresses := d.bulkAddresses + [p];
    d.bulkAddressesCount := d.bulkAddressesCount + |p.addresses|;
  }

  lemma FaithfulView(d: Indexer, spec: Ledger)
    requires BulkOk(d, spec)
    ensures Faithful(spec, d.View(), d.db.bals, d.db.assetRows, d.txAssets)
  {
    hide Faithful;
  }

  lemma ViewFaithful(d: Indexer, spec: Ledger)
    requires Faithful(spec, d.View(), d.db.bals, d.db.assetRows, d.txAssets)
    ensures BulkOk(d, spec)
  {
    hide Faithful;
  }

  lemma FaithfulApart(spec: Ledger, v: Ledger, bals: map<AddrDesc, AddrBalance>, stored: map<AssetRow, seq<AssetTx>>,
                      cached: map<AssetRow, seq<AssetTx>>)
    requires Faithful(spec, v, bals, stored, cached)
    ensures RowsApart(stored, cached)
  {
  }

  lemma MergeHeights(db: Ledger, bulk: seq<Pending>, txs: map<TxId, TxAddresses>, bals: map<AddrDesc, AddrBalance>,
                     assets: map<Guid, int>, rows: map<AssetRow, seq<AssetTx>>, txs': map<TxId, TxAddresses>,
                     bals': map<AddrDesc, AddrBalance>, assets': map<Guid, int>, rows': map<AssetRow, seq<AssetTx>>)
    ensures Merge(db, txs, bals, assets, rows, bulk).heights == Merge(db, txs', bals', assets', rows', bulk).heights
  {
  }

  // ---------------------------------------------------------------- flushing keeps what is shown

  method FlushTxAddresses(d: Indexer, ghost spec: Ledger, all: bool)
    requires BulkOk(d, spec)
    modifies d`db, d`txAddressesMap
    ensures BulkOk(d, spec) && d.db.blockTxs == old(d.db.blockTxs) && (all ==> d.txAddressesMap == map[])
  {
    hide Faithful, Merge, FullySpent;
    StoreTxAddresses(d, all);
  }

  method FlushBalances(d: Indexer, ghost spec: Ledger, all: bool)
    requires BulkOk(d, spec)
    modifies d`db, d`balances
    ensures BulkOk(d, spec) && d.db.blockTxs == old(d.db.blockTxs) && (all ==> d.balances == map[])
  {
    ghost var v, bals := d.View(), d.db.bals;
    hide Merge;
    assert PresenceOk(v) && Stripped(bals);
    hide Faithful, PresenceOk, Stripped, PartlyStored;
    StoreBalances(d, all);
    PartlyStoredFaithful(spec, v, d.View(), bals, d.db.bals, d.db.assetRows, d.txAssets);
  }

  method FlushAssets(d: Indexer, ghost spec: Ledger, all: bool)
    requires BulkOk(d, spec)
    modifies d`db, d`assets
    ensures BulkOk(d, spec) && d.db.blockTxs == old(d.db.blockTxs) && (all ==> d.assets == map[])
  {
    hide Faithful, Merge;
    StoreAssets(d, all);
  }

  method FlushTxAssets(d: Indexer, ghost spec: Ledger, all: bool)
    requires BulkOk(d, spec)
    modifies d`db, d`txAssets
    ensures BulkOk(d, spec) && d.db.blockTxs == old(d.db.blockTxs) && (all ==> d.txAssets == map[])
  {
    hide Merge, Good, Inv, Alike, Stripped, RowsApart;
    StoreTxAssets(d, all);
  }

  method FlushAddresses(d: Indexer, ghost spec: Ledger)
    requires BulkOk(d, spec)
    modifies d`db, d`bulkAddresses, d`bulkAddressesCount
    ensures BulkOk(d, spec) && d.db.blockTxs == old(d.db.blockTxs) && d.bulkAddresses == [] && d.bulkAddressesCount == 0
  {
    hide Faithful, Merge;
    StoreBulkAddresses(d);
  }

  /** When some cache is over its limit, parts of all that come near theirs are written. */
  method FlushSome(d: Indexer, ghost spec: Ledger) returns (sa: bool)
    requires BulkOk(d, spec)
    modifies d`db, d`txAddressesMap, d`balances, d`assets, d`txAssets
    ensures BulkOk(d, spec) && d.db.blockTxs == old(d.db.blockTxs)
  {
    hide BulkOk;
    sa := |d.txAddressesMap| > MAX_BULK_TX_ADDRESSES || |d.balances| > MAX_BULK_BALANCES
       || |d.assets| > MAX_BULK_ASSETS || |d.txAssets| > MAX_BULK_TX_ASSETS;
    if sa {
      if |d.txAddressesMap| + PARTIAL_STORE_ADDRESSES > MAX_BULK_TX_ADDRESSES { FlushTxAddresses(d, spec, false); }
      if |d.balances| + PARTIAL_STORE_BALANCES > MAX_BULK_BALANCES { FlushBalances(d, spec, false); }
      if |d.assets| + PARTIAL_STORE_ASSETS > MAX_BULK_ASSETS { FlushAssets(d, spec, false); }
      if |d.txAssets| + PARTIAL_STORE_TX_ASSETS > MAX_BULK_TX_ASSETS { FlushTxAssets(d, spec, false); }
    }
  }

  method FlushAll(d: Indexer, ghost spec: Ledger)
    requires BulkOk(d, spec)
    modifies d`db, d`txAddressesMap, d`balances, d`assets, d`txAssets, d`bulkAddresses, d`bulkAddressesCount
    ensures BulkOk(d, spec) && Settled(d) && d.db == spec.(blockTxs := old(d.db.blockTxs))
  {
    hide BulkOk;
    FlushTxAddresses(d, spec, true);
    FlushBalances(d, spec, true);
    FlushAssets(d, spec, true);
    FlushTxAssets(d, spec, true);
    FlushAddresses(d, spec);
    SettledIsSpec(d, spec);
  }

  lemma SettledIsSpec(d: Indexer, spec: Ledger)
    requires BulkOk(d, spec) && Settled(d)
    ensures d.db == spec.(blockTxs := d.db.blockTxs)
  {
    hide Faithful, Merge;
    SettledView(d.db);
    EndFaithful(spec, d.db, d.txAssets);
  }

  // ---------------------------------------------------------------- the session

  method RecordBlockTxs(d: Indexer, ghost spec: Ledger, b: Block)
    requires BulkOk(d, spec)
    modifies d`db
    ensures BulkOk(d, spec) && d.db == old(d.db).(blockTxs := old(d.db.blockTxs)[b.height := BlockTxsOf(b)])
  {
    ghost var v := d.View();
    d.db := d.db.(blockTxs := d.db.blockTxs[b.height := BlockTxsOf(b)]);
    assert d.View() == v.(blockTxs := d.db.blockTxs);
    hide Merge;
    RecordFaithful(spec, v, d.View(), d.db.bals, d.db.assetRows, d.txAssets);
  }

  lemma RecordFaithful(spec: Ledger, v: Ledger, v': Ledger, bals: map<AddrDesc, AddrBalance>,
                       stored: map<AssetRow, seq<AssetTx>>, cached: map<AssetRow, seq<AssetTx>>)
    requires Faithful(spec, v, bals, stored, cached) && v' == v.(blockTxs := v'.blockTxs)
    ensures Faithful(spec, v', bals, stored, cached)
  {
    InvIgnoresBlocks(v, v');
    hide Inv, Good, Stripped, RowsApart, StripBalance;
    assert Alike(spec, v') by {
      forall a ensures SameBalance(Bal(spec, a), Bal(v', a)) {
        assert SameBalance(Bal(spec, a), Bal(v, a));
      }
    }
  }

  lemma SettledStart(d: Indexer)
    requires Settled(d) && Good(d.db)
    ensures BulkOk(d, d.db)
  {
    SettledView(d.db);
    StartFaithful(d.db);
    hide Merge, Faithful, Good;
  }

  /** InitBulkConnect: from here until the end of the session the database is marked inconsistent. */
  method InitBulk(d: Indexer)
    requires d.state == Open && Settled(d) && Good(d.db)
    modifies d`state
    ensures d.state == Inconsistent && Consistent(d, d.db)
  {
    hide Merge, Faithful, Good;
    d.state := Inconsistent;
    SettledStart(d);
  }

  /** Connects a block in bulk mode. Whatever was flushed, the view goes on to show the blocks connected one by one. */
  method ConnectBlockInBulk(d: Indexer, ghost spec: Ledger, b: Block, storeBlockTxs: bool)
    requires d.state == Inconsistent && Consistent(d, spec) && ValidBlock(spec.txs, b)
    modifies d
    ensures d.state == Inconsistent && Consistent(d, ConnectBlock(spec, d.ext, b))
    ensures d.db.blockTxs == if storeBlockTxs then old(d.db.blockTxs)[b.height := BlockTxsOf(b)] else old(d.db.blockTxs)
    ensures d.bulkAddressesCount <= MAX_BULK_ADDRESSES
  {
    hide BulkOk, ConnectBlock, ValidBlock;
    Queue(d, spec, b);
    ghost var spec' := ConnectBlock(spec, d.ext, b);
    var sa := FlushSome(d, spec');
    if sa || d.bulkAddressesCount > MAX_BULK_ADDRESSES {
      FlushAddresses(d, spec');
    }
    if storeBlockTxs {
      RecordBlockTxs(d, spec', b);
    }
  }

  /** Close: everything is written, and only then the database is declared open. */
  method CloseBulk(d: Indexer, ghost spec: Ledger)
    requires d.state == Inconsistent && Consistent(d, spec)
    modifies d
    ensures d.state == Open && Consistent(d, spec) && d.db == spec.(blockTxs := old(d.db.blockTxs))
  {
    hide Faithful, Merge;
    FlushAll(d, spec);
    d.state := Open;
  }

  /** The blocks connected one after the other. */
  function ConnectAll(l: Ledger, ext: bool, bs: seq<Block>): Ledger {
    if bs == [] then l else ConnectBlock(ConnectAll(l, ext, bs[..|bs| - 1]), ext, bs[|bs| - 1])
  }

  /** Each block is valid on top of those before it. */
  ghost predicate ValidBlocks(l: Ledger, ext: bool, bs: seq<Block>) {
    forall i :: 0 <= i < |bs| ==> ValidBlock(ConnectAll(l, ext, bs[..i]).txs, bs[i])
  }

  /** The records of block transactions a bulk import keeps: those of the blocks from `keepFrom` on. */
  function KeptBlockTxs(m: map<nat, seq<BlockTx>>, bs: seq<Block>, keepFrom: nat): map<nat, seq<BlockTx>> {
    if bs == [] then m
    else
      var n := |bs| - 1;
      var r := KeptBlockTxs(m, bs[..n], keepFrom);
      if n >= keepFrom then r[bs[n].height := BlockTxsOf(bs[n])] else r
  }

  /** A bulk import of any blocks leaves the database that connecting them one by one leaves, but for the records of the
      blocks it was not told to keep. */
  method Import(d: Indexer, bs: seq<Block>, keepFrom: nat)
    requires d.state == Open && Settled(d) && Good(d.db) && ValidBlocks(d.db, d.ext, bs)
    modifies d
    ensures d.state == Open && Settled(d)
    ensures d.db == ConnectAll(old(d.db), d.ext, bs).(blockTxs := KeptBlockTxs(old(d.db.blockTxs), bs, keepFrom))
  {
    ghost var l := d.db;
    hide Good, ValidBlock, BulkOk, ConnectBlock;
    InitBulk(d);
    assert bs[..0] == [] && bs[..|bs|] == bs;
    for i := 0 to |bs|
      invariant d.state == Inconsistent && Consistent(d, ConnectAll(l, d.ext, bs[..i]))
      invariant d.db.blockTxs == KeptBlockTxs(l.blockTxs, bs[..i], keepFrom)
    {
      assert bs[..i + 1][..i] == bs[..i];
      ConnectBlockInBulk(d, ConnectAll(l, d.ext, bs[..i]), bs[i], i >= keepFrom);
    }
    CloseBulk(d, ConnectAll(l, d.ext, bs));
  }

  /** ConnectBlock outside of bulk mode: the block goes through empty caches and is written at once. */
  method ConnectBlockDirectly(d: Indexer, b: Block)
    requires d.state == Open && Settled(d) && Good(d.db) && ValidBlock(d.db.txs, b)
    modifies d
    ensures d.state == Open && Settled(d) && Good(d.db)
    ensures d.db == ConnectBlock(old(d.db), d.ext, b)
  {
    hide Good, ValidBlock, BulkOk, ConnectBlock, BlockTxsOf, Extends, BlockOnTop;
    ghost var l := d.db;
    ghost var l' := ConnectBlock(l, d.ext, b);
    ConnectKeepsGood(l, d.ext, b);
    SettledStart(d);
    Queue(d, l, b);
    FlushAll(d, l');
    RecordBlockTxs(d, l', b);
  }
}
