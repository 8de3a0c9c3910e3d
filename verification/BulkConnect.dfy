// Bulk import: blocks are folded into the caches, the caches are flushed in part whenever they
// grow too big and in full at the end, and only then is the database declared open again.
module BulkConnect {
  import opened Types
  import opened LedgerModel
  import opened LedgerInvariant
  import opened LedgerTheorems
  import opened BulkStrip
  import opened Overlay
  import opened Indexer

  const MAX_BULK_ADDRESSES := 80000
  const MAX_BULK_TX_ADDRESSES := 500000
  const PARTIAL_STORE_ADDRESSES := MAX_BULK_TX_ADDRESSES / 10
  const MAX_BULK_BALANCES := 700000
  const PARTIAL_STORE_BALANCES := MAX_BULK_BALANCES / 10
  const MAX_BULK_ASSETS := 500000
  const PARTIAL_STORE_ASSETS := MAX_BULK_ASSETS / 10
  const MAX_BULK_TX_ASSETS := 500000
  const PARTIAL_STORE_TX_ASSETS := MAX_BULK_TX_ASSETS / 10

  // ---------------------------------------------------------------- choosing what to write

  /** `cache` is parted into what goes out and what stays. */
  ghost predicate Parted<K(!new), V(!new)>(cache: map<K, V>, out: map<K, V>, rest: map<K, V>) {
    out.Keys !! rest.Keys && out + rest == cache
  }

  lemma MoveOne<K(!new), V(!new)>(cache: map<K, V>, out: map<K, V>, rest: map<K, V>, k: K)
    requires Parted(cache, out, rest) && k in rest
    ensures Parted(cache, out[k := rest[k]], rest - {k})
  {
    var out', rest' := out[k := rest[k]], rest - {k};
    assert (out' + rest').Keys == cache.Keys;
  }

  /** Moves entries in no particular order until `n` are out or none is left. */
  method TakeSome<K(==, !new), V(!new)>(taken: map<K, V>, cache: map<K, V>, n: nat)
    returns (out: map<K, V>, rest: map<K, V>)
    requires taken.Keys !! cache.Keys
    ensures Parted(taken + cache, out, rest) && taken.Keys <= out.Keys
    ensures rest == map[] || |out| >= n
  {
    out, rest := taken, cache;
    assert Parted(taken + cache, out, rest);
    hide Parted;
    while rest != map[] && |out| < n
      invariant Parted(taken + cache, out, rest) && taken.Keys <= out.Keys
      decreases |rest|
    {
      assert rest.Keys != {};
      var k :| k in rest.Keys;
      MoveOne(taken + cache, out, rest, k);
      out, rest := out[k := rest[k]], rest - {k};
    }
  }

  predicate FullySpent(ta: TxAddresses) { forall i :: 0 <= i < |ta.outputs| ==> ta.outputs[i].spent }

  method IsFullySpent(ta: TxAddresses) returns (r: bool)
    ensures r == FullySpent(ta)
  {
    for i := 0 to |ta.outputs|
      invariant forall k :: 0 <= k < i ==> ta.outputs[k].spent
    {
      if !ta.outputs[i].spent { return false; }
    }
    return true;
  }

  /** Records all of whose outputs are spent will not be modified again. */
  method TakeSpent(cache: map<TxId, TxAddresses>) returns (out: map<TxId, TxAddresses>, rest: map<TxId, TxAddresses>)
    ensures Parted(cache, out, rest)
    ensures forall t :: t in cache ==> (t in out <==> FullySpent(cache[t]))
  {
    var todo := cache.Keys;
    out, rest := map[], cache;
    while todo != {}
      invariant todo <= rest.Keys && Parted(cache, out, rest)
      invariant forall t :: t in cache && t !in todo ==> (t in out <==> FullySpent(cache[t]))
    {
      var t :| t in todo;
      todo := todo - {t};
      var spent := IsFullySpent(rest[t]);
      if spent {
        MoveOne(cache, out, rest, t);
        out, rest := out[t := rest[t]], rest - {t};
      }
    }
  }

  // ---------------------------------------------------------------- flushes and the overlay

  lemma FlushTxs(db: Ledger, out: map<TxId, TxAddresses>, rest: map<TxId, TxAddresses>, cache: map<TxId, TxAddresses>,
                 bals: map<AddrDesc, AddrBalance>, assets: map<Guid, int>, assetRows: map<AssetRow, seq<AssetTx>>,
                 bulk: seq<Pending>)
    requires Parted(cache, out, rest)
    ensures Merge(db.(txs := db.txs + out), rest, bals, assets, assetRows, bulk)
            == Merge(db, cache, bals, assets, assetRows, bulk)
  {
    OverlayFlush(db.txs, cache, out, rest);
  }

  lemma FlushAssets(db: Ledger, txs: map<TxId, TxAddresses>, bals: map<AddrDesc, AddrBalance>,
                    out: map<Guid, int>, rest: map<Guid, int>, cache: map<Guid, int>,
                    assetRows: map<AssetRow, seq<AssetTx>>, bulk: seq<Pending>)
    requires Parted(cache, out, rest)
    ensures Merge(db.(assets := db.assets + out), txs, bals, rest, assetRows, bulk)
            == Merge(db, txs, bals, cache, assetRows, bulk)
  {
    OverlayFlush(db.assets, cache, out, rest);
  }

  lemma FlushAssetRows(db: Ledger, txs: map<TxId, TxAddresses>, bals: map<AddrDesc, AddrBalance>,
                       assets: map<Guid, int>, out: map<AssetRow, seq<AssetTx>>, rest: map<AssetRow, seq<AssetTx>>,
                       cache: map<AssetRow, seq<AssetTx>>, bulk: seq<Pending>)
    requires Parted(cache, out, rest)
    ensures Merge(db.(assetRows := db.assetRows + out), txs, bals, assets, rest, bulk)
            == Merge(db, txs, bals, assets, cache, bulk)
  {
    OverlayFlush(db.assetRows, cache, out, rest);
  }

  lemma FlushRows(db: Ledger, txs: map<TxId, TxAddresses>, bals: map<AddrDesc, AddrBalance>, assets: map<Guid, int>,
                  assetRows: map<AssetRow, seq<AssetTx>>, bulk: seq<Pending>)
    ensures Merge(db.(rows := db.rows + PendingRows(bulk), heights := db.heights + PendingHeights(bulk)), txs, bals,
            assets, assetRows, [])
            == Merge(db, txs, bals, assets, assetRows, bulk)
  {
    var r, h := db.rows + PendingRows(bulk), db.heights + PendingHeights(bulk);
    assert r + PendingRows([]) == r && h + PendingHeights([]) == h;
    hide PendingRows, PendingHeights;
  }

  /** Queueing the rows of a block makes them part of the view. */
  lemma QueueRows(db: Ledger, txs: map<TxId, TxAddresses>, bals: map<AddrDesc, AddrBalance>, assets: map<Guid, int>,
                  assetRows: map<AssetRow, seq<AssetTx>>, bulk: seq<Pending>, p: Pending)
    ensures var v := Merge(db, txs, bals, assets, assetRows, bulk);
            Merge(db, txs, bals, assets, assetRows, bulk + [p])
            == v.(rows := v.rows + BlockRows(p.addresses, p.height), heights := v.heights[p.height := p.hash])
  {
    assert (bulk + [p])[..|bulk|] == bulk;
    MergeAssoc(db.rows, PendingRows(bulk), BlockRows(p.addresses, p.height));
    OverlayPut(db.heights, PendingHeights(bulk), p.height, p.hash);
    assert PendingRows(bulk + [p]) == PendingRows(bulk) + BlockRows(p.addresses, p.height);
    assert PendingHeights(bulk + [p]) == PendingHeights(bulk)[p.height := p.hash];
    hide PendingRows, PendingHeights, BlockRows;
  }

  /** The balance column after `out` was written: no transactions, no row. */
  function StoreBalancesTo(bals: map<AddrDesc, AddrBalance>, out: map<AddrDesc, AddrBalance>)
    : map<AddrDesc, AddrBalance>
  {
    map a | a in bals.Keys + out.Keys && (a in out ==> out[a].txs > 0) ::
        if a in out then StripBalance(out[a]) else bals[a]
  }

  lemma StoredColumn(bals: map<AddrDesc, AddrBalance>, cache: map<AddrDesc, AddrBalance>,
                     out: map<AddrDesc, AddrBalance>, rest: map<AddrDesc, AddrBalance>)
    requires Parted(cache, out, rest) && forall a :: a in cache ==> cache[a].txs > 0
    ensures var now := StoreBalancesTo(bals, out) + rest;
            && now.Keys == (bals + cache).Keys
            && forall a :: a in now ==> now[a] == (bals + cache)[a] || now[a] == StripBalance((bals + cache)[a])
  {
    hide StripBalance;
    var now := StoreBalancesTo(bals, out) + rest;
    forall a ensures a in now <==> a in bals + cache { }
  }

  lemma FlushBalances(db: Ledger, txs: map<TxId, TxAddresses>, out: map<AddrDesc, AddrBalance>,
                      rest: map<AddrDesc, AddrBalance>, cache: map<AddrDesc, AddrBalance>, assets: map<Guid, int>,
                      assetRows: map<AssetRow, seq<AssetTx>>, bulk: seq<Pending>)
    requires Parted(cache, out, rest) && PresenceOk(Merge(db, txs, cache, assets, assetRows, bulk))
    ensures PartlyStored(Merge(db, txs, cache, assets, assetRows, bulk),
                         Merge(db.(bals := StoreBalancesTo(db.bals, out)), txs, rest, assets, assetRows, bulk))
  {
    var v := Merge(db, txs, cache, assets, assetRows, bulk);
    forall a | a in cache ensures cache[a].txs > 0 {
      assert v.bals[a] == cache[a];
    }
    StoredColumn(db.bals, cache, out, rest);
    hide StoreBalancesTo, PendingRows, PendingHeights, Parted, PresenceOk;
  }

  // ---------------------------------------------------------------- flushes

  lemma PartedSizes<K(!new), V(!new)>(cache: map<K, V>, out: map<K, V>, rest: map<K, V>)
    requires Parted(cache, out, rest)
    ensures |out| + |rest| == |cache|
  {
    assert cache.Keys == out.Keys + rest.Keys;
    assert |cache.Keys| == |cache| && |out.Keys| == |out| && |rest.Keys| == |rest|;
  }

  /** The whole cache, or at least `n` entries of it. */
  method Choose<K(==, !new), V(!new)>(cache: map<K, V>, all: bool, n: nat) returns (out: map<K, V>, rest: map<K, V>)
    ensures Parted(cache, out, rest)
    ensures all ==> rest == map[]
    ensures rest == map[] || |rest| <= |cache| - n
  {
    out, rest := cache, map[];
    if !all {
      assert map[] + cache == cache;
      out, rest := TakeSome(map[], cache, n);
    }
    PartedSizes(cache, out, rest);
  }

  /** The whole cache, or the fully spent records and, if these are few, some others. */
  method ChooseTxs(cache: map<TxId, TxAddresses>, all: bool)
    returns (out: map<TxId, TxAddresses>, rest: map<TxId, TxAddresses>)
    ensures Parted(cache, out, rest)
    ensures all ==> rest == map[]
    ensures forall t :: t in rest ==> !FullySpent(rest[t])
    ensures rest == map[] || |rest| <= |cache| - PARTIAL_STORE_ADDRESSES
  {
    out, rest := cache, map[];
    if !all {
      out, rest := TakeSpent(cache);
      if |out| < PARTIAL_STORE_ADDRESSES {
        ghost var spent := out;
        out, rest := TakeSome(out, rest, PARTIAL_STORE_ADDRESSES);
      }
    }
    PartedSizes(cache, out, rest);
  }

  method StoreTxAddresses(d: Indexer, all: bool)
    modifies d`db, d`txAddressesMap
    ensures d.View() == old(d.View()) && d.db == old(d.db).(txs := d.db.txs)
    ensures all ==> d.txAddressesMap == map[]
    ensures forall t :: t in d.txAddressesMap ==> !FullySpent(d.txAddressesMap[t])
    ensures d.txAddressesMap == map[] || |d.txAddressesMap| <= |old(d.txAddressesMap)| - PARTIAL_STORE_ADDRESSES
  {
    var out, rest := ChooseTxs(d.txAddressesMap, all);
    FlushTxs(d.db, out, rest, d.txAddressesMap, d.balances, d.assets, d.txAssets, d.bulkAddresses);
    hide Merge, Parted, FullySpent;
    d.db := d.db.(txs := d.db.txs + out);
    d.txAddressesMap := rest;
  }

  /** Everything on disk is as it would be read back. */
  ghost predicate Stripped(bals: map<AddrDesc, AddrBalance>) {
    forall a :: a in bals ==> StripBalance(bals[a]) == bals[a]
  }

  lemma StrippedStore(bals: map<AddrDesc, AddrBalance>, out: map<AddrDesc, AddrBalance>)
    requires Stripped(bals)
    ensures Stripped(StoreBalancesTo(bals, out))
  {
    var now := StoreBalancesTo(bals, out);
    forall a | a in now ensures StripBalance(now[a]) == now[a] {
      if a in out { StripTwice(out[a].utxos); }
    }
  }

  lemma StoreOne(bals: map<AddrDesc, AddrBalance>, out: map<AddrDesc, AddrBalance>, a: AddrDesc, b: AddrBalance)
    requires a !in out
    ensures var r := StoreBalancesTo(bals, out);
            StoreBalancesTo(bals, out[a := b]) == if b.txs <= 0 then r - {a} else r[a := StripBalance(b)]
  {
    hide StripBalance;
  }

  /** storeBalances: a balance without transactions is removed, the others lose their tombstones. */
  method WriteBalances(bals: map<AddrDesc, AddrBalance>, out: map<AddrDesc, AddrBalance>)
    returns (r: map<AddrDesc, AddrBalance>)
    ensures r == StoreBalancesTo(bals, out)
  {
    r := bals;
    var todo := out;
    ghost var done: map<AddrDesc, AddrBalance> := map[];
    StoreNone(bals, out);
    hide StoreBalancesTo, StripBalance, Parted;
    while todo != map[]
      invariant Parted(out, done, todo) && r == StoreBalancesTo(bals, done)
      decreases |todo|
    {
      assert todo.Keys != {};
      var a :| a in todo.Keys;
      MoveOne(out, done, todo, a);
      NotMoved(out, done, todo, a);
      StoreOne(bals, done, a, todo[a]);
      r := if todo[a].txs <= 0 then r - {a} else r[a := StripBalance(todo[a])];
      done := done[a := todo[a]];
      todo := todo - {a};
    }
    AllMoved(out, done);
  }

  lemma StoreNone(bals: map<AddrDesc, AddrBalance>, out: map<AddrDesc, AddrBalance>)
    ensures StoreBalancesTo(bals, map[]) == bals && Parted(out, map[], out)
  {
    hide StripBalance;
    assert StoreBalancesTo(bals, map[]).Keys == bals.Keys;
  }

  lemma NotMoved<K(!new), V(!new)>(cache: map<K, V>, out: map<K, V>, rest: map<K, V>, k: K)
    requires Parted(cache, out, rest) && k in rest
    ensures k !in out
  {
  }

  lemma AllMoved<K(!new), V(!new)>(cache: map<K, V>, out: map<K, V>)
    requires Parted(cache, out, map[])
    ensures out == cache
  {
    assert out + map[] == out;
  }

  method StoreBalances(d: Indexer, all: bool)
    requires PresenceOk(d.View()) && Stripped(d.db.bals)
    modifies d`db, d`balances
    ensures PartlyStored(old(d.View()), d.View()) && d.db == old(d.db).(bals := d.db.bals) && Stripped(d.db.bals)
    ensures all ==> d.balances == map[]
    ensures d.balances == map[] || |d.balances| <= |old(d.balances)| - PARTIAL_STORE_BALANCES
  {
    hide Merge, StoreBalancesTo, PartlyStored, PresenceOk, Stripped, Parted;
    var out, rest := Choose(d.balances, all, PARTIAL_STORE_BALANCES);
    FlushBalances(d.db, d.txAddressesMap, out, rest, d.balances, d.assets, d.txAssets, d.bulkAddresses);
    var bals := WriteBalances(d.db.bals, out);
    StrippedStore(d.db.bals, out);
    d.db := d.db.(bals := bals);
    d.balances := rest;
  }

  method StoreAssets(d: Indexer, all: bool)
    modifies d`db, d`assets
    ensures d.View() == old(d.View()) && d.db == old(d.db).(assets := d.db.assets)
    ensures all ==> d.assets == map[]
  {
    hide Merge, Parted;
    var out, rest := Choose(d.assets, all, PARTIAL_STORE_ASSETS);
    FlushAssets(d.db, d.txAddressesMap, d.balances, out, rest, d.assets, d.txAssets, d.bulkAddresses);
    d.db := d.db.(assets := d.db.assets + out);
    d.assets := rest;
  }

  /** A cached asset row is not on disk yet. */
  ghost predicate RowsApart(stored: map<AssetRow, seq<AssetTx>>, cache: map<AssetRow, seq<AssetTx>>) {
    forall k :: k in cache && k in stored ==> stored[k] == []
  }

  method StoreTxAssets(d: Indexer, all: bool)
    requires RowsApart(d.db.assetRows, d.txAssets)
    modifies d`db, d`txAssets
    ensures d.View() == old(d.View()) && d.db == old(d.db).(assetRows := d.db.assetRows)
            && RowsApart(d.db.assetRows, d.txAssets)
    ensures all ==> d.txAssets == map[]
  {
    hide Merge;
    var out, rest := Choose(d.txAssets, all, PARTIAL_STORE_TX_ASSETS);
    FlushAssetRows(d.db, d.txAddressesMap, d.balances, d.assets, out, rest, d.txAssets, d.bulkAddresses);
    d.db := d.db.(assetRows := d.db.assetRows + out);
    d.txAssets := rest;
  }

  lemma WriteOne(rows: map<AddrRow, seq<TxIndexes>>, heights: map<nat, string>, bulk: seq<Pending>, i: nat)
    requires i < |bulk|
    ensures rows + PendingRows(bulk[..i + 1])
            == rows + PendingRows(bulk[..i]) + BlockRows(bulk[i].addresses, bulk[i].height)
    ensures heights + PendingHeights(bulk[..i + 1])
            == (heights + PendingHeights(bulk[..i]))[bulk[i].height := bulk[i].hash]
  {
    assert bulk[..i + 1][..i] == bulk[..i];
    MergeAssoc(rows, PendingRows(bulk[..i]), BlockRows(bulk[i].addresses, bulk[i].height));
    OverlayPut(heights, PendingHeights(bulk[..i]), bulk[i].height, bulk[i].hash);
  }

  method WriteRows(rows: map<AddrRow, seq<TxIndexes>>, heights: map<nat, string>, bulk: seq<Pending>)
    returns (rows': map<AddrRow, seq<TxIndexes>>, heights': map<nat, string>)
    ensures rows' == rows + PendingRows(bulk) && heights' == heights + PendingHeights(bulk)
  {
    rows', heights' := rows, heights;
    assert rows + PendingRows([]) == rows && heights + PendingHeights([]) == heights;
    hide PendingRows, PendingHeights, BlockRows;
    assert bulk[..0] == [] && bulk[..|bulk|] == bulk;
    for i := 0 to |bulk|
      invariant rows' == rows + PendingRows(bulk[..i]) && heights' == heights + PendingHeights(bulk[..i])
    {
      WriteOne(rows, heights, bulk, i);
      rows' := rows' + BlockRows(bulk[i].addresses, bulk[i].height);
      heights' := heights'[bulk[i].height := bulk[i].hash];
    }
  }

  /** Writes the history rows and heights of all queued blocks. */
  method StoreBulkAddresses(d: Indexer)
    modifies d`db, d`bulkAddresses, d`bulkAddressesCount
    ensures d.View() == old(d.View()) && d.db == old(d.db).(rows := d.db.rows, heights := d.db.heights)
    ensures d.bulkAddresses == [] && d.bulkAddressesCount == 0
  {
    hide Merge, PendingRows, PendingHeights;
    FlushRows(d.db, d.txAddressesMap, d.balances, d.assets, d.txAssets, d.bulkAddresses);
    var rows, heights := WriteRows(d.db.rows, d.db.heights, d.bulkAddresses);
    d.db := d.db.(rows := rows, heights := heights);
    d.bulkAddresses, d.bulkAddressesCount := [], 0;
  }
}
