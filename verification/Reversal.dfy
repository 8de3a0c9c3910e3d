// Disconnecting a block as the index does it: records and balances are read when first needed,
// changed in memory, and written in one batch at the end.
module Reversal {
  import opened Types
  import opened UtxoIndex
  import opened LedgerModel
  import opened Overlay
  import opened LedgerUndo

  type Balances = map<AddrDesc, Option<AddrBalance>>

  /** The balances that exist among those read; None was read and has no row. */
  function Known(bals: Balances): map<AddrDesc, AddrBalance> {
    map a | a in bals && bals[a].Some? :: bals[a].value
  }

  ghost function Overlaid(db: Ledger, txs: map<TxId, TxAddresses>, bals: Balances, assets: map<Guid, int>): Ledger {
    db.(txs := db.txs + txs, bals := db.bals + Known(bals), assets := db.assets + assets)
  }

  lemma OverlaidTx(db: Ledger, txs: map<TxId, TxAddresses>, bals: Balances, assets: map<Guid, int>, t: TxId,
                   ta: TxAddresses)
    ensures var o := Overlaid(db, txs, bals, assets);
            Overlaid(db, txs[t := ta], bals, assets) == o.(txs := o.txs[t := ta])
  {
    OverlayPut(db.txs, txs, t, ta);
  }

  lemma OverlaidAsset(db: Ledger, txs: map<TxId, TxAddresses>, bals: Balances, assets: map<Guid, int>, g: Guid, n: int)
    ensures var o := Overlaid(db, txs, bals, assets);
            Overlaid(db, txs, bals, assets[g := n]) == o.(assets := o.assets[g := n])
  {
    OverlayPut(db.assets, assets, g, n);
  }

  lemma OverlaidBalance(db: Ledger, txs: map<TxId, TxAddresses>, bals: Balances, assets: map<Guid, int>, a: AddrDesc,
                        b: AddrBalance)
    ensures var o := Overlaid(db, txs, bals, assets);
            Overlaid(db, txs, bals[a := Some(b)], assets) == o.(bals := o.bals[a := b])
  {
    assert Known(bals[a := Some(b)]) == Known(bals)[a := b];
    OverlayPut(db.bals, Known(bals), a, b);
  }

  /** Reading a balance or a record changes nothing. */
  lemma OverlaidRead(db: Ledger, txs: map<TxId, TxAddresses>, bals: Balances, assets: map<Guid, int>, a: AddrDesc)
    requires a !in bals
    ensures Overlaid(db, txs, bals[a := if a in db.bals then Some(db.bals[a]) else None], assets)
            == Overlaid(db, txs, bals, assets)
  {
    var b := if a in db.bals then Some(db.bals[a]) else None;
    var o, o' := db.bals + Known(bals), db.bals + Known(bals[a := b]);
    forall x ensures x in o <==> x in o' { }
    forall x | x in o ensures o[x] == o'[x] { }
    assert o == o';
    hide Known;
  }

  class Reversal {
    const db: Ledger
    var txAddressesToUpdate: map<TxId, TxAddresses>
    var balances: Balances
    var assets: map<Guid, int>
    var blockAddressesTxs: set<AddrTx>
    var blockAssetTxs: set<AssetTxSeen>
    var blockTxAssetAddresses: set<Moved>
    var removed: set<Guid>

    constructor (db: Ledger)
      ensures this.db == db && Read() && Now() == Undo(db, {}, {}, {}, {})
    {
      this.db := db;
      txAddressesToUpdate, balances, assets := map[], map[], map[];
      blockAddressesTxs, blockAssetTxs, blockTxAssetAddresses, removed := {}, {}, {}, {};
      new;
      assert db.txs + map[] == db.txs && db.bals + Known(map[]) == db.bals && db.assets + map[] == db.assets;
    }

    /** The columns as they would be after writing. */
    ghost function Now(): Undo
      reads this
    {
      Undo(Overlaid(db, txAddressesToUpdate, balances, assets), blockAddressesTxs, blockAssetTxs,
          blockTxAssetAddresses, removed)
    }

    ghost predicate Read()
      reads this
    {
      ReadOk(db, balances, blockAddressesTxs, None)
    }

    // -------------------------------------------------------------- parts

    /** Notes the address for the transaction; tells whether it was met before. */
    method AddressFound(a: AddrDesc, t: TxId) returns (exist: bool)
      requires Read()
      modifies this`blockAddressesTxs
      ensures exist == (AddrTx(a, t) in old(Now()).seen)
              && Now() == old(Now()).(seen := old(Now()).seen + {AddrTx(a, t)})
      ensures ReadOk(db, balances, blockAddressesTxs, Some(a))
    {
      hide Overlaid;
      exist := AddrTx(a, t) in blockAddressesTxs;
      blockAddressesTxs := blockAddressesTxs + {AddrTx(a, t)};
      ReadMore(db, old(blockAddressesTxs), balances, AddrTx(a, t));
    }

    /** The balance of an address, read on first use. */
    method GetBalance(a: AddrDesc) returns (b: Option<AddrBalance>)
      requires ReadOk(db, balances, blockAddressesTxs, Some(a)) && Indexable(a) && Met(blockAddressesTxs, a)
      modifies this`balances
      ensures Read() && Now() == old(Now())
      ensures b == if a in Now().l.bals then Some(Now().l.bals[a]) else None
    {
      if a in balances {
        return balances[a];
      }
      OverlaidRead(db, txAddressesToUpdate, balances, assets, a);
      b := if a in db.bals then Some(db.bals[a]) else None;
      assert b == if a in Now().l.bals then Some(Now().l.bals[a]) else None;
      hide Overlaid;
      balances := balances[a := b];
    }

    /** Takes the spent mark from an output, in the record read now or before; returns the record's height. */
    method FreeOutput(op: OutPoint) returns (height: nat)
      modifies this`txAddressesToUpdate
      ensures var d := old(Now());
              && height == (if op.txid in d.l.txs then d.l.txs[op.txid].height else 0)
              && Now() == d.(l := d.l.(txs := Freed(d.l.txs, op)))
    {
      ghost var l := Overlaid(db, txAddressesToUpdate, balances, assets);
      var sa: Option<TxAddresses> :=
        if op.txid in txAddressesToUpdate then Some(txAddressesToUpdate[op.txid])
        else if op.txid in db.txs then Some(db.txs[op.txid]) else None;
      if sa.None? {
        return 0;
      }
      var ta := sa.value;
      assert op.txid in l.txs && l.txs[op.txid] == ta;
      if op.vout < |ta.outputs| {
        ta := ta.(outputs := ta.outputs[op.vout := TxOutput(ta.outputs[op.vout].coin, false, None)]);
      }
      OverlaidTx(db, txAddressesToUpdate, balances, assets, op.txid, ta);
      assert l.txs[op.txid := ta] == Freed(l.txs, op);
      hide Overlaid, Freed;
      txAddressesToUpdate := txAddressesToUpdate[op.txid := ta];
      height := ta.height;
    }

    /** The asset's transaction counter; only the output side marks an asset without transactions for removal. */
    method UncountAsset(g: Guid, t: TxId, input: bool)
      modifies this`assets, this`blockAssetTxs, this`removed
      ensures var d := old(Now());
              var found := AssetTxSeen(g, t) in d.seenAssets;
              var count := AssetTxCount(d.l, g) - OneIf(!found);
              Now() == d.(l := d.l.(assets := d.l.assets[g := count]),
                          seenAssets := d.seenAssets + {AssetTxSeen(g, t)},
                          removed := if !input && !found && count == 0 then d.removed + {g} else d.removed)
    {
      var found := AssetTxSeen(g, t) in blockAssetTxs;
      var count := if g in assets then assets[g] else if g in db.assets then db.assets[g] else 0;
      assert count == AssetTxCount(Now().l, g);
      hide Overlaid;
      if !found {
        count := count - 1;
        if !input && count == 0 {
          removed := removed + {g};
        }
      }
      OverlaidAsset(db, txAddressesToUpdate, balances, assets, g, count);
      assets := assets[g := count];
      blockAssetTxs := blockAssetTxs + {AssetTxSeen(g, t)};
    }

    static method UnmoveAllocation(ab: AssetBalance, value: nat, input: bool, counted: bool) returns (r: AssetBalance)
      ensures r.transfers == ab.transfers - OneIf(!counted)
      ensures input ==> r.sent == ZeroIfNegative(ab.sent - value) && r.balance == ab.balance + value
      ensures !input ==> r.sent == ab.sent && r.balance == ZeroIfNegative(ab.balance - value)
    {
      r := ab;
      if !counted {
        r := r.(transfers := r.transfers - 1);
      }
      if input {
        r := r.(sent := ZeroIfNegative(r.sent - value), balance := r.balance + value);
      } else {
        r := r.(balance := ZeroIfNegative(r.balance - value));
      }
    }

    /** DisconnectAllocationInput and DisconnectAllocationOutput; nothing to do without an asset. */
    method DisconnectAllocation(t: TxId, a: AddrDesc, b: AddrBalance, info: Option<AssetInfo>, input: bool)
      returns (b': AddrBalance)
      modifies this`assets, this`blockAssetTxs, this`blockTxAssetAddresses, this`removed
      ensures (Now(), b') == DisconnectAssetOpt(old(Now()), t, a, b, info, input)
    {
      hide Overlaid;
      if info.None? {
        return b;
      }
      var g := info.value.guid;
      UncountAsset(g, t, input);
      var ab := UnmoveAllocation(AssetBal(b, g), info.value.value, input, Moved(g, t, a) in blockTxAssetAddresses);
      blockTxAssetAddresses := blockTxAssetAddresses + {Moved(g, t, a)};
      b' := b.(assets := b.assets[g := ab]);
    }

    method StoreBalance(a: AddrDesc, b: AddrBalance)
      requires Read() && Indexable(a) && Met(blockAddressesTxs, a)
      modifies this`balances
      ensures Read() && Now() == PutBalance(old(Now()), a, b)
    {
      OverlaidBalance(db, txAddressesToUpdate, balances, assets, a, b);
      hide Overlaid;
      balances := balances[a := Some(b)];
    }

    method ReturnCoin(t: TxId, c: Coin, op: OutPoint, height: nat, exist: bool, b: AddrBalance)
      requires Read() && Indexable(c.addr) && Met(blockAddressesTxs, c.addr)
      requires c.addr in Now().l.bals && Now().l.bals[c.addr] == b
      modifies this`assets, this`blockAssetTxs, this`blockTxAssetAddresses, this`removed, this`balances
      ensures Now() == GiveBack(old(Now()), t, c, op, height, exist)
      ensures Read()
    {
      hide Now, DisconnectAssetOpt, PutBalance, Restore;
      var balance := b;
      if !exist {
        balance := balance.(txs := balance.txs - 1);
      }
      balance := balance.(sent := ZeroIfNegative(balance.sent - c.value), balance := balance.balance + c.value);
      balance := balance.(utxos := Restore(balance.utxos, Utxo(op.txid, op.vout, height, c.value, c.asset)));
      balance := DisconnectAllocation(t, c.addr, balance, c.asset, true);
      StoreBalance(c.addr, balance);
    }

    method LoseCoin(t: TxId, c: Coin, i: nat, exist: bool, b: AddrBalance)
      requires Read() && Indexable(c.addr) && Met(blockAddressesTxs, c.addr)
      requires c.addr in Now().l.bals && Now().l.bals[c.addr] == b
      modifies this`assets, this`blockAssetTxs, this`blockTxAssetAddresses, this`removed, this`balances
      ensures Now() == TakeAway(old(Now()), t, c, i, exist)
      ensures Read()
    {
      hide Now, DisconnectAssetOpt, PutBalance, MarkSpent;
      var balance := b;
      if !exist {
        balance := balance.(txs := balance.txs - 1);
      }
      balance := balance.(balance := ZeroIfNegative(balance.balance - c.value));
      balance := DisconnectAllocation(t, c.addr, balance, c.asset, false);
      balance := balance.(utxos := MarkSpent(b.utxos, t, i));
      StoreBalance(c.addr, balance);
    }

    // -------------------------------------------------------------- inputs and outputs

    method DisconnectInput(bt: BlockTx, ta: TxAddresses, i: nat)
      requires Read() && i < |ta.inputs|
      modifies this
      ensures Read() && Now() == UndoInput(old(Now()), bt, ta, i)
    {
      var c := ta.inputs[i].coin;
      if c.addr == NoAddr || i >= |bt.inputs| {
        return;
      }
      hide *;
      var op, t := bt.inputs[i], bt.txid;
      var exist := AddressFound(c.addr, t);
      var height := FreeOutput(op);
      InputFreed(old(Now()), Now(), bt, ta, i);
      MetNow(c.addr, t);
      if Indexable(c.addr) {
        var b := GetBalance(c.addr);
        if b.Some? {
          ReturnCoin(t, c, op, height, exist, b.value);
        }
      } else {
        NotRead(c.addr);
      }
    }

    method DisconnectOutput(t: TxId, ta: TxAddresses, i: nat)
      requires Read() && i < |ta.outputs|
      modifies this
      ensures Read() && Now() == UndoOutput(old(Now()), t, ta, i)
    {
      var c := ta.outputs[i].coin;
      if c.addr == NoAddr {
        return;
      }
      hide *;
      var exist := AddressFound(c.addr, t);
      OutputNoted(old(Now()), Now(), t, ta, i);
      MetNow(c.addr, t);
      if Indexable(c.addr) {
        var b := GetBalance(c.addr);
        if b.Some? {
          LoseCoin(t, c, i, exist, b.value);
        }
      } else {
        NotRead(c.addr);
      }
    }

    // -------------------------------------------------------------- the block

    /** Inputs of the block's transactions in order; a transaction without record is skipped. */
    method DisconnectInputs(bts: seq<BlockTx>)
      requires Read() && Now() == Undo(db, {}, {}, {}, {})
      modifies this
      ensures Read() && Now() == UndoInputsDone(db, bts, |bts|)
    {
      hide Now, Read, UndoInput;
      for j := 0 to |bts|
        invariant Read() && Now() == UndoInputsDone(db, bts, j)
      {
        if bts[j].txid in db.txs {
          var ta := db.txs[bts[j].txid];
          for i := 0 to |ta.inputs|
            invariant Read() && Now() == UndoInputsAt(db, bts, j, i)
          {
            DisconnectInput(bts[j], ta, i);
          }
        }
      }
    }

    method DisconnectOutputs(bts: seq<BlockTx>)
      requires Read() && Now() == UndoInputsDone(db, bts, |bts|)
      modifies this
      ensures Read() && Now() == UndoOutputsDone(db, bts, |bts|)
    {
      hide Now, Read, UndoOutput, UndoInputsDone;
      for j := 0 to |bts|
        invariant Read() && Now() == UndoOutputsDone(db, bts, j)
      {
        if bts[j].txid in db.txs {
          var ta := db.txs[bts[j].txid];
          for i := 0 to |ta.outputs|
            invariant Read() && Now() == UndoOutputsAt(db, bts, j, i)
          {
            DisconnectOutput(bts[j].txid, ta, i);
          }
        }
      }
    }

    /** The write batch. */
    method Write(bts: seq<BlockTx>, h: nat) returns (l: Ledger)
      requires Read()
      ensures l == Finish(Now(), bts, h)
    {
      var txsToDelete := set j | 0 <= j < |bts| :: bts[j].txid;
      var rows := set s | s in blockAddressesTxs :: AddrRow(s.addr, h);
      var assetRows := set s | s in blockAssetTxs :: AssetRow(s.guid, h);
      var bals := WriteBack(db.bals, balances);
      l := Ledger(db.txs + txAddressesToUpdate - txsToDelete, bals, db.rows - rows,
                  db.assets + assets - (removed - {SYSX_GUID}), db.assetRows - assetRows, db.blockTxs - {h},
                      db.heights - {h});
      FinishBalances(db, balances, Now());
      FinishRest(Now(), l, bts, h, rows, assetRows);
    }

    lemma MetNow(a: AddrDesc, t: TxId)
      requires AddrTx(a, t) in Now().seen
      ensures Met(blockAddressesTxs, a)
    {
    }

    lemma NotRead(a: AddrDesc)
      requires ReadOk(db, balances, blockAddressesTxs, Some(a)) && !Indexable(a)
      ensures Read()
    {
    }
  }

  /** Balances read are those of the indexable addresses met, but for `next`, which may still be unread. */
  ghost predicate ReadOk(db: Ledger, bals: Balances, seen: set<AddrTx>, next: Option<AddrDesc>) {
    && (forall a :: a in bals ==> Indexable(a) && Met(seen, a) && (bals[a].None? ==> a !in db.bals))
    && (forall s: AddrTx :: s in seen && Indexable(s.addr) && next != Some(s.addr) ==> s.addr in bals)
  }

  lemma OutputNoted(d: Undo, d': Undo, t: TxId, ta: TxAddresses, i: nat)
    requires i < |ta.outputs| && ta.outputs[i].coin.addr != NoAddr
    requires d' == d.(seen := d.seen + {AddrTx(ta.outputs[i].coin.addr, t)})
    ensures var c := ta.outputs[i].coin;
            UndoOutput(d, t, ta, i)
            == if Indexable(c.addr)
                && c.addr in d'.l.bals then TakeAway(d', t, c, i, AddrTx(c.addr, t) in d.seen) else d'
  {
    hide TakeAway;
  }

  /** Of an input with a descriptor: the record and the address are noted, then the coin goes back. */
  lemma InputFreed(d: Undo, d': Undo, bt: BlockTx, ta: TxAddresses, i: nat)
    requires i < |ta.inputs| && i < |bt.inputs| && ta.inputs[i].coin.addr != NoAddr
    requires d' == d.(l := d.l.(txs := Freed(d.l.txs, bt.inputs[i])), seen :=
             d.seen + {AddrTx(ta.inputs[i].coin.addr, bt.txid)})
    ensures var c, op := ta.inputs[i].coin, bt.inputs[i];
            var height := if op.txid in d.l.txs then d.l.txs[op.txid].height else 0;
            UndoInput(d, bt, ta, i)
            == if Indexable(c.addr)
                && c.addr in d'.l.bals
                     then GiveBack(d', bt.txid, c, op, height, AddrTx(c.addr, bt.txid) in d.seen) else d'
  {
    hide GiveBack;
  }

  lemma ReadMore(db: Ledger, seen: set<AddrTx>, bals: Balances, s: AddrTx)
    requires ReadOk(db, bals, seen, None)
    ensures ReadOk(db, bals, seen + {s}, Some(s.addr))
  {
    forall a | a in bals ensures Met(seen + {s}, a) {
      var x :| x in seen && x.addr == a;
      assert x in seen + {s};
    }
  }

  // ---------------------------------------------------------------- the write batch

  function Sorted(b: AddrBalance): AddrBalance { b.(utxos := SortedList(b.utxos)) }

  /** storeBalancesDisconnect: what was read goes back sorted and without tombstones, or its row is deleted. */
  function StoreBack(bals: map<AddrDesc, AddrBalance>, out: Balances): map<AddrDesc, AddrBalance> {
    map a | a in bals.Keys + out.Keys && (a in out ==> out[a].Some? && out[a].value.txs > 0) ::
      if a in out then Sorted(out[a].value) else bals[a]
  }

  lemma StoreBackOne(bals: map<AddrDesc, AddrBalance>, out: Balances, a: AddrDesc, b: Option<AddrBalance>)
    requires a !in out
    ensures var r := StoreBack(bals, out);
            StoreBack(bals, out[a := b]) == if b.None? || b.value.txs <= 0 then r - {a} else r[a := Sorted(b.value)]
  {
    hide Sorted;
  }

  lemma StoreBackNone(bals: map<AddrDesc, AddrBalance>)
    ensures StoreBack(bals, map[]) == bals
  {
    hide Sorted;
    assert StoreBack(bals, map[]).Keys == bals.Keys;
  }

  method WriteBack(bals: map<AddrDesc, AddrBalance>, out: Balances) returns (r: map<AddrDesc, AddrBalance>)
    ensures r == StoreBack(bals, out)
  {
    hide StoreBack, Sorted;
    r := bals;
    var todo := out.Keys;
    ghost var done: Balances := map[];
    StoreBackNone(bals);
    while todo != {}
      invariant todo <= out.Keys && done.Keys == out.Keys - todo && forall a :: a in done ==> done[a] == out[a]
      invariant r == StoreBack(bals, done)
    {
      var a :| a in todo;
      StoreBackOne(bals, done, a, out[a]);
      r := if out[a].None? || out[a].value.txs <= 0 then r - {a} else r[a := Sorted(out[a].value)];
      done := done[a := out[a]];
      todo := todo - {a};
    }
    assert done == out;
  }

  lemma FinishBalances(db: Ledger, out: Balances, d: Undo)
    requires ReadOk(db, out, d.seen, None) && d.l.bals == db.bals + Known(out)
    ensures StoreBack(db.bals, out) == map a | a in d.l.bals && (Touched(d, a) ==> d.l.bals[a].txs > 0) ::
            StoredBalance(d, a)
  {
    hide Touched, ReadOk, SortedList, StoreBack, StoredBalance, Known;
    var x, y := StoreBack(db.bals, out), map a | a in d.l.bals && (Touched(d, a) ==> d.l.bals[a].txs > 0) ::
        StoredBalance(d, a);
    forall a ensures (a in x <==> a in y) && (a in x ==> x[a] == y[a]) { FinishBalance(db, out, d, a); }
  }

  lemma FinishBalance(db: Ledger, out: Balances, d: Undo, a: AddrDesc)
    requires ReadOk(db, out, d.seen, None) && d.l.bals == db.bals + Known(out)
    ensures var x := StoreBack(db.bals, out);
            && (a in x <==> a in d.l.bals && (Touched(d, a) ==> d.l.bals[a].txs > 0))
            && (a in x ==> x[a] == StoredBalance(d, a))
  {
    hide SortedList;
    assert Touched(d, a) <==> a in out by {
      if a in out { assert Met(d.seen, a); }
    }
    hide Touched, ReadOk;
  }

  lemma FinishRest(d: Undo, l: Ledger, bts: seq<BlockTx>, h: nat, rows: set<AddrRow>, assetRows: set<AssetRow>)
    requires rows == set s | s in d.seen :: AddrRow(s.addr, h)
    requires assetRows == set s | s in d.seenAssets :: AssetRow(s.guid, h)
    requires l.txs == d.l.txs - Txids(bts) && l.rows == d.l.rows - rows && l.assetRows == d.l.assetRows - assetRows
    requires l.assets == d.l.assets - (d.removed - {SYSX_GUID}) && l.blockTxs == d.l.blockTxs - {h}
             && l.heights == d.l.heights - {h}
    requires l.bals == map a | a in d.l.bals && (Touched(d, a) ==> d.l.bals[a].txs > 0) :: StoredBalance(d, a)
    ensures l == Finish(d, bts, h)
  {
    var f := Finish(d, bts, h);
    assert l.txs == f.txs;
    assert l.assets == f.assets;
    FinishRows(d.l.rows, d.seen, rows, h);
    FinishAssetRows(d.l.assetRows, d.seenAssets, assetRows, h);
  }

  lemma FinishRows(rows: map<AddrRow, seq<TxIndexes>>, seen: set<AddrTx>, gone: set<AddrRow>, h: nat)
    requires gone == set s | s in seen :: AddrRow(s.addr, h)
    ensures rows - gone == map k | k in rows && !(k.height == h && exists s :: s in seen && s.addr == k.addr) :: rows[k]
  {
    forall k | k in rows ensures k in gone <==> k.height == h && exists s :: s in seen && s.addr == k.addr {
      if k.height == h && exists s :: s in seen && s.addr == k.addr {
        var s :| s in seen && s.addr == k.addr;
        assert AddrRow(s.addr, h) == k;
      }
    }
  }

  lemma FinishAssetRows(rows: map<AssetRow, seq<AssetTx>>, seen: set<AssetTxSeen>, gone: set<AssetRow>, h: nat)
    requires gone == set s | s in seen :: AssetRow(s.guid, h)
    ensures rows - gone == map k | k in rows && !(k.height == h && exists s :: s in seen && s.guid == k.guid) :: rows[k]
  {
    forall k | k in rows ensures k in gone <==> k.height == h && exists s :: s in seen && s.guid == k.guid {
      if k.height == h && exists s :: s in seen && s.guid == k.guid {
        var s :| s in seen && s.guid == k.guid;
        assert AssetRow(s.guid, h) == k;
      }
    }
  }

  /** The disconnect of the block at `h` with the given record of its transactions computes the specified ledger. */
  method DisconnectWith(db: Ledger, h: nat, bts: seq<BlockTx>) returns (l: Ledger)
    ensures l == Finish(UndoOutputsDone(db, bts, |bts|), bts, h)
  {
    var d := new Reversal(db);
    hide Finish, UndoOutputsDone, UndoInputsDone;
    d.DisconnectInputs(bts);
    d.DisconnectOutputs(bts);
    l := d.Write(bts, h);
  }

  /** The records after output `op` was given back. */
  function Freed(txs: map<TxId, TxAddresses>, op: OutPoint): map<TxId, TxAddresses> {
    if op.txid in txs && op.vout < |txs[op.txid].outputs|
    then SetOutput(txs, op.txid, op.vout, TxOutput(txs[op.txid].outputs[op.vout].coin, false, None)) else txs
  }

  ghost predicate Met(seen: set<AddrTx>, a: AddrDesc) { exists s :: s in seen && s.addr == a }
}
