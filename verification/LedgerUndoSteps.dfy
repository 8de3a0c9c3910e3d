// Every step of a disconnect undoes one coin: amounts and lists agree with the column in
// which that coin is gone, counters with the transactions not yet met.
module LedgerUndoSteps {
  import opened Types
  import opened UtxoIndex
  import opened LedgerModel
  import opened Totals
  import opened LedgerInvariant
  import opened LedgerConnect
  import opened LedgerUndo

  ghost predicate SeenBy(d: Undo, k: Key, t: TxId) {
    match k
    case AddrKey(a) => AddrTx(a, t) in d.seen
    case HoldingKey(a, g) => Moved(g, t, a) in d.moved
    case AssetKey(g) => AssetTxSeen(g, t) in d.seenAssets
  }

  /** The transactions of `txs` that touch the key and were not met by the disconnect yet. */
  ghost function Remaining(txs: TxColumn, d: Undo, k: Key): set<TxId> {
    set t | t in txs && TxHits(txs[t], k) && !SeenBy(d, k, t)
  }

  ghost predicate CountsLeft(d: Undo, txs: TxColumn) {
    forall k :: Countable(k) ==> CountOf(d.l, k) == |Remaining(txs, d, k)|
  }

  ghost predicate SeenHits(d: Undo, txs: TxColumn) {
    forall k, t :: Countable(k) && SeenBy(d, k, t) ==> t in txs && TxHits(txs[t], k)
  }

  ghost predicate RowsPresent(d: Undo, txs: TxColumn) {
    && (forall a, t {:trigger TxHits(txs[t], AddrKey(a))} ::
          t in txs && Indexable(a) && TxHits(txs[t], AddrKey(a)) ==> a in d.l.bals)
    && (forall a :: a in d.l.bals ==> Indexable(a))
  }

  /** An asset marked for removal has no transactions left. */
  ghost predicate RemovedEmpty(d: Undo) {
    forall g :: g in d.removed ==> AssetTxCount(d.l, g) <= 0
  }

  ghost predicate AllLive(s: seq<Utxo>) { forall i :: 0 <= i < |s| ==> s[i].vout >= 0 }

  ghost predicate AddrSeen(d: Undo, a: AddrDesc) { exists s :: s in d.seen && s.addr == a }

  /** A list that was not worked on has no tombstones and is in height order. */
  ghost predicate RestUntouched(d: Undo) {
    forall a :: !AddrSeen(d, a) ==> AllLive(Bal(d.l, a).utxos.slots) && SortedByHeight(Bal(d.l, a).utxos.slots)
                                    && Bal(d.l, a).utxos == Load(Bal(d.l, a).utxos.slots)
  }

  /** `txs` is the column when the disconnect starts, `v` the same with the coins undone so far taken out. */
  ghost predicate UndoInv(d: Undo, txs: TxColumn, v: TxColumn) {
    && AmountsOk(d.l, v) && ListsOk(d.l, v)
    && CountsLeft(d, txs) && SeenHits(d, txs) && RowsPresent(d, txs)
    && RemovedEmpty(d) && RestUntouched(d)
  }

  // ---------------------------------------------------------------- effect of a step on the columns

  /** Common to giving back and taking away the coin `c` of transaction `t`. */
  ghost predicate Undone(d: Undo, d': Undo, t: TxId, c: Coin) {
    && d'.l.rows == d.l.rows && d'.l.assetRows == d.l.assetRows
    && d'.l.blockTxs == d.l.blockTxs && d'.l.heights == d.l.heights
    && d'.l.bals.Keys == d.l.bals.Keys
    && (forall k {:trigger CountOf(d'.l, k)} :: Countable(k) ==>
          CountOf(d'.l, k) == CountOf(d.l, k) - OneIf(Hits(c, k) && !SeenBy(d, k, t)))
    && (forall k, x {:trigger SeenBy(d', k, x)} :: Countable(k) ==>
          (SeenBy(d', k, x) <==> SeenBy(d, k, x) || (x == t && Hits(c, k))))
    && (forall a :: a != c.addr ==> Bal(d'.l, a) == Bal(d.l, a))
    && (forall s :: s in d'.seen <==> s in d.seen || s == AddrTx(c.addr, t))
    && (forall g :: g in d'.removed ==> g in d.removed || AssetTxCount(d'.l, g) == 0)
  }

  ghost predicate Covers(l: Ledger, c: Coin, sent: bool) {
    forall k: Key :: !k.AssetKey? && Hits(c, k) ==> (if sent then SentOf(l, k) else BalanceOf(l, k)) >= Amount(c, k)
  }

  lemma CoversParts(l: Ledger, c: Coin, sent: bool)
    requires Covers(l, c, sent) && Indexable(c.addr)
    ensures (if sent then Bal(l, c.addr).sent else Bal(l, c.addr).balance) >= c.value
    ensures c.asset.Some? ==>
              var ab := AssetBal(Bal(l, c.addr), c.asset.value.guid);
              (if sent then ab.sent else ab.balance) >= c.asset.value.value
  {
    assert Hits(c, AddrKey(c.addr));
    if c.asset.Some? {
      assert Hits(c, HoldingKey(c.addr, c.asset.value.guid));
    }
  }

  lemma GiveBackKey(d: Undo, t: TxId, c: Coin, op: OutPoint, height: nat, k: Key)
    requires Indexable(c.addr) && c.addr in d.l.bals && Covers(d.l, c, true) && Countable(k)
    ensures var d' := GiveBack(d.(seen := d.seen + {AddrTx(c.addr, t)}), t, c, op, height, AddrTx(c.addr, t) in d.seen);
            && CountOf(d'.l, k) == CountOf(d.l, k) - OneIf(Hits(c, k) && !SeenBy(d, k, t))
            && (!k.AssetKey? ==>
                 BalanceOf(d'.l, k) == BalanceOf(d.l, k) + Amount(c, k)
                     && SentOf(d'.l, k) == SentOf(d.l, k) - Amount(c, k))
            && (forall x {:trigger SeenBy(d', k, x)} :: SeenBy(d', k, x) <==> SeenBy(d, k, x) || (x == t && Hits(c, k)))
  {
    hide Restore, Append;
    CoversParts(d.l, c, true);
  }

  lemma AssetPart(d: Undo, t: TxId, a: AddrDesc, b: AddrBalance, info: Option<AssetInfo>, input: bool)
    ensures var (d', b') := DisconnectAssetOpt(d, t, a, b, info, input);
            && d'.l == d.l.(assets := d'.l.assets) && d'.seen == d.seen && b' == b.(assets := b'.assets)
            && forall g :: g in d'.removed ==> g in d.removed || AssetTxCount(d'.l, g) == 0
  {
  }

  /** Only the asset counters and the row of one address change, besides the set of addresses met. */
  ghost predicate RestUndone(d: Undo, d': Undo, t: TxId, a: AddrDesc, utxos: UtxoList) {
    && a in d'.l.bals && d'.l.bals[a].utxos == utxos
    && d'.l == d.l.(assets := d'.l.assets, bals := d.l.bals[a := d'.l.bals[a]])
    && d'.seen == d.seen + {AddrTx(a, t)}
    && (forall g :: g in d'.removed ==> g in d.removed || AssetTxCount(d'.l, g) == 0)
  }

  lemma GiveBackRest(d: Undo, t: TxId, c: Coin, op: OutPoint, height: nat, exist: bool)
    requires c.addr in d.l.bals
    ensures var d' := GiveBack(d.(seen := d.seen + {AddrTx(c.addr, t)}), t, c, op, height, exist);
            RestUndone(d, d', t, c.addr,
                Restore(d.l.bals[c.addr].utxos, Utxo(op.txid, op.vout, height, c.value, c.asset)))
  {
    var b := d.l.bals[c.addr];
    var b1 := b.(txs := b.txs - OneIf(!exist),
                 sent := ZeroIfNegative(b.sent - c.value),
                 balance := b.balance + c.value,
                 utxos := Restore(b.utxos, Utxo(op.txid, op.vout, height, c.value, c.asset)));
    AssetPart(d.(seen := d.seen + {AddrTx(c.addr, t)}), t, c.addr, b1, c.asset, true);
  }

  lemma TakeAwayRest(d: Undo, t: TxId, c: Coin, i: nat, exist: bool)
    requires c.addr in d.l.bals
    ensures var d' := TakeAway(d.(seen := d.seen + {AddrTx(c.addr, t)}), t, c, i, exist);
            RestUndone(d, d', t, c.addr, MarkSpent(d.l.bals[c.addr].utxos, t, i))
  {
    var b := d.l.bals[c.addr];
    var b1 := b.(txs := b.txs - OneIf(!exist), balance := ZeroIfNegative(b.balance - c.value));
    AssetPart(d.(seen := d.seen + {AddrTx(c.addr, t)}), t, c.addr, b1, c.asset, false);
  }

  lemma GiveBackEffect(d: Undo, t: TxId, c: Coin, op: OutPoint, height: nat)
    requires Indexable(c.addr) && c.addr in d.l.bals && Covers(d.l, c, true)
    ensures var d' := GiveBack(d.(seen := d.seen + {AddrTx(c.addr, t)}), t, c, op, height, AddrTx(c.addr, t) in d.seen);
            && Undone(d, d', t, c) && d'.l.txs == d.l.txs
            && (forall k: Key {:trigger BalanceOf(d'.l, k)} {:trigger SentOf(d'.l, k)} ::
                 !k.AssetKey? && Indexable(k.addr) ==>
                  BalanceOf(d'.l, k) == BalanceOf(d.l, k) + Amount(c, k)
                      && SentOf(d'.l, k) == SentOf(d.l, k) - Amount(c, k))
            && Bal(d'.l, c.addr).utxos
                 == Restore(Bal(d.l, c.addr).utxos, Utxo(op.txid, op.vout, height, c.value, c.asset))
  {
    var d' := GiveBack(d.(seen := d.seen + {AddrTx(c.addr, t)}), t, c, op, height, AddrTx(c.addr, t) in d.seen);
    GiveBackRest(d, t, c, op, height, AddrTx(c.addr, t) in d.seen);
    forall k | Countable(k)
      ensures CountOf(d'.l, k) == CountOf(d.l, k) - OneIf(Hits(c, k) && !SeenBy(d, k, t))
      ensures !k.AssetKey? ==>
              BalanceOf(d'.l, k) == BalanceOf(d.l, k) + Amount(c, k) && SentOf(d'.l, k) == SentOf(d.l, k) - Amount(c, k)
      ensures forall x {:trigger SeenBy(d', k, x)} :: SeenBy(d', k, x) <==> SeenBy(d, k, x) || (x == t && Hits(c, k))
    {
      GiveBackKey(d, t, c, op, height, k);
    }
  }

  lemma TakeAwayKey(d: Undo, t: TxId, c: Coin, i: nat, k: Key)
    requires Indexable(c.addr) && c.addr in d.l.bals && Covers(d.l, c, false) && Countable(k)
    ensures var d' := TakeAway(d.(seen := d.seen + {AddrTx(c.addr, t)}), t, c, i, AddrTx(c.addr, t) in d.seen);
            && CountOf(d'.l, k) == CountOf(d.l, k) - OneIf(Hits(c, k) && !SeenBy(d, k, t))
            && (!k.AssetKey? ==>
                 BalanceOf(d'.l, k) == BalanceOf(d.l, k) - Amount(c, k) && SentOf(d'.l, k) == SentOf(d.l, k))
            && (forall x {:trigger SeenBy(d', k, x)} :: SeenBy(d', k, x) <==> SeenBy(d, k, x) || (x == t && Hits(c, k)))
  {
    CoversParts(d.l, c, false);
  }

  lemma TakeAwayEffect(d: Undo, t: TxId, c: Coin, i: nat)
    requires Indexable(c.addr) && c.addr in d.l.bals && Covers(d.l, c, false)
    ensures var d' := TakeAway(d.(seen := d.seen + {AddrTx(c.addr, t)}), t, c, i, AddrTx(c.addr, t) in d.seen);
            && Undone(d, d', t, c) && d'.l.txs == d.l.txs
            && (forall k: Key {:trigger BalanceOf(d'.l, k)} {:trigger SentOf(d'.l, k)} ::
                 !k.AssetKey? && Indexable(k.addr) ==>
                  BalanceOf(d'.l, k) == BalanceOf(d.l, k) - Amount(c, k) && SentOf(d'.l, k) == SentOf(d.l, k))
            && Bal(d'.l, c.addr).utxos == MarkSpent(Bal(d.l, c.addr).utxos, t, i)
  {
    var d' := TakeAway(d.(seen := d.seen + {AddrTx(c.addr, t)}), t, c, i, AddrTx(c.addr, t) in d.seen);
    TakeAwayRest(d, t, c, i, AddrTx(c.addr, t) in d.seen);
    forall k | Countable(k)
      ensures CountOf(d'.l, k) == CountOf(d.l, k) - OneIf(Hits(c, k) && !SeenBy(d, k, t))
      ensures !k.AssetKey? ==>
              BalanceOf(d'.l, k) == BalanceOf(d.l, k) - Amount(c, k) && SentOf(d'.l, k) == SentOf(d.l, k)
      ensures forall x {:trigger SeenBy(d', k, x)} :: SeenBy(d', k, x) <==> SeenBy(d, k, x) || (x == t && Hits(c, k))
    {
      TakeAwayKey(d, t, c, i, k);
    }
  }

  // ---------------------------------------------------------------- counters

  lemma OneLess(s: set<TxId>, s': set<TxId>, t: TxId, drop: bool)
    requires forall x :: x in s' <==> x in s && !(drop && x == t)
    ensures |s'| == |s| - OneIf(drop && t in s)
  {
    if drop && t in s {
      assert s' == s - {t};
    } else {
      assert s' == s;
    }
  }

  lemma UndoneCounts(d: Undo, d': Undo, txs: TxColumn, t: TxId, c: Coin)
    requires CountsLeft(d, txs) && SeenHits(d, txs) && RowsPresent(d, txs) && RemovedEmpty(d) && RestUntouched(d)
    requires Undone(d, d', t, c)
    requires t in txs && forall k :: Hits(c, k) ==> TxHits(txs[t], k)
    ensures CountsLeft(d', txs) && SeenHits(d', txs) && RowsPresent(d', txs) && RemovedEmpty(d') && RestUntouched(d')
  {
    forall g | g in d'.removed ensures AssetTxCount(d'.l, g) <= 0 {
      assert CountOf(d'.l, AssetKey(g))
          == CountOf(d.l, AssetKey(g)) - OneIf(Hits(c, AssetKey(g)) && !SeenBy(d, AssetKey(g), t));
    }
    forall a | !AddrSeen(d', a) ensures !AddrSeen(d, a) && Bal(d'.l, a) == Bal(d.l, a) {
      assert AddrTx(c.addr, t) in d'.seen;
    }
    forall k | Countable(k) ensures CountOf(d'.l, k) == |Remaining(txs, d', k)| {
      forall x ensures x in Remaining(txs, d', k) <==> x in Remaining(txs, d, k) && !(Hits(c, k) && x == t) {
        assert SeenBy(d', k, x) <==> SeenBy(d, k, x) || (x == t && Hits(c, k));
      }
      OneLess(Remaining(txs, d, k), Remaining(txs, d', k), t, Hits(c, k));
    }
    forall k, x | Countable(k) && SeenBy(d', k, x) ensures x in txs && TxHits(txs[x], k) {
      assert SeenBy(d, k, x) || (x == t && Hits(c, k));
    }
  }

  // ---------------------------------------------------------------- taking back an input

  function UnspendColumn(v: TxColumn, op: OutPoint, t: TxId, i: nat, c: Coin): TxColumn {
    SetInput(SetOutput(v, op.txid, op.vout, TxOutput(c, false, None)), t, i, NoInput)
  }

  /** Input `i` of `t` still carries the coin `c` of the spent output `op`. */
  ghost predicate UnspendReady(v: TxColumn, op: OutPoint, t: TxId, i: nat, c: Coin) {
    && op.txid in v && op.vout < |v[op.txid].outputs|
    && t in v && i < |v[t].inputs| && v[t].inputs[i].coin == c
    && v[op.txid].outputs[op.vout].coin == c && v[op.txid].outputs[op.vout].spent
  }

  lemma {:induction false} SpentInAtLeast(ins: seq<TxInput>, i: nat, k: Key)
    requires i < |ins|
    ensures Amount(ins[i].coin, k) <= SpentIn(ins, k)
  {
    if i < |ins| - 1 { SpentInAtLeast(ins[..|ins| - 1], i, k); }
  }

  lemma UnspendTotals(v: TxColumn, op: OutPoint, t: TxId, i: nat, c: Coin, k: Key)
    requires UnspendReady(v, op, t, i, c)
    ensures var now := UnspendColumn(v, op, t, i, c);
            && UnspentTotal(now, k) == UnspentTotal(v, k) + Amount(c, k)
            && SpentTotal(now, k) == SpentTotal(v, k) - Amount(c, k)
            && Amount(c, k) <= SpentTotal(v, k)
  {
    var s, o := op.txid, TxOutput(c, false, None);
    TotalAtLeast(SpentPerTx(v, k), t);
    SpentInAtLeast(v[t].inputs, i, k);
    var mid := SetOutput(v, s, op.vout, o);
    var sa := v[s].(outputs := v[s].outputs[op.vout := o]);
    UnspentInUpdate(v[s].outputs, op.vout, o, k);
    UnspentTotalUpdate(v, s, sa, k);
    SpentTotalUpdate(v, s, sa, k);
    var ta := mid[t].(inputs := mid[t].inputs[i := NoInput]);
    SpentInUpdate(mid[t].inputs, i, NoInput, k);
    UnspentTotalUpdate(mid, t, ta, k);
    SpentTotalUpdate(mid, t, ta, k);
  }

  lemma UnspendUnspent(v: TxColumn, op: OutPoint, t: TxId, i: nat, c: Coin, a: AddrDesc, u: Utxo)
    requires UnspendReady(v, op, t, i, c)
    ensures IsUnspent(UnspendColumn(v, op, t, i, c), a, u)
       <==> IsUnspent(v, a, u) || (a == c.addr && u == Utxo(op.txid, op.vout, v[op.txid].height, c.value, c.asset))
  {
    var mid := SetOutput(v, op.txid, op.vout, TxOutput(c, false, None));
    assert IsUnspent(mid, a, u)
      <==> IsUnspent(v, a, u) || (a == c.addr && u == Utxo(op.txid, op.vout, v[op.txid].height, c.value, c.asset));
  }

  lemma RestoreList(list: UtxoList, v: TxColumn, op: OutPoint, t: TxId, i: nat, c: Coin)
    requires UnspendReady(v, op, t, i, c) && Indexable(c.addr) && ListOk(list, v, c.addr)
    ensures var u := Utxo(op.txid, op.vout, v[op.txid].height, c.value, c.asset);
            ListOk(Restore(list, u), UnspendColumn(v, op, t, i, c), c.addr)
  {
    var u := Utxo(op.txid, op.vout, v[op.txid].height, c.value, c.asset);
    var s := list.slots;
    forall x | 0 <= x < |s| ensures !(s[x].txid == u.txid && s[x].vout == u.vout) {
      if s[x].vout >= 0 {
        assert s[x] in LiveSet(s);
        assert IsUnspent(v, c.addr, s[x]);
      }
    }
    RestoreKeepsValid(list, u);
    RestoreLive(list, u);
    var now := UnspendColumn(v, op, t, i, c);
    var r := Restore(list, u);
    RestoreSlots(list, u);
    forall x ensures x in LiveSet(r.slots) <==> IsUnspent(now, c.addr, x) {
      UnspendUnspent(v, op, t, i, c, c.addr, x);
    }
  }

  lemma RestoreSlots(list: UtxoList, u: Utxo)
    ensures forall i :: 0 <= i < |Restore(list, u).slots| ==>
              Restore(list, u).slots[i] == u || Restore(list, u).slots[i] in list.slots
  {
  }

  lemma UnspendLists(l: Ledger, l': Ledger, v: TxColumn, op: OutPoint, t: TxId, i: nat, c: Coin)
    requires ListsOk(l, v) && UnspendReady(v, op, t, i, c) && Indexable(c.addr)
    requires Bal(l', c.addr).utxos
          == Restore(Bal(l, c.addr).utxos, Utxo(op.txid, op.vout, v[op.txid].height, c.value, c.asset))
    requires forall a :: a != c.addr ==> Bal(l', a) == Bal(l, a)
    ensures ListsOk(l', UnspendColumn(v, op, t, i, c))
  {
    var now := UnspendColumn(v, op, t, i, c);
    forall a | Indexable(a) ensures ListOk(Bal(l', a).utxos, now, a) {
      assert ListOk(Bal(l, a).utxos, v, a);
      if a == c.addr {
        RestoreList(Bal(l, a).utxos, v, op, t, i, c);
      } else {
        forall u ensures IsUnspent(now, a, u) <==> IsUnspent(v, a, u) {
          UnspendUnspent(v, op, t, i, c, a, u);
        }
      }
    }
  }

  /** A column change that shows in no indexed address. */
  ghost predicate Invisible(v: TxColumn, now: TxColumn) {
    && v.Keys <= now.Keys
    && (forall k: Key {:trigger UnspentTotal(now, k)} {:trigger SpentTotal(now, k)} ::
         !k.AssetKey? && Indexable(k.addr) ==>
          UnspentTotal(now, k) == UnspentTotal(v, k) && SpentTotal(now, k) == SpentTotal(v, k))
    && (forall a, u {:trigger IsUnspent(now, a, u)} :: Indexable(a) ==> (IsUnspent(now, a, u) <==> IsUnspent(v, a, u)))
  }

  lemma InvisibleKeeps(l: Ledger, l': Ledger, v: TxColumn, now: TxColumn)
    requires AmountsOk(l, v) && ListsOk(l, v) && Invisible(v, now) && l'.bals == l.bals
    ensures AmountsOk(l', now) && ListsOk(l', now)
  {
    forall k: Key | !k.AssetKey? && Indexable(k.addr)
      ensures BalanceOf(l', k) == UnspentTotal(now, k) && SentOf(l', k) == SpentTotal(now, k)
    {
      assert BalanceOf(l', k) == BalanceOf(l, k) && SentOf(l', k) == SentOf(l, k);
    }
    forall a | Indexable(a) ensures ListOk(Bal(l', a).utxos, now, a) {
      assert ListOk(Bal(l, a).utxos, v, a);
    }
  }

  lemma UnspendInvisible(v: TxColumn, op: OutPoint, t: TxId, i: nat, c: Coin)
    requires UnspendReady(v, op, t, i, c) && !Indexable(c.addr)
    ensures Invisible(v, UnspendColumn(v, op, t, i, c))
  {
    var now := UnspendColumn(v, op, t, i, c);
    forall k: Key ensures UnspentTotal(now, k) == UnspentTotal(v, k) && SpentTotal(now, k) == SpentTotal(v, k) {
      UnspendTotals(v, op, t, i, c, k);
    }
    forall a, u | Indexable(a) ensures IsUnspent(now, a, u) <==> IsUnspent(v, a, u) {
      UnspendUnspent(v, op, t, i, c, a, u);
    }
  }

  lemma {:induction false} InputsHitAt(ins: seq<TxInput>, i: nat, k: Key)
    requires i < |ins| && Hits(ins[i].coin, k)
    ensures InputsHit(ins, k)
  {
    if i < |ins| - 1 { InputsHitAt(ins[..|ins| - 1], i, k); }
  }

  /** The stored column agrees with `v` on the output `op`. */
  ghost predicate SameOutput(stored: TxColumn, v: TxColumn, op: OutPoint) {
    && op.txid in stored && op.txid in v && op.vout < |stored[op.txid].outputs| && op.vout < |v[op.txid].outputs|
    && stored[op.txid].height == v[op.txid].height
    && stored[op.txid].outputs[op.vout].coin == v[op.txid].outputs[op.vout].coin
  }

  ghost predicate UndoInputReady(d: Undo, txs: TxColumn, v: TxColumn, bt: BlockTx, i: nat) {
    && bt.txid in txs && i < |txs[bt.txid].inputs| && i < |bt.inputs|
    && txs[bt.txid].inputs[i].coin.addr != NoAddr
    && UnspendReady(v, bt.inputs[i], bt.txid, i, txs[bt.txid].inputs[i].coin)
    && SameOutput(d.l.txs, v, bt.inputs[i])
  }

  lemma UndoneUnindexed(d: Undo, d': Undo, t: TxId, c: Coin)
    requires !Indexable(c.addr) && d' == d.(l := d.l.(txs := d'.l.txs), seen := d.seen + {AddrTx(c.addr, t)})
    ensures Undone(d, d', t, c)
  {
    forall k | Countable(k) ensures CountOf(d'.l, k) == CountOf(d.l, k) {
    }
    forall a ensures Bal(d'.l, a) == Bal(d.l, a) {
    }
  }

  lemma CoversSent(l: Ledger, v: TxColumn, op: OutPoint, t: TxId, i: nat, c: Coin)
    requires AmountsOk(l, v) && UnspendReady(v, op, t, i, c)
    ensures Covers(l, c, true)
  {
    forall k: Key | !k.AssetKey? && Hits(c, k) ensures SentOf(l, k) >= Amount(c, k) {
      UnspendTotals(v, op, t, i, c, k);
    }
  }

  /** Undone does not look at the txAddresses column. */
  lemma UndoneFrom(d: Undo, mid: Undo, d': Undo, t: TxId, c: Coin)
    requires mid == d.(l := d.l.(txs := mid.l.txs)) && Undone(mid, d', t, c)
    ensures Undone(d, d', t, c)
  {
    forall k ensures CountOf(mid.l, k) == CountOf(d.l, k) {
    }
    forall k, x ensures SeenBy(mid, k, x) <==> SeenBy(d, k, x) {
    }
    forall a ensures Bal(mid.l, a) == Bal(d.l, a) {
    }
  }

  lemma UndoInputIndexed(d: Undo, txs: TxColumn, v: TxColumn, bt: BlockTx, i: nat)
    requires UndoInv(d, txs, v) && UndoInputReady(d, txs, v, bt, i) && Indexable(txs[bt.txid].inputs[i].coin.addr)
    ensures var c, op := txs[bt.txid].inputs[i].coin, bt.inputs[i];
            var d' := UndoInput(d, bt, txs[bt.txid], i);
            && Undone(d, d', bt.txid, c)
            && d'.l.txs == SetOutput(d.l.txs, op.txid, op.vout, TxOutput(c, false, None))
            && AmountsOk(d'.l, UnspendColumn(v, op, bt.txid, i, c))
                 && ListsOk(d'.l, UnspendColumn(v, op, bt.txid, i, c))
  {
    hide CountsLeft, SeenHits, RemovedEmpty, RestUntouched, GiveBack, Undone, UnspentTotal, SpentTotal;
    var t, c, op := bt.txid, txs[bt.txid].inputs[i].coin, bt.inputs[i];
    var now := UnspendColumn(v, op, t, i, c);
    InputsHitAt(txs[t].inputs, i, AddrKey(c.addr));
    assert TxHits(txs[t], AddrKey(c.addr));
    var mid := d.(l := d.l.(txs := SetOutput(d.l.txs, op.txid, op.vout, TxOutput(c, false, None))));
    assert AmountsOk(mid.l, v) && ListsOk(mid.l, v) by {
      SameBalances(d.l, mid.l, v);
    }
    CoversSent(mid.l, v, op, t, i, c);
    GiveBackEffect(mid, t, c, op, v[op.txid].height);
    var d' := UndoInput(d, bt, txs[t], i);
    assert d' == GiveBack(mid.(seen := d.seen + {AddrTx(c.addr, t)}), t, c, op, v[op.txid].height,
        AddrTx(c.addr, t) in d.seen);
    UndoneFrom(d, mid, d', t, c);
    assert AmountsOk(d'.l, now) by {
      forall k: Key | !k.AssetKey? && Indexable(k.addr)
        ensures BalanceOf(d'.l, k) == UnspentTotal(now, k) && SentOf(d'.l, k) == SpentTotal(now, k)
      {
        UnspendTotals(v, op, t, i, c, k);
        assert BalanceOf(mid.l, k) == UnspentTotal(v, k) && SentOf(mid.l, k) == SpentTotal(v, k);
      }
    }
    UnspendLists(mid.l, d'.l, v, op, t, i, c);
  }

  lemma SameBalances(l: Ledger, l': Ledger, v: TxColumn)
    requires AmountsOk(l, v) && ListsOk(l, v) && l'.bals == l.bals
    ensures AmountsOk(l', v) && ListsOk(l', v)
  {
    InvisibleKeeps(l, l', v, v);
  }

  /** Taking back an input: its output is unspent again, for the balances and in the stored column. */
  lemma UndoInputKeeps(d: Undo, txs: TxColumn, v: TxColumn, bt: BlockTx, i: nat)
    requires UndoInv(d, txs, v) && UndoInputReady(d, txs, v, bt, i)
    ensures var c, op := txs[bt.txid].inputs[i].coin, bt.inputs[i];
            var d' := UndoInput(d, bt, txs[bt.txid], i);
            && UndoInv(d', txs, UnspendColumn(v, op, bt.txid, i, c)) && Undone(d, d', bt.txid, c)
            && d'.l.txs == SetOutput(d.l.txs, op.txid, op.vout, TxOutput(c, false, None))
  {
    var t, c, op := bt.txid, txs[bt.txid].inputs[i].coin, bt.inputs[i];
    var d' := UndoInput(d, bt, txs[t], i);
    if Indexable(c.addr) {
      UndoInputIndexed(d, txs, v, bt, i);
    } else {
      UndoneUnindexed(d, d', t, c);
      UnspendInvisible(v, op, t, i, c);
      InvisibleKeeps(d.l, d'.l, v, UnspendColumn(v, op, t, i, c));
    }
    forall k | Hits(c, k) ensures TxHits(txs[t], k) {
      InputsHitAt(txs[t].inputs, i, k);
    }
    UndoneCounts(d, d', txs, t, c);
  }

  // ---------------------------------------------------------------- taking back an output

  /** Output `i` of `t` is still there, unspent, with coin `c`. */
  ghost predicate RemoveReady(v: TxColumn, t: TxId, i: nat, c: Coin) {
    t in v && i < |v[t].outputs| && v[t].outputs[i].coin == c && !v[t].outputs[i].spent
  }

  lemma RemoveTotals(v: TxColumn, t: TxId, i: nat, c: Coin, k: Key)
    requires RemoveReady(v, t, i, c)
    ensures var now := SetOutput(v, t, i, NoOutput);
            && UnspentTotal(now, k) == UnspentTotal(v, k) - Amount(c, k)
            && SpentTotal(now, k) == SpentTotal(v, k)
            && Amount(c, k) <= UnspentTotal(v, k)
  {
    var ta := v[t].(outputs := v[t].outputs[i := NoOutput]);
    UnspentTotalAtLeast(v, t, i, k);
    UnspentInUpdate(v[t].outputs, i, NoOutput, k);
    UnspentTotalUpdate(v, t, ta, k);
    SpentTotalUpdate(v, t, ta, k);
  }

  lemma RemoveUnspent(v: TxColumn, t: TxId, i: nat, c: Coin, a: AddrDesc, u: Utxo)
    requires RemoveReady(v, t, i, c) && Indexable(a)
    ensures IsUnspent(SetOutput(v, t, i, NoOutput), a, u) <==> IsUnspent(v, a, u) && !(u.txid == t && u.vout == i)
  {
  }

  lemma RemoveLists(l: Ledger, l': Ledger, v: TxColumn, t: TxId, i: nat, c: Coin)
    requires ListsOk(l, v) && RemoveReady(v, t, i, c) && Indexable(c.addr)
    requires Bal(l', c.addr).utxos == MarkSpent(Bal(l, c.addr).utxos, t, i)
    requires forall a :: a != c.addr ==> Bal(l', a) == Bal(l, a)
    ensures ListsOk(l', SetOutput(v, t, i, NoOutput))
  {
    hide ListOk, MarkSpent, SetOutput, RemoveReady;
    forall a | Indexable(a) ensures ListOk(Bal(l', a).utxos, SetOutput(v, t, i, NoOutput), a) {
      assert ListOk(Bal(l, a).utxos, v, a);
      RemoveList(Bal(l, a).utxos, v, t, i, c, a);
    }
  }

  /** One list: the output goes from that of its address. */
  lemma RemoveList(list: UtxoList, v: TxColumn, t: TxId, i: nat, c: Coin, a: AddrDesc)
    requires ListOk(list, v, a) && RemoveReady(v, t, i, c) && Indexable(c.addr) && Indexable(a)
    ensures ListOk(if a == c.addr then MarkSpent(list, t, i) else list, SetOutput(v, t, i, NoOutput), a)
  {
    hide SetOutput, MarkSpent, SpendSlot, SlotsKnown, Valid;
    var now := SetOutput(v, t, i, NoOutput);
    RemoveKnown(list, v, t, i);
    forall u ensures IsUnspent(now, a, u) <==> IsUnspent(v, a, u) && !(u.txid == t && u.vout == i) {
      RemoveUnspent(v, t, i, c, a, u);
    }
    if a == c.addr {
      var u := Utxo(t, i, v[t].height, c.value, c.asset);
      assert IsUnspent(v, a, u);
      MarkSpentLive(list, u);
      MarkKeepsValid(list, t, i);
    }
  }

  lemma RemoveKnown(list: UtxoList, v: TxColumn, t: TxId, i: nat)
    requires SlotsKnown(list.slots, v) && t in v && i < |v[t].outputs|
    ensures SlotsKnown(list.slots, SetOutput(v, t, i, NoOutput))
    ensures SlotsKnown(MarkSpent(list, t, i).slots, SetOutput(v, t, i, NoOutput))
  {
    hide SpendSlot;
  }

  lemma MarkKeepsValid(list: UtxoList, t: TxId, i: nat)
    requires Valid(list) && SpendSlot(list, t, i) < |list.slots|
    ensures Valid(MarkSpent(list, t, i))
  {
    TombstoneKeepsValid(list, SpendSlot(list, t, i));
  }

  ghost predicate UndoOutputReady(txs: TxColumn, v: TxColumn, t: TxId, i: nat) {
    && t in txs && i < |txs[t].outputs| && txs[t].outputs[i].coin.addr != NoAddr
    && RemoveReady(v, t, i, txs[t].outputs[i].coin)
  }

  lemma UndoOutputIndexed(d: Undo, txs: TxColumn, v: TxColumn, t: TxId, i: nat)
    requires UndoInv(d, txs, v) && UndoOutputReady(txs, v, t, i) && Indexable(txs[t].outputs[i].coin.addr)
    ensures var c := txs[t].outputs[i].coin;
            var d' := UndoOutput(d, t, txs[t], i);
            && Undone(d, d', t, c) && d'.l.txs == d.l.txs
            && AmountsOk(d'.l, SetOutput(v, t, i, NoOutput)) && ListsOk(d'.l, SetOutput(v, t, i, NoOutput))
  {
    hide CountsLeft, SeenHits, RemovedEmpty, RestUntouched, TakeAway, Undone, UnspentTotal, SpentTotal;
    var c := txs[t].outputs[i].coin;
    var now := SetOutput(v, t, i, NoOutput);
    OutputsHitAt(txs[t].outputs, i, AddrKey(c.addr));
    assert TxHits(txs[t], AddrKey(c.addr));
    assert Covers(d.l, c, false) by {
      forall k: Key | !k.AssetKey? && Hits(c, k) ensures BalanceOf(d.l, k) >= Amount(c, k) {
        RemoveTotals(v, t, i, c, k);
      }
    }
    TakeAwayEffect(d, t, c, i);
    var d' := UndoOutput(d, t, txs[t], i);
    assert AmountsOk(d'.l, now) by {
      forall k: Key | !k.AssetKey? && Indexable(k.addr)
        ensures BalanceOf(d'.l, k) == UnspentTotal(now, k) && SentOf(d'.l, k) == SpentTotal(now, k)
      {
        RemoveTotals(v, t, i, c, k);
        assert BalanceOf(d.l, k) == UnspentTotal(v, k) && SentOf(d.l, k) == SpentTotal(v, k);
      }
    }
    RemoveLists(d.l, d'.l, v, t, i, c);
  }

  lemma UndoOutputKeeps(d: Undo, txs: TxColumn, v: TxColumn, t: TxId, i: nat)
    requires UndoInv(d, txs, v) && UndoOutputReady(txs, v, t, i)
    ensures var d' := UndoOutput(d, t, txs[t], i);
            && UndoInv(d', txs, SetOutput(v, t, i, NoOutput)) && Undone(d, d', t, txs[t].outputs[i].coin)
            && d'.l.txs == d.l.txs
  {
    var c := txs[t].outputs[i].coin;
    var d' := UndoOutput(d, t, txs[t], i);
    var now := SetOutput(v, t, i, NoOutput);
    if Indexable(c.addr) {
      UndoOutputIndexed(d, txs, v, t, i);
    } else {
      UndoneUnindexed(d, d', t, c);
      assert Invisible(v, now) by {
        forall k: Key ensures UnspentTotal(now, k) == UnspentTotal(v, k) && SpentTotal(now, k) == SpentTotal(v, k) {
          RemoveTotals(v, t, i, c, k);
        }
        forall a, u | Indexable(a) ensures IsUnspent(now, a, u) <==> IsUnspent(v, a, u) {
          RemoveUnspent(v, t, i, c, a, u);
        }
      }
      InvisibleKeeps(d.l, d'.l, v, now);
    }
    forall k | Hits(c, k) ensures TxHits(txs[t], k) {
      OutputsHitAt(txs[t].outputs, i, k);
    }
    UndoneCounts(d, d', txs, t, c);
  }
}
