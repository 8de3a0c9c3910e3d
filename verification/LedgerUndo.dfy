// Disconnecting a block: inputs are taken back first, then outputs, then the rows of the
// block are deleted and the touched balances stored again.
module LedgerUndo {
  import opened Types
  import opened UtxoIndex
  import opened LedgerModel

  datatype AddrTx = AddrTx(addr: AddrDesc, txid: TxId)
  datatype AssetTxSeen = AssetTxSeen(guid: Guid, txid: TxId)

  /** The columns while a block is being disconnected, with what was already met in the block. */
  datatype Undo = Undo(
    l: Ledger,
    seen: set<AddrTx>,              // blockAddressesTxs
    seenAssets: set<AssetTxSeen>,   // blockAssetTxs
    moved: set<Moved>,              // blockTxAssetAddresses
    removed: set<Guid>)             // assets marked for removal

  function ZeroIfNegative(x: int): int { if x < 0 then 0 else x }

  /** DisconnectAllocationInput (`input` true) and DisconnectAllocationOutput. */
  function DisconnectAsset(d: Undo, t: TxId, a: AddrDesc, b: AddrBalance, info: AssetInfo, input: bool): (Undo,
                           AddrBalance) {
    var g := info.guid;
    var exists_ := AssetTxSeen(g, t) in d.seenAssets;
    var count := AssetTxCount(d.l, g) - OneIf(!exists_);
    var counted := Moved(g, t, a) in d.moved;
    var ab := AssetBal(b, g);
    var transfers := ab.transfers - OneIf(!counted);
    var ab' := if input then AssetBalance(transfers, ZeroIfNegative(ab.sent - info.value), ab.balance + info.value)
               else AssetBalance(transfers, ab.sent, ZeroIfNegative(ab.balance - info.value));
    // only the output side marks an asset without transactions for removal
    var removed := if !input && !exists_ && count == 0 then d.removed + {g} else d.removed;
    (Undo(d.l.(assets := d.l.assets[g := count]), d.seen, d.seenAssets + {AssetTxSeen(g, t)},
          d.moved + {Moved(g, t, a)}, removed),
     b.(assets := b.assets[g := ab']))
  }

  function DisconnectAssetOpt(d: Undo, t: TxId, a: AddrDesc, b: AddrBalance, info: Option<AssetInfo>,
                              input: bool): (Undo, AddrBalance) {
    match info
    case None => (d, b)
    case Some(i) => DisconnectAsset(d, t, a, b, i, input)
  }

  function PutBalance(d: Undo, a: AddrDesc, b: AddrBalance): Undo {
    d.(l := d.l.(bals := d.l.bals[a := b]))
  }

  /** The address of coin `c` gets the output `op` back. `exist` tells whether `t` was met before for it. */
  function GiveBack(d: Undo, t: TxId, c: Coin, op: OutPoint, height: nat, exist: bool): Undo
    requires c.addr in d.l.bals
  {
    var b := d.l.bals[c.addr];
    var b1 := b.(txs := b.txs - OneIf(!exist),
                 sent := ZeroIfNegative(b.sent - c.value),
                 balance := b.balance + c.value,
                 utxos := Restore(b.utxos, Utxo(op.txid, op.vout, height, c.value, c.asset)));
    var (d', b2) := DisconnectAssetOpt(d, t, c.addr, b1, c.asset, true);
    PutBalance(d', c.addr, b2)
  }

  /** Takes back input `i` of the transaction stored as `ta`. An address without balance row is skipped. */
  function UndoInput(d: Undo, bt: BlockTx, ta: TxAddresses, i: nat): Undo
    requires i < |ta.inputs|
  {
    var c := ta.inputs[i].coin;
    if c.addr == NoAddr || i >= |bt.inputs| then d
    else
      var op := bt.inputs[i];
      var exist := AddrTx(c.addr, bt.txid) in d.seen;
      var height := if op.txid in d.l.txs then d.l.txs[op.txid].height else 0;
      var txs := if op.txid in d.l.txs && op.vout < |d.l.txs[op.txid].outputs|
                 then SetOutput(d.l.txs, op.txid, op.vout,
                     TxOutput(d.l.txs[op.txid].outputs[op.vout].coin, false, None))
                 else d.l.txs;
      var d' := d.(l := d.l.(txs := txs), seen := d.seen + {AddrTx(c.addr, bt.txid)});
      if Indexable(c.addr) && c.addr in d'.l.bals then GiveBack(d', bt.txid, c, op, height, exist) else d'
  }

  /** The address of coin `c` loses output `i` of transaction `t`. */
  function TakeAway(d: Undo, t: TxId, c: Coin, i: nat, exist: bool): Undo
    requires c.addr in d.l.bals
  {
    var b := d.l.bals[c.addr];
    var b1 := b.(txs := b.txs - OneIf(!exist), balance := ZeroIfNegative(b.balance - c.value));
    var (d', b2) := DisconnectAssetOpt(d, t, c.addr, b1, c.asset, false);
    PutBalance(d', c.addr, b2.(utxos := MarkSpent(b.utxos, t, i)))
  }

  function UndoOutput(d: Undo, t: TxId, ta: TxAddresses, i: nat): Undo
    requires i < |ta.outputs|
  {
    var c := ta.outputs[i].coin;
    if c.addr == NoAddr then d
    else
      var exist := AddrTx(c.addr, t) in d.seen;
      var d' := d.(seen := d.seen + {AddrTx(c.addr, t)});
      if Indexable(c.addr) && c.addr in d'.l.bals then TakeAway(d', t, c, i, exist) else d'
  }

  // ---------------------------------------------------------------- the block

  /** The stored record of a transaction of the block; a missing one has nothing to take back. */
  function StoredTx(l: Ledger, t: TxId): TxAddresses {
    if t in l.txs then l.txs[t] else TxAddresses(0, 0, [], [])
  }

  /** After taking back the inputs of the first `j` transactions of the block. */
  function UndoInputsDone(l: Ledger, bts: seq<BlockTx>, j: nat): Undo
    requires j <= |bts|
    decreases j, 0
  {
    if j == 0 then Undo(l, {}, {}, {}, {})
    else UndoInputsAt(l, bts, j - 1, |StoredTx(l, bts[j - 1].txid).inputs|)
  }

  function UndoInputsAt(l: Ledger, bts: seq<BlockTx>, j: nat, i: nat): Undo
    requires j < |bts| && i <= |StoredTx(l, bts[j].txid).inputs|
    decreases j, i + 1
  {
    if i == 0 then UndoInputsDone(l, bts, j)
    else UndoInput(UndoInputsAt(l, bts, j, i - 1), bts[j], StoredTx(l, bts[j].txid), i - 1)
  }

  function UndoOutputsDone(l: Ledger, bts: seq<BlockTx>, j: nat): Undo
    requires j <= |bts|
    decreases j, 0
  {
    if j == 0 then UndoInputsDone(l, bts, |bts|)
    else UndoOutputsAt(l, bts, j - 1, |StoredTx(l, bts[j - 1].txid).outputs|)
  }

  function UndoOutputsAt(l: Ledger, bts: seq<BlockTx>, j: nat, i: nat): Undo
    requires j < |bts| && i <= |StoredTx(l, bts[j].txid).outputs|
    decreases j, i + 1
  {
    if i == 0 then UndoOutputsDone(l, bts, j)
    else UndoOutput(UndoOutputsAt(l, bts, j, i - 1), bts[j].txid, StoredTx(l, bts[j].txid), i - 1)
  }

  /** storeBalancesDisconnect: tombstones are dropped and the rest is sorted by height. */
  function SortedList(u: UtxoList): UtxoList { Load(SortByHeight(Live(u.slots))) }

  function Txids(bts: seq<BlockTx>): set<TxId> { set j | 0 <= j < |bts| :: bts[j].txid }

  /** A balance read by the disconnect is one of an indexable address met in the block. */
  predicate Touched(d: Undo, a: AddrDesc) { Indexable(a) && exists s :: s in d.seen && s.addr == a }

  function StoredBalance(d: Undo, a: AddrDesc): AddrBalance
    requires a in d.l.bals
  {
    if Touched(d, a) then d.l.bals[a].(utxos := SortedList(d.l.bals[a].utxos)) else d.l.bals[a]
  }

  /** The write batch at the end of the disconnect. */
  function Finish(d: Undo, bts: seq<BlockTx>, h: nat): Ledger {
    Ledger(
      map t | t in d.l.txs && t !in Txids(bts) :: d.l.txs[t],
      map a | a in d.l.bals && (Touched(d, a) ==> d.l.bals[a].txs > 0) :: StoredBalance(d, a),
      map k | k in d.l.rows && !(k.height == h && exists s :: s in d.seen && s.addr == k.addr) :: d.l.rows[k],
      map g | g in d.l.assets && (g !in d.removed || g == SYSX_GUID) :: d.l.assets[g],
      map k | k in d.l.assetRows && !(k.height == h && exists s :: s in d.seenAssets && s.guid == k.guid) ::
          d.l.assetRows[k],
      d.l.blockTxs - {h},
      d.l.heights - {h})
  }

  /** None is the refusal: there is no (or an empty) record of the block's transactions. */
  function Disconnect(l: Ledger, h: nat): Option<Ledger> {
    if h !in l.blockTxs || l.blockTxs[h] == [] then None
    else
      var bts := l.blockTxs[h];
      Some(Finish(UndoOutputsDone(l, bts, |bts|), bts, h))
  }
}
