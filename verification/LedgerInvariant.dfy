// What every state of the index satisfies: balances, counters, UTXO lists and history
// rows are all determined by the txAddresses column.
module LedgerInvariant {
  import opened Types
  import opened UtxoIndex
  import opened LedgerModel
  import opened Totals

  // ---------------------------------------------------------------- what transactions say

  /** What is counted: an address, an address's holding of one asset, an asset as such. */
  datatype Key = AddrKey(addr: AddrDesc) | HoldingKey(addr: AddrDesc, guid: Guid) | AssetKey(guid: Guid)

  predicate Countable(k: Key) { k.AssetKey? || Indexable(k.addr) }

  predicate CarriesAsset(c: Coin, g: Guid) { c.asset.Some? && c.asset.value.guid == g }

  predicate Hits(c: Coin, k: Key) {
    && Indexable(c.addr)
    && match k
       case AddrKey(a) => c.addr == a
       case HoldingKey(a, g) => c.addr == a && CarriesAsset(c, g)
       case AssetKey(g) => CarriesAsset(c, g)
  }

  function Amount(c: Coin, k: Key): nat {
    if !Hits(c, k) then 0 else if k.AddrKey? then c.value else c.asset.value.value
  }

  function OutputAmount(o: TxOutput, k: Key): nat { if o.spent then 0 else Amount(o.coin, k) }

  function UnspentIn(outs: seq<TxOutput>, k: Key): nat {
    if outs == [] then 0 else UnspentIn(outs[..|outs| - 1], k) + OutputAmount(outs[|outs| - 1], k)
  }

  function SpentIn(ins: seq<TxInput>, k: Key): nat {
    if ins == [] then 0 else SpentIn(ins[..|ins| - 1], k) + Amount(ins[|ins| - 1].coin, k)
  }

  type TxColumn = map<TxId, TxAddresses>

  ghost function UnspentPerTx(txs: TxColumn, k: Key): map<TxId, int> {
    map t | t in txs :: UnspentIn(txs[t].outputs, k)
  }

  ghost function SpentPerTx(txs: TxColumn, k: Key): map<TxId, int> {
    map t | t in txs :: SpentIn(txs[t].inputs, k)
  }

  /** Sum over all unspent outputs of the key. */
  ghost function UnspentTotal(txs: TxColumn, k: Key): int { Total(UnspentPerTx(txs, k)) }

  /** Sum over all inputs that took from the key. */
  ghost function SpentTotal(txs: TxColumn, k: Key): int { Total(SpentPerTx(txs, k)) }

  predicate OutputsHit(outs: seq<TxOutput>, k: Key) {
    outs != [] && (OutputsHit(outs[..|outs| - 1], k) || Hits(outs[|outs| - 1].coin, k))
  }

  predicate InputsHit(ins: seq<TxInput>, k: Key) {
    ins != [] && (InputsHit(ins[..|ins| - 1], k) || Hits(ins[|ins| - 1].coin, k))
  }

  predicate TxHits(ta: TxAddresses, k: Key) { OutputsHit(ta.outputs, k) || InputsHit(ta.inputs, k) }

  /** The transactions in which the key takes part. */
  ghost function Touching(txs: TxColumn, k: Key): set<TxId> {
    set t | t in txs && TxHits(txs[t], k)
  }

  ghost predicate IsUnspent(txs: TxColumn, a: AddrDesc, u: Utxo) {
    && u.txid in txs && 0 <= u.vout < |txs[u.txid].outputs|
    && var o := txs[u.txid].outputs[u.vout];
       !o.spent && o.coin == Coin(a, u.value, u.asset) && u.height == txs[u.txid].height
  }

  /** Where an address occurs among the outputs, in order. */
  function OutputIndexes(outs: seq<TxOutput>, a: AddrDesc): seq<int> {
    if outs == [] then []
    else OutputIndexes(outs[..|outs| - 1], a) + if outs[|outs| - 1].coin.addr == a then [|outs| - 1] else []
  }

  function InputIndexes(ins: seq<TxInput>, a: AddrDesc): seq<int> {
    if ins == [] then []
    else InputIndexes(ins[..|ins| - 1], a) + if ins[|ins| - 1].coin.addr == a then [-|ins|] else []
  }

  function Indexes(ta: TxAddresses, a: AddrDesc): seq<int> {
    OutputIndexes(ta.outputs, a) + InputIndexes(ta.inputs, a)
  }

  // ---------------------------------------------------------------- what the columns say

  function BalanceOf(l: Ledger, k: Key): int
    requires !k.AssetKey?
  {
    if k.AddrKey? then Bal(l, k.addr).balance else AssetBal(Bal(l, k.addr), k.guid).balance
  }

  function SentOf(l: Ledger, k: Key): int
    requires !k.AssetKey?
  {
    if k.AddrKey? then Bal(l, k.addr).sent else AssetBal(Bal(l, k.addr), k.guid).sent
  }

  /** Transactions of an address, transfers of a holding, transactions of an asset. */
  function CountOf(l: Ledger, k: Key): int {
    match k
    case AddrKey(a) => Bal(l, a).txs
    case HoldingKey(a, g) => AssetBal(Bal(l, a), g).transfers
    case AssetKey(g) => AssetTxCount(l, g)
  }

  // ---------------------------------------------------------------- invariant

  ghost predicate AmountsOk(l: Ledger, txs: TxColumn) {
    forall k: Key {:trigger BalanceOf(l, k)} {:trigger SentOf(l, k)} :: !k.AssetKey? && Indexable(k.addr) ==>
      BalanceOf(l, k) == UnspentTotal(txs, k) && SentOf(l, k) == SpentTotal(txs, k)
  }

  ghost predicate CountsOk(l: Ledger, txs: TxColumn) {
    forall k :: Countable(k) ==> CountOf(l, k) == |Touching(txs, k)|
  }

  ghost predicate SlotsKnown(s: seq<Utxo>, txs: TxColumn) {
    forall i :: 0 <= i < |s| ==> s[i].txid in txs
  }

  /** The live part of an address's list is in bijection with its unspent outputs. */
  ghost predicate ListOk(list: UtxoList, txs: TxColumn, a: AddrDesc) {
    && Valid(list) && SlotsKnown(list.slots, txs)
    && forall u :: u in LiveSet(list.slots) <==> IsUnspent(txs, a, u)
  }

  ghost predicate ListsOk(l: Ledger, txs: TxColumn) {
    forall a :: Indexable(a) ==> ListOk(Bal(l, a).utxos, txs, a)
  }

  ghost predicate DistinctTxids(row: seq<TxIndexes>) {
    forall i, j :: 0 <= i < j < |row| ==> row[i].txid != row[j].txid
  }

  /** A history row lists the transactions of that height that touch the address, each once, with all places. */
  ghost predicate RowOk(row: seq<TxIndexes>, txs: TxColumn, a: AddrDesc, h: nat) {
    && DistinctTxids(row)
    && (forall i :: 0 <= i < |row| ==> row[i].txid in txs && row[i].indexes == Indexes(txs[row[i].txid], a))
    && (forall t :: Listed(row, t) <==> t in txs && txs[t].height == h && TxHits(txs[t], AddrKey(a)))
  }

  ghost predicate RowsOk(l: Ledger, txs: TxColumn) {
    && (forall k :: k in l.rows ==> Indexable(k.addr) && l.rows[k] != [])
    && (forall k: AddrRow :: Indexable(k.addr) ==> RowOk(RowOf(l, k), txs, k.addr, k.height))
  }

  ghost predicate AssetRowsOk(l: Ledger, txs: TxColumn) {
    forall k, t {:trigger AssetListed(AssetRowOf(l, k), t)} :: AssetListed(AssetRowOf(l, k), t) <==>
                   t in txs && txs[t].height == k.height && TxHits(txs[t], AssetKey(k.guid))
  }

  /** An address has a balance row only if some transaction touches it. */
  ghost predicate PresenceOk(l: Ledger) {
    forall a :: a in l.bals ==> Indexable(a) && l.bals[a].txs > 0
  }

  ghost predicate Inv(l: Ledger) {
    && AmountsOk(l, l.txs) && CountsOk(l, l.txs) && ListsOk(l, l.txs)
    && RowsOk(l, l.txs)
    && AssetRowsOk(l, l.txs)
    && PresenceOk(l)
  }

  /** The transfers counted so far in the block of height `h`. */
  ghost predicate MovedOk(moved: set<Moved>, txs: TxColumn, h: nat) {
    forall g, t, a :: Indexable(a) ==>
      (Moved(g, t, a) in moved <==> t in txs && txs[t].height == h && TxHits(txs[t], HoldingKey(a, g)))
  }

  ghost predicate WorkInv(w: Work, h: nat) { Inv(w.l) && MovedOk(w.moved, w.l.txs, h) }

  // ---------------------------------------------------------------- sums under single updates

  lemma {:induction false} UnspentInUpdate(outs: seq<TxOutput>, i: nat, o: TxOutput, k: Key)
    requires i < |outs|
    ensures UnspentIn(outs[i := o], k) == UnspentIn(outs, k) - OutputAmount(outs[i], k) + OutputAmount(o, k)
  {
    var n := |outs| - 1;
    if i < n {
      assert outs[i := o][..n] == outs[..n][i := o];
      UnspentInUpdate(outs[..n], i, o, k);
    } else {
      assert outs[i := o][..n] == outs[..n];
    }
  }

  lemma {:induction false} SpentInUpdate(ins: seq<TxInput>, i: nat, o: TxInput, k: Key)
    requires i < |ins|
    ensures SpentIn(ins[i := o], k) == SpentIn(ins, k) - Amount(ins[i].coin, k) + Amount(o.coin, k)
  {
    var n := |ins| - 1;
    if i < n {
      assert ins[i := o][..n] == ins[..n][i := o];
      SpentInUpdate(ins[..n], i, o, k);
    } else {
      assert ins[i := o][..n] == ins[..n];
    }
  }

  /** Replacing one record changes the total by the difference of its unspent sums. */
  lemma UnspentTotalUpdate(txs: TxColumn, t: TxId, ta: TxAddresses, k: Key)
    ensures UnspentTotal(txs[t := ta], k)
         == UnspentTotal(txs, k) - (if t in txs then UnspentIn(txs[t].outputs, k) else 0) + UnspentIn(ta.outputs, k)
  {
    assert UnspentPerTx(txs[t := ta], k) == UnspentPerTx(txs, k)[t := UnspentIn(ta.outputs, k)];
    TotalUpdate(UnspentPerTx(txs, k), t, UnspentIn(ta.outputs, k));
  }

  lemma SpentTotalUpdate(txs: TxColumn, t: TxId, ta: TxAddresses, k: Key)
    ensures SpentTotal(txs[t := ta], k)
         == SpentTotal(txs, k) - (if t in txs then SpentIn(txs[t].inputs, k) else 0) + SpentIn(ta.inputs, k)
  {
    assert SpentPerTx(txs[t := ta], k) == SpentPerTx(txs, k)[t := SpentIn(ta.inputs, k)];
    TotalUpdate(SpentPerTx(txs, k), t, SpentIn(ta.inputs, k));
  }

  lemma {:induction false} UnspentInAtLeast(outs: seq<TxOutput>, i: nat, k: Key)
    requires i < |outs|
    ensures OutputAmount(outs[i], k) <= UnspentIn(outs, k)
  {
    if i < |outs| - 1 { UnspentInAtLeast(outs[..|outs| - 1], i, k); }
  }

  /** An unspent output is covered by the total of its key: no balance can go negative by spending it. */
  lemma UnspentTotalAtLeast(txs: TxColumn, t: TxId, i: nat, k: Key)
    requires t in txs && i < |txs[t].outputs|
    ensures OutputAmount(txs[t].outputs[i], k) <= UnspentTotal(txs, k)
  {
    TotalAtLeast(UnspentPerTx(txs, k), t);
    UnspentInAtLeast(txs[t].outputs, i, k);
  }
}
