// The Bitcoin-type index as a value: its columns, and the elementary steps by which a
// block is folded into them and taken out again.
module LedgerModel {
  import opened Types
  import opened UtxoIndex

  const MAX_ADDR_DESC_LEN := 1024
  const OP_RETURN: byte := 0x6a
  // the consensus bridge asset, whose row is never removed
  const SYSX_GUID: Guid := 123456

  predicate Indexable(a: AddrDesc) { |a.script| > 0 && a.script[0] != OP_RETURN }

  const NoAddr := AddrDesc([])

  /** What an output holds and an input takes: descriptor, satoshi value, optional asset. */
  datatype Coin = Coin(addr: AddrDesc, value: nat, asset: Option<AssetInfo>)

  const NoCoin := Coin(NoAddr, 0, None)

  // ---------------------------------------------------------------- blocks

  /** `desc` is what the parser extracts from the output script, empty when it fails. */
  datatype Vout = Vout(desc: AddrDesc, value: nat, asset: Option<AssetInfo>)

  /** An input without a txid (coinbase) is None. */
  datatype Tx = Tx(txid: TxId, version: int, vin: seq<Option<OutPoint>>, vout: seq<Vout>)

  datatype Block = Block(height: nat, hash: string, txs: seq<Tx>)

  // ---------------------------------------------------------------- columns

  datatype SpendRef = SpendRef(txid: TxId, index: nat, height: nat)

  /** `prev` and `spender` are kept only by the extended index. */
  datatype TxInput = TxInput(coin: Coin, prev: Option<OutPoint>)
  datatype TxOutput = TxOutput(coin: Coin, spent: bool, spender: Option<SpendRef>)
  datatype TxAddresses = TxAddresses(height: nat, version: int, inputs: seq<TxInput>, outputs: seq<TxOutput>)

  datatype AssetBalance = AssetBalance(transfers: int, sent: int, balance: int)
  datatype AddrBalance =
    AddrBalance(txs: int, sent: int, balance: int, utxos: UtxoList, assets: map<Guid, AssetBalance>)

  /** The places of an address in one transaction: outputs i, inputs as -i-1. */
  datatype TxIndexes = TxIndexes(txid: TxId, indexes: seq<int>)
  datatype AssetTx = AssetTx(txid: TxId, version: int)
  datatype BlockTx = BlockTx(txid: TxId, inputs: seq<OutPoint>)

  datatype AddrRow = AddrRow(addr: AddrDesc, height: nat)
  datatype AssetRow = AssetRow(guid: Guid, height: nat)

  datatype Ledger = Ledger(
    txs: map<TxId, TxAddresses>,
    bals: map<AddrDesc, AddrBalance>,
    rows: map<AddrRow, seq<TxIndexes>>,
    assets: map<Guid, int>,                  // Transactions counter of the asset
    assetRows: map<AssetRow, seq<AssetTx>>,
    blockTxs: map<nat, seq<BlockTx>>,
    heights: map<nat, string>)

  const EmptyLedger := Ledger(map[], map[], map[], map[], map[], map[], map[])

  const NoBalance := AddrBalance(0, 0, 0, Empty, map[])
  const NoAssetBalance := AssetBalance(0, 0, 0)

  const NoInput := TxInput(NoCoin, None)
  const NoOutput := TxOutput(NoCoin, false, None)

  function Bal(l: Ledger, a: AddrDesc): AddrBalance {
    if a in l.bals then l.bals[a] else NoBalance
  }

  function AssetBal(b: AddrBalance, g: Guid): AssetBalance {
    if g in b.assets then b.assets[g] else NoAssetBalance
  }

  function AssetTxCount(l: Ledger, g: Guid): int {
    if g in l.assets then l.assets[g] else 0
  }

  function RowOf(l: Ledger, k: AddrRow): seq<TxIndexes> {
    if k in l.rows then l.rows[k] else []
  }

  function AssetRowOf(l: Ledger, k: AssetRow): seq<AssetTx> {
    if k in l.assetRows then l.assetRows[k] else []
  }

  // ---------------------------------------------------------------- connecting

  /** Triples (asset, tx, address) whose transfer was counted in the block at hand. */
  datatype Moved = Moved(guid: Guid, txid: TxId, addr: AddrDesc)

  /** The columns while a block is being worked on. */
  datatype Work = Work(l: Ledger, moved: set<Moved>)

  function FindEntry(row: seq<TxIndexes>, t: TxId, from: nat): (i: nat)
    requires from <= |row|
    ensures from <= i <= |row|
    ensures i < |row| ==> row[i].txid == t
    ensures forall k :: from <= k < i ==> row[k].txid != t
    decreases |row| - from
  {
    if from == |row| || row[from].txid == t then from else FindEntry(row, t, from + 1)
  }

  /** addToAddressesMap: a transaction already listed gets one more index. */
  function AddIndex(row: seq<TxIndexes>, t: TxId, index: int): seq<TxIndexes> {
    var i := FindEntry(row, t, 0);
    if i < |row| then row[i := TxIndexes(t, row[i].indexes + [index])] else row + [TxIndexes(t, [index])]
  }

  predicate Listed(row: seq<TxIndexes>, t: TxId) { FindEntry(row, t, 0) < |row| }

  predicate AssetListed(row: seq<AssetTx>, t: TxId) { exists i :: 0 <= i < |row| && row[i].txid == t }

  function OneIf(b: bool): int { if b then 1 else 0 }

  /** The asset side of connecting one output (`spend` false) or input (`spend` true) of transaction `t`. */
  function ConnectAsset(w: Work, h: nat, t: TxId, version: int, a: AddrDesc, b: AddrBalance, info: AssetInfo,
                        spend: bool)
    : (Work, AddrBalance)
  {
    var g := info.guid;
    var key := AssetRow(g, h);
    var row := AssetRowOf(w.l, key);
    var counted := AssetListed(row, t);
    var l := w.l.(assetRows := w.l.assetRows[key := if counted then row else row + [AssetTx(t, version)]],
                  assets := if counted then w.l.assets else w.l.assets[g := AssetTxCount(w.l, g) + 1]);
    var moved := Moved(g, t, a) in w.moved;
    var ab := AssetBal(b, g);
    var transfers := ab.transfers + OneIf(!moved);
    var left := ab.balance - info.value;
    var ab' := if spend then AssetBalance(transfers, ab.sent + info.value, if left < 0 then 0 else left)
               else AssetBalance(transfers, ab.sent, ab.balance + info.value);
    (Work(l, w.moved + {Moved(g, t, a)}), b.(assets := b.assets[g := ab']))
  }

  function ConnectAssetOpt(w: Work, h: nat, t: TxId, version: int, a: AddrDesc, b: AddrBalance,
                           info: Option<AssetInfo>, spend: bool)
    : (Work, AddrBalance)
  {
    match info
    case None => (w, b)
    case Some(i) => ConnectAsset(w, h, t, version, a, b, i, spend)
  }

  /** Lists `t` under the address and stores its balance, with one transaction more unless it was listed. */
  function StoreTouched(w: Work, h: nat, t: TxId, a: AddrDesc, b: AddrBalance, index: int): Work {
    var key := AddrRow(a, h);
    var row := RowOf(w.l, key);
    w.(l := w.l.(rows := w.l.rows[key := AddIndex(row, t, index)],
                 bals := w.l.bals[a := b.(txs := b.txs + OneIf(!Listed(row, t)))]))
  }

  /** An address descriptor is kept only if it is neither empty nor too long. */
  function CleanAddr(a: AddrDesc): AddrDesc {
    if 0 < |a.script| <= MAX_ADDR_DESC_LEN then a else NoAddr
  }

  function CoinOf(o: Vout): Coin { Coin(CleanAddr(o.desc), o.value, o.asset) }

  /** First touch of a transaction: its record with blank outputs and no inputs yet. */
  function NewTx(w: Work, b: Block, tx: Tx): Work {
    w.(l := w.l.(txs := w.l.txs[tx.txid :=
                   TxAddresses(b.height, tx.version, [], seq(|tx.vout|, i => NoOutput))]))
  }

  function SetOutput(txs: map<TxId, TxAddresses>, t: TxId, i: nat, o: TxOutput): map<TxId, TxAddresses>
  {
    if t in txs && i < |txs[t].outputs| then txs[t := txs[t].(outputs := txs[t].outputs[i := o])] else txs
  }

  function SetInput(txs: map<TxId, TxAddresses>, t: TxId, i: nat, o: TxInput): map<TxId, TxAddresses>
  {
    if t in txs && i < |txs[t].inputs| then txs[t := txs[t].(inputs := txs[t].inputs[i := o])] else txs
  }

  /** What an output of value `c` of transaction `t` adds to its address. */
  function Receive(w: Work, h: nat, t: TxId, version: int, c: Coin, i: nat): Work {
    var b := Bal(w.l, c.addr);
    var (w', b') := ConnectAssetOpt(w, h, t, version, c.addr, b.(balance := b.balance + c.value), c.asset, false);
    StoreTouched(w', h, t, c.addr, b'.(utxos := Append(b'.utxos, Utxo(t, i, h, c.value, c.asset))), i)
  }

  function AddOutput(w: Work, b: Block, tx: Tx, i: nat): Work
    requires i < |tx.vout|
  {
    var c := CoinOf(tx.vout[i]);
    var w' := w.(l := w.l.(txs := SetOutput(w.l.txs, tx.txid, i, TxOutput(c, false, None))));
    if Indexable(c.addr) then Receive(w', b.height, tx.txid, tx.version, c, i) else w'
  }

  function NewInputs(w: Work, tx: Tx): Work {
    if tx.txid !in w.l.txs then w
    else w.(l := w.l.(txs := w.l.txs[tx.txid := w.l.txs[tx.txid].(inputs := seq(|tx.vin|, i => NoInput))]))
  }

  /** What spending the output `op` worth `c` by input `i` of transaction `t` takes from its address. */
  function Spend(w: Work, h: nat, t: TxId, version: int, c: Coin, op: OutPoint, i: nat): Work
  {
    var b := Bal(w.l, c.addr);
    var left := b.balance - c.value;
    var (w', b') := ConnectAssetOpt(w, h, t, version, c.addr, b, c.asset, true);
    StoreTouched(w', h, t, c.addr,
      b'.(utxos := MarkSpent(b.utxos, op.txid, op.vout),
          balance := if left < 0 then 0 else left,
          sent := b.sent + c.value), -(i as int) - 1)
  }

  /** The output an input refers to, if the index knows it. */
  function Source(l: Ledger, op: OutPoint): Option<TxOutput> {
    if op.txid in l.txs && op.vout < |l.txs[op.txid].outputs| then Some(l.txs[op.txid].outputs[op.vout]) else None
  }

  /** Inputs without txid, of unknown transactions or out of bounds stay blank. */
  function SpendInput(w: Work, ext: bool, b: Block, tx: Tx, i: nat): Work
    requires i < |tx.vin|
  {
    if tx.vin[i].None? || Source(w.l, tx.vin[i].value).None? then w
    else
      var op := tx.vin[i].value;
      var o := Source(w.l, op).value;
      var spender := if ext then Some(SpendRef(tx.txid, i, b.height)) else o.spender;
      var txs := SetOutput(w.l.txs, op.txid, op.vout, TxOutput(o.coin, true, spender));
      var w' := w.(l := w.l.(txs := SetInput(txs, tx.txid, i, TxInput(o.coin, if ext then Some(op) else None))));
      if Indexable(o.coin.addr) then Spend(w', b.height, tx.txid, tx.version, o.coin, op, i) else w'
  }

  // ---------------------------------------------------------------- a block

  /** After the outputs of the first `j` transactions. */
  function OutputsDone(l: Ledger, b: Block, j: nat): Work
    requires j <= |b.txs|
    decreases j, 0
  {
    if j == 0 then Work(l, {}) else OutputsAt(l, b, j - 1, |b.txs[j - 1].vout|)
  }

  /** After the outputs of the first `j` transactions and the first `i` outputs of the next one. */
  function OutputsAt(l: Ledger, b: Block, j: nat, i: nat): Work
    requires j < |b.txs| && i <= |b.txs[j].vout|
    decreases j, i + 1
  {
    if i == 0 then NewTx(OutputsDone(l, b, j), b, b.txs[j])
    else AddOutput(OutputsAt(l, b, j, i - 1), b, b.txs[j], i - 1)
  }

  /** After all outputs and the inputs of the first `j` transactions. */
  function InputsDone(l: Ledger, ext: bool, b: Block, j: nat): Work
    requires j <= |b.txs|
    decreases j, 0
  {
    if j == 0 then OutputsDone(l, b, |b.txs|) else InputsAt(l, ext, b, j - 1, |b.txs[j - 1].vin|)
  }

  function InputsAt(l: Ledger, ext: bool, b: Block, j: nat, i: nat): Work
    requires j < |b.txs| && i <= |b.txs[j].vin|
    decreases j, i + 1
  {
    if i == 0 then NewInputs(InputsDone(l, ext, b, j), b.txs[j])
    else SpendInput(InputsAt(l, ext, b, j, i - 1), ext, b, b.txs[j], i - 1)
  }

  /** processAddressesBitcoinType: all outputs of the block come first so that inputs can refer to transactions of the
      same block. */
  function Process(l: Ledger, ext: bool, b: Block): Ledger { InputsDone(l, ext, b, |b.txs|).l }

  const ZeroTx := TxId([])

  function BlockTxOf(tx: Tx): BlockTx {
    BlockTx(tx.txid, seq(|tx.vin|, i requires 0 <= i < |tx.vin| =>
      if tx.vin[i].Some? then tx.vin[i].value else OutPoint(ZeroTx, 0)))
  }

  function BlockTxsOf(b: Block): seq<BlockTx> {
    seq(|b.txs|, j requires 0 <= j < |b.txs| => BlockTxOf(b.txs[j]))
  }
}
