// What the blocks of a chain say by themselves: who is paid, who is spent from, in which order. Nothing here
// speaks of the index; `ChainIndex` proves that the index says the same.
module ChainReading {
  import opened Types
  import opened LedgerModel
  import opened LedgerInvariant

  /** An address is paid by a script of 1 to 1024 bytes that does not start with the byte of OP_RETURN. */
  predicate Attributed(o: Vout) { 1 <= |o.desc.script| <= 1024 && o.desc.script[0] != 0x6a }

  /** The output pays an address, one of its holdings, or anybody in an asset. */
  predicate Pays(o: Vout, k: Key) {
    && Attributed(o)
    && match k
       case AddrKey(a) => o.desc == a
       case HoldingKey(a, g) => o.desc == a && o.asset.Some? && o.asset.value.guid == g
       case AssetKey(g) => o.asset.Some? && o.asset.value.guid == g
  }

  function Pay(o: Vout, k: Key): nat {
    if !Pays(o, k) then 0 else if k.AddrKey? then o.value else o.asset.value.value
  }

  predicate TxPays(tx: Tx, k: Key) { exists i :: 0 <= i < |tx.vout| && Pays(tx.vout[i], k) }

  // ---------------------------------------------------------------- outputs that inputs name

  /** The output of that name among some transactions. */
  function VoutIn(txs: seq<Tx>, op: OutPoint): Option<Vout> {
    if txs == [] then None
    else
      var tx := txs[|txs| - 1];
      if tx.txid == op.txid && op.vout < |tx.vout| then Some(tx.vout[op.vout]) else VoutIn(txs[..|txs| - 1], op)
  }

  function VoutOf(chain: seq<Block>, op: OutPoint): Option<Vout> {
    if chain == [] then None
    else
      var o := VoutIn(chain[|chain| - 1].txs, op);
      if o.Some? then o else VoutOf(chain[..|chain| - 1], op)
  }

  /** What an input takes: the output it names, unless it names none. */
  function Given(chain: seq<Block>, vin: Option<OutPoint>): Option<Vout> {
    if vin.None? then None else VoutOf(chain, vin.value)
  }

  predicate Takes(chain: seq<Block>, vin: Option<OutPoint>, k: Key) {
    Given(chain, vin).Some? && Pays(Given(chain, vin).value, k)
  }

  function Take(chain: seq<Block>, vin: Option<OutPoint>, k: Key): nat {
    if Given(chain, vin).Some? then Pay(Given(chain, vin).value, k) else 0
  }

  predicate TxTakes(chain: seq<Block>, tx: Tx, k: Key) { exists i :: 0 <= i < |tx.vin| && Takes(chain, tx.vin[i], k) }

  // ---------------------------------------------------------------- sums

  function VoutsPay(vout: seq<Vout>, k: Key): nat {
    if vout == [] then 0 else VoutsPay(vout[..|vout| - 1], k) + Pay(vout[|vout| - 1], k)
  }

  function VinsTake(chain: seq<Block>, vin: seq<Option<OutPoint>>, k: Key): nat {
    if vin == [] then 0 else VinsTake(chain, vin[..|vin| - 1], k) + Take(chain, vin[|vin| - 1], k)
  }

  function TxsPay(txs: seq<Tx>, k: Key): nat {
    if txs == [] then 0 else TxsPay(txs[..|txs| - 1], k) + VoutsPay(txs[|txs| - 1].vout, k)
  }

  function TxsTake(chain: seq<Block>, txs: seq<Tx>, k: Key): nat {
    if txs == [] then 0 else TxsTake(chain, txs[..|txs| - 1], k) + VinsTake(chain, txs[|txs| - 1].vin, k)
  }

  /** All that the blocks of a chain pay to the key. */
  function Received(chain: seq<Block>, k: Key): nat {
    if chain == [] then 0 else Received(chain[..|chain| - 1], k) + TxsPay(chain[|chain| - 1].txs, k)
  }

  /** All that the blocks of a chain take from the key. */
  function Spent(chain: seq<Block>, k: Key): nat {
    if chain == [] then 0 else Spent(chain[..|chain| - 1], k) + TxsTake(chain, chain[|chain| - 1].txs, k)
  }

  // ---------------------------------------------------------------- order

  /** The transactions that pay the key, in block order. */
  function Payers(txs: seq<Tx>, k: Key): seq<Tx> {
    if txs == [] then []
    else Payers(txs[..|txs| - 1], k) + if TxPays(txs[|txs| - 1], k) then [txs[|txs| - 1]] else []
  }

  /** The transactions that only take from the key, in block order. */
  function Takers(chain: seq<Block>, txs: seq<Tx>, k: Key): seq<Tx> {
    if txs == [] then []
    else
      var tx := txs[|txs| - 1];
      Takers(chain, txs[..|txs| - 1], k) + if !TxPays(tx, k) && TxTakes(chain, tx, k) then [tx] else []
  }

  /** The transactions of the last block of the chain that touch the key: first those that pay it. */
  function Order(chain: seq<Block>, k: Key): seq<Tx>
    requires chain != []
  {
    var txs := chain[|chain| - 1].txs;
    Payers(txs, k) + Takers(chain, txs, k)
  }

  // ---------------------------------------------------------------- places

  /** The outputs that pay the address, by number. */
  function PayPlaces(vout: seq<Vout>, a: AddrDesc): seq<int> {
    if vout == [] then []
    else PayPlaces(vout[..|vout| - 1], a) + if Pays(vout[|vout| - 1], AddrKey(a)) then [|vout| - 1] else []
  }

  /** The inputs that take from the address, input i as -i-1. */
  function TakePlaces(chain: seq<Block>, vin: seq<Option<OutPoint>>, a: AddrDesc): seq<int> {
    if vin == [] then []
    else
      TakePlaces(chain, vin[..|vin| - 1], a) + if Takes(chain, vin[|vin| - 1], AddrKey(a)) then [-|vin|] else []
  }

  /** The history row of an address in the last block of the chain. */
  function RowFor(chain: seq<Block>, a: AddrDesc): seq<TxIndexes>
    requires chain != []
  {
    var ts := Order(chain, AddrKey(a));
    seq(|ts|, i requires 0 <= i < |ts| =>
      TxIndexes(ts[i].txid, PayPlaces(ts[i].vout, a) + TakePlaces(chain, ts[i].vin, a)))
  }

  /** The row of an asset in the last block of the chain. */
  function AssetRowFor(chain: seq<Block>, g: Guid): seq<AssetTx>
    requires chain != []
  {
    var ts := Order(chain, AssetKey(g));
    seq(|ts|, i requires 0 <= i < |ts| => AssetTx(ts[i].txid, ts[i].version))
  }

  // ---------------------------------------------------------------- records

  /** Input `i` of transaction `j` of block `x` names the output. */
  predicate Names(chain: seq<Block>, x: int, j: int, i: int, op: OutPoint) {
    && 0 <= x < |chain| && 0 <= j < |chain[x].txs| && 0 <= i < |chain[x].txs[j].vin|
    && chain[x].txs[j].vin[i] == Some(op)
  }

  /** An input of block `from` or a later one names the output. */
  ghost predicate Named(chain: seq<Block>, from: nat, op: OutPoint) {
    exists x, j, i :: from <= x && Names(chain, x, j, i, op)
  }

  /** A stored coin is an output of a block: descriptors that are empty or too long are dropped. */
  predicate Says(c: Coin, o: Vout) {
    && c.value == o.value && c.asset == o.asset
    && c.addr.script == if 1 <= |o.desc.script| <= 1024 then o.desc.script else []
  }

  /** The spent mark and the spender of a stored output with a descriptor, created in block `from`. */
  ghost predicate MarkSays(o: TxOutput, chain: seq<Block>, ext: bool, from: nat, op: OutPoint) {
    && (o.spent <==> Named(chain, from, op))
    && (!o.spent || !ext ==> o.spender == None)
    && (ext ==> forall x, j, i :: from <= x && Names(chain, x, j, i, op) ==>
          o.spender == Some(SpendRef(chain[x].txs[j].txid, i, chain[x].height)))
  }

  /** An input of the last block of the chain: what it takes, blank if it names nothing the chain knows. */
  ghost predicate InputSays(input: TxInput, chain: seq<Block>, ext: bool, vin: Option<OutPoint>) {
    if Given(chain, vin).None? then input.coin == Coin(AddrDesc([]), 0, None) && input.prev == None
    else Says(input.coin, Given(chain, vin).value) && input.prev == if ext then vin else None
  }

  ghost predicate RecordSays(ta: TxAddresses, chain: seq<Block>, ext: bool, x: nat, j: nat)
    requires x < |chain| && j < |chain[x].txs|
  {
    var tx := chain[x].txs[j];
    && ta.height == chain[x].height && ta.version == tx.version
    && |ta.outputs| == |tx.vout| && |ta.inputs| == |tx.vin|
    && (forall i :: 0 <= i < |tx.vout| ==> Says(ta.outputs[i].coin, tx.vout[i]))
    && (forall i :: 0 <= i < |tx.vout| && ta.outputs[i].coin.addr.script != [] ==>
          MarkSays(ta.outputs[i], chain, ext, x, OutPoint(tx.txid, i)))
    && (forall i :: 0 <= i < |tx.vin| ==> InputSays(ta.inputs[i], chain[..x + 1], ext, tx.vin[i]))
  }

  ghost predicate InChain(chain: seq<Block>, t: TxId) {
    exists x, j :: 0 <= x < |chain| && 0 <= j < |chain[x].txs| && chain[x].txs[j].txid == t
  }

  /** The column of records says what the chain says, transaction by transaction. */
  ghost predicate RecordsSay(txs: TxColumn, chain: seq<Block>, ext: bool) {
    && (forall t :: t in txs <==> InChain(chain, t))
    && forall x, j :: 0 <= x < |chain| && 0 <= j < |chain[x].txs| ==>
         chain[x].txs[j].txid in txs && RecordSays(txs[chain[x].txs[j].txid], chain, ext, x, j)
  }

  /** The record kept of a block for its disconnect: its transactions in order with the outputs their inputs name, zero
      for an input that names none. */
  predicate BlockSays(record: seq<BlockTx>, b: Block) {
    && |record| == |b.txs|
    && forall j :: 0 <= j < |b.txs| ==>
         && record[j].txid == b.txs[j].txid && |record[j].inputs| == |b.txs[j].vin|
         && forall i :: 0 <= i < |b.txs[j].vin| ==>
              record[j].inputs[i] == match b.txs[j].vin[i] case Some(op) => op case None => OutPoint(TxId([]), 0)
  }

  /** The output is paid to the address by a transaction of the chain, and no input from its block on names it. */
  ghost predicate Unspent(chain: seq<Block>, a: AddrDesc, u: Utxo) {
    exists x, j :: 0 <= x < |chain| && 0 <= j < |chain[x].txs| && UnspentAt(chain, a, u, x, j)
  }

  ghost predicate UnspentAt(chain: seq<Block>, a: AddrDesc, u: Utxo, x: nat, j: nat)
    requires x < |chain| && j < |chain[x].txs|
  {
    var tx := chain[x].txs[j];
    && u.txid == tx.txid && 0 <= u.vout < |tx.vout| && u.height == chain[x].height
    && Pays(tx.vout[u.vout], AddrKey(a)) && u.value == tx.vout[u.vout].value && u.asset == tx.vout[u.vout].asset
    && !Named(chain, x, OutPoint(u.txid, u.vout))
  }

  /** The transactions of the chain that touch the key. */
  ghost function TouchedBy(chain: seq<Block>, k: Key): set<TxId> {
    set x, j | (
      && 0 <= x < |chain| && 0 <= j < |chain[x].txs|
      && (TxPays(chain[x].txs[j], k) || TxTakes(chain[..x + 1], chain[x].txs[j], k))) :: chain[x].txs[j].txid
  }
}
