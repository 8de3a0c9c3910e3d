// Balances of addresses as stored: counters and amounts, the holdings of assets in the order a map gives them, and the
// unspent outputs up to the end of the value.
module BalanceCodec {
  import opened Types
  import opened UtxoIndex
  import opened LedgerModel
  import opened Vlq
  import Big = BigintCodec
  import C = TxCodec

  // ---------------------------------------------------------------- what can be stored

  predicate HoldingOk(g: Guid, h: AssetBalance) {
    g < C.U64 && 0 <= h.transfers < U32 && h.sent >= 0 && h.balance >= 0
  }

  predicate UtxoOk(m: C.Mode, u: Utxo) {
    |u.txid.packed| == m.txidLen && 0 <= u.vout < 0x8000_0000 && u.height < U32 && C.AssetOk(u.asset)
  }

  ghost predicate HoldingsOk(assets: map<Guid, AssetBalance>) { forall g :: g in assets ==> HoldingOk(g, assets[g]) }

  /** Counters, indexes and heights are of 32 bits, guids of 64, and nothing is negative. */
  ghost predicate BalanceOk(m: C.Mode, b: AddrBalance) {
    && 0 <= b.txs < U32 && b.sent >= 0 && b.balance >= 0 && HoldingsOk(b.assets)
    && forall u :: u in LiveSet(b.utxos.slots) ==> UtxoOk(m, u)
  }

  // ---------------------------------------------------------------- packing

  function PutHolding(g: Guid, h: AssetBalance): seq<byte>
    requires HoldingOk(g, h)
  {
    PutUint(g) + (Big.PackedAmount(h.balance) + (Big.PackedAmount(h.sent) + PutUint(h.transfers)))
  }

  /** The holdings in the order in which they are met. */
  function PutHoldings(assets: map<Guid, AssetBalance>, order: seq<Guid>): seq<byte>
    requires HoldingsOk(assets) && forall g :: g in order ==> g in assets
  {
    if order == [] then [] else PutHolding(order[0], assets[order[0]]) + PutHoldings(assets, order[1..])
  }

  function PutUtxo(m: C.Mode, u: Utxo): seq<byte>
    requires UtxoOk(m, u)
  {
    u.txid.packed + (PutUint(u.vout) + (PutUint(u.height) + (Big.PackedAmount(u.value) + C.PutSuffix(m, u.asset))))
  }

  function PutUtxos(m: C.Mode, us: seq<Utxo>): seq<byte>
    requires forall u :: u in us ==> UtxoOk(m, u)
  {
    if us == [] then [] else PutUtxo(m, us[0]) + PutUtxos(m, us[1..])
  }

  function PutCounts(b: AddrBalance): seq<byte>
    requires b.txs >= 0 && b.sent >= 0 && b.balance >= 0
  {
    PutUint(b.txs) + (Big.PackedAmount(b.sent) + Big.PackedAmount(b.balance))
  }

  function PutAssets(m: C.Mode, assets: map<Guid, AssetBalance>, order: seq<Guid>): seq<byte>
    requires HoldingsOk(assets) && forall g :: g in order ==> g in assets
  {
    if m.assets then PutUint(|assets|) + PutHoldings(assets, order) else []
  }

  /** Each holding once. */
  ghost predicate IsOrder(order: seq<Guid>, assets: map<Guid, AssetBalance>) {
    && (forall g :: g in order <==> g in assets) && |order| == |assets|
    && (forall i, j :: 0 <= i < j < |order| ==> order[i] != order[j])
  }

  /** packAddrBalance */
  ghost function PutBalance(m: C.Mode, b: AddrBalance, order: seq<Guid>): seq<byte>
    requires BalanceOk(m, b) && IsOrder(order, b.assets)
  {
    LiveAreOk(m, b.utxos.slots);
    PutCounts(b) + (PutAssets(m, b.assets, order) + PutUtxos(m, Live(b.utxos.slots)))
  }

  lemma LiveAreOk(m: C.Mode, s: seq<Utxo>)
    requires forall u :: u in LiveSet(s) ==> UtxoOk(m, u)
    ensures forall u :: u in Live(s) ==> UtxoOk(m, u)
  {
    LiveSetOfLive(s);
    LiveFromSlots(s);
  }

  // ---------------------------------------------------------------- unpacking

  function GetHoldings(buf: seq<byte>, at: nat, n: nat,
                       acc: map<Guid, AssetBalance>): (r: Parse<map<Guid, AssetBalance>>)
    ensures r.Got? ==> at <= r.at
    decreases n
  {
    if n == 0 then Got(acc, at)
    else
      var (guid, l) :- Uint(buf, at);
      var (balance, l) :- C.BigAt(buf, l);
      var (sent, l) :- C.BigAt(buf, l);
      var (transfers, l) :- Uint(buf, l);
      GetHoldings(buf, l, n - 1, acc[guid % C.U64 := AssetBalance(C.ToUint32(transfers), sent, balance)])
  }

  function GetUtxo(m: C.Mode, buf: seq<byte>, at: nat): (r: Parse<Utxo>)
    ensures r.Got? ==> at < r.at <= |buf|
  {
    var (txid, l) :- Take(buf, at, m.txidLen);
    var (vout, l) :- Uint(buf, l);
    var (height, l) :- Uint(buf, l);
    var (value, l) :- C.BigAt(buf, l);
    var (asset, l) :- C.GetSuffix(m, buf, l);
    Got(Utxo(TxId(txid), C.ToInt32(vout), C.ToUint32(height), value, asset), l)
  }

  /** Outputs are read while there is room for the shortest one. */
  function GetUtxos(m: C.Mode, buf: seq<byte>, at: nat): Parse<seq<Utxo>>
    decreases |buf| - at
  {
    if |buf| - at < m.txidLen + 3 then Got([], at)
    else
      var (u, l) :- GetUtxo(m, buf, at);
      var (rest, l) :- GetUtxos(m, buf, l);
      Got([u] + rest, l)
  }

  /** How much of a balance is read: no outputs, the outputs, or the outputs with their index. */
  datatype Detail = NoUtxos | UtxosOnly | UtxosIndexed

  function ListFor(detail: Detail, us: seq<Utxo>): UtxoList {
    match detail
    case NoUtxos => Empty
    case UtxosOnly => UtxoList(us, map[])
    case UtxosIndexed => Load(us)
  }

  /** unpackAddrBalance */
  function GetBalance(m: C.Mode, buf: seq<byte>, detail: Detail): Parse<AddrBalance> {
    var (txs, l) :- Uint(buf, 0);
    var (sent, l) :- C.BigAt(buf, l);
    var (balance, l) :- C.BigAt(buf, l);
    var (assets, l) :- GetAssets(m, buf, l);
    var (us, l) :- (if detail == NoUtxos then Got([], l) else GetUtxos(m, buf, l));
    Got(AddrBalance(C.ToUint32(txs), sent, balance, ListFor(detail, us), assets), l)
  }

  function GetAssets(m: C.Mode, buf: seq<byte>, at: nat): Parse<map<Guid, AssetBalance>> {
    if !m.assets then Got(map[], at)
    else
      var (n, l) :- Uint(buf, at);
      GetHoldings(buf, l, n, map[])
  }

  // ---------------------------------------------------------------- what is kept

  function KeptHolding(h: AssetBalance): AssetBalance
    requires h.sent >= 0 && h.balance >= 0
  {
    AssetBalance(h.transfers, Big.Truncated(h.sent), Big.Truncated(h.balance))
  }

  function KeptHoldings(assets: map<Guid, AssetBalance>): map<Guid, AssetBalance>
    requires HoldingsOk(assets)
  {
    map g | g in assets :: KeptHolding(assets[g])
  }

  function KeptUtxo(m: C.Mode, u: Utxo): Utxo {
    Utxo(u.txid, u.vout, u.height, Big.Truncated(u.value), if m.assets then C.CutAsset(u.asset) else None)
  }

  function KeptUtxos(m: C.Mode, us: seq<Utxo>): (r: seq<Utxo>)
    ensures |r| == |us| && forall i :: 0 <= i < |us| ==> r[i] == KeptUtxo(m, us[i])
  {
    if us == [] then [] else [KeptUtxo(m, us[0])] + KeptUtxos(m, us[1..])
  }

  /** What is left of a balance: tombstones go, amounts are cut to 31 words, and assets are kept where the mode has
      them. */
  ghost function KeptBalance(m: C.Mode, b: AddrBalance, detail: Detail): AddrBalance
    requires BalanceOk(m, b)
  {
    AddrBalance(b.txs, Big.Truncated(b.sent), Big.Truncated(b.balance),
                ListFor(detail, KeptUtxos(m, Live(b.utxos.slots))), if m.assets then KeptHoldings(b.assets) else map[])
  }

  // ---------------------------------------------------------------- reading back

  lemma HoldingRead(buf: seq<byte>, at: nat, g: Guid, h: AssetBalance, n: nat, acc: map<Guid, AssetBalance>)
    requires HoldingOk(g, h) && At(buf, at, PutHolding(g, h))
    ensures GetHoldings(buf, at, n + 1, acc) == GetHoldings(buf, at + |PutHolding(g, h)|, n, acc[g := KeptHolding(h)])
  {
    hide At, Uint, PutUint, C.BigAt, Big.PackedAmount, Big.Truncated;
    var x, y, z, w := PutUint(g), Big.PackedAmount(h.balance), Big.PackedAmount(h.sent), PutUint(h.transfers);
    AtJoin(buf, at, x, y + (z + w));
    AtJoin(buf, at + |x|, y, z + w);
    AtJoin(buf, at + |x| + |y|, z, w);
    UintRead(buf, at, g);
    C.BigRead(buf, at + |x|, h.balance);
    C.BigRead(buf, at + |x| + |y|, h.sent);
    UintRead(buf, at + |x| + |y| + |z|, h.transfers);
  }

  function KeptAlong(assets: map<Guid, AssetBalance>, order: seq<Guid>, acc: map<Guid, AssetBalance>)
    : map<Guid, AssetBalance>
    requires HoldingsOk(assets) && forall g :: g in order ==> g in assets
    decreases |order|
  {
    if order == [] then acc
    else KeptAlong(assets, order[1..], acc[order[0] := KeptHolding(assets[order[0]])])
  }

  lemma {:induction false} KeptAlongIs(assets: map<Guid, AssetBalance>, order: seq<Guid>, acc: map<Guid, AssetBalance>)
    requires HoldingsOk(assets) && forall g :: g in order ==> g in assets
    ensures var r := KeptAlong(assets, order, acc);
            && (forall g :: g in r <==> g in acc || g in order)
            && (forall g :: g in r ==> r[g] == if g in order then KeptHolding(assets[g]) else acc[g])
    decreases |order|
  {
    hide KeptHolding;
    if order != [] {
      assert order == [order[0]] + order[1..];
      KeptAlongIs(assets, order[1..], acc[order[0] := KeptHolding(assets[order[0]])]);
    }
  }

  lemma {:induction false} HoldingsRead(buf: seq<byte>, at: nat, assets: map<Guid, AssetBalance>, order: seq<Guid>,
                                        acc: map<Guid, AssetBalance>)
    requires HoldingsOk(assets) && (forall g :: g in order ==> g in assets) && At(buf, at, PutHoldings(assets, order))
    ensures GetHoldings(buf, at, |order|, acc)
            == Got(KeptAlong(assets, order, acc), at + |PutHoldings(assets, order)|)
    decreases |order|
  {
    hide At, PutHolding, KeptHolding, GetHoldings, HoldingOk;
    if order == [] {
      NoHoldings(buf, at, acc);
    } else {
      var g := order[0];
      FirstHolding(assets, order);
      AtJoin(buf, at, PutHolding(g, assets[g]), PutHoldings(assets, order[1..]));
      HoldingRead(buf, at, g, assets[g], |order| - 1, acc);
      HoldingsRead(buf, at + |PutHolding(g, assets[g])|, assets, order[1..], acc[g := KeptHolding(assets[g])]);
    }
  }

  lemma NoHoldings(buf: seq<byte>, at: nat, acc: map<Guid, AssetBalance>)
    ensures GetHoldings(buf, at, 0, acc) == Got(acc, at)
  {
  }

  lemma FirstHolding(assets: map<Guid, AssetBalance>, order: seq<Guid>)
    requires HoldingsOk(assets) && (forall g :: g in order ==> g in assets) && order != []
    ensures HoldingOk(order[0], assets[order[0]]) && assets[order[0]].sent >= 0 && assets[order[0]].balance >= 0
    ensures forall g :: g in order[1..] ==> g in assets
  {
  }

  lemma AssetsRead(m: C.Mode, buf: seq<byte>, at: nat, assets: map<Guid, AssetBalance>, order: seq<Guid>)
    requires HoldingsOk(assets) && IsOrder(order, assets) && At(buf, at, PutAssets(m, assets, order))
    ensures GetAssets(m, buf, at)
            == Got(if m.assets then KeptHoldings(assets) else map[], at + |PutAssets(m, assets, order)|)
  {
    hide At, Uint, PutUint, PutHoldings, GetHoldings, KeptHolding, HoldingOk;
    if m.assets {
      AtJoin(buf, at, PutUint(|assets|), PutHoldings(assets, order));
      UintRead(buf, at, |assets|);
      HoldingsRead(buf, at + |PutUint(|assets|)|, assets, order, map[]);
      KeptAlongIs(assets, order, map[]);
      assert KeptAlong(assets, order, map[]) == KeptHoldings(assets);
    }
  }

  lemma UtxoRead(m: C.Mode, buf: seq<byte>, at: nat, u: Utxo)
    requires UtxoOk(m, u) && At(buf, at, PutUtxo(m, u))
    ensures GetUtxo(m, buf, at) == Got(KeptUtxo(m, u), at + |PutUtxo(m, u)|)
  {
    hide At, Uint, PutUint, Take, C.BigAt, Big.PackedAmount, Big.Truncated, C.GetSuffix, C.PutSuffix, C.CutAsset;
    hide C.AssetOk;
    var t, x, y, z := u.txid.packed, PutUint(u.vout), PutUint(u.height), Big.PackedAmount(u.value);
    var w := C.PutSuffix(m, u.asset);
    AtJoin(buf, at, t, x + (y + (z + w)));
    AtJoin(buf, at + |t|, x, y + (z + w));
    AtJoin(buf, at + |t| + |x|, y, z + w);
    AtJoin(buf, at + |t| + |x| + |y|, z, w);
    C.TakeRead(buf, at, t);
    UintRead(buf, at + |t|, u.vout);
    UintRead(buf, at + |t| + |x|, u.height);
    C.BigRead(buf, at + |t| + |x| + |y|, u.value);
    C.SuffixRead(m, buf, at + |t| + |x| + |y| + |z|, u.asset);
  }

  /** No output is shorter than what the reader takes for the shortest one. */
  lemma UtxoLength(m: C.Mode, u: Utxo)
    requires UtxoOk(m, u)
    ensures |PutUtxo(m, u)| >= m.txidLen + 3
  {
    hide PutUint, Big.PackedAmount;
  }

  lemma {:induction false} UtxosRead(m: C.Mode, buf: seq<byte>, at: nat, us: seq<Utxo>)
    requires (forall u :: u in us ==> UtxoOk(m, u)) && At(buf, at, PutUtxos(m, us)) && at + |PutUtxos(m, us)| == |buf|
    ensures GetUtxos(m, buf, at) == Got(KeptUtxos(m, us), |buf|)
    decreases |us|
  {
    hide At, PutUtxo, GetUtxo, KeptUtxo, UtxoOk;
    if us != [] {
      AtJoin(buf, at, PutUtxo(m, us[0]), PutUtxos(m, us[1..]));
      UtxoRead(m, buf, at, us[0]);
      UtxoLength(m, us[0]);
      UtxosRead(m, buf, at + |PutUtxo(m, us[0])|, us[1..]);
    }
  }

  lemma CountsRead(buf: seq<byte>, b: AddrBalance)
    requires 0 <= b.txs < U32 && b.sent >= 0 && b.balance >= 0 && At(buf, 0, PutCounts(b))
    ensures var x, y, z := |PutUint(b.txs)|, |Big.PackedAmount(b.sent)|, |Big.PackedAmount(b.balance)|;
            && Uint(buf, 0) == Got(b.txs, x) && C.BigAt(buf, x) == Got(Big.Truncated(b.sent), x + y)
            && C.BigAt(buf, x + y) == Got(Big.Truncated(b.balance), x + y + z) && |PutCounts(b)| == x + y + z
  {
    hide At, Uint, PutUint, C.BigAt, Big.PackedAmount, Big.Truncated;
    var x, y, z := PutUint(b.txs), Big.PackedAmount(b.sent), Big.PackedAmount(b.balance);
    AtJoin(buf, 0, x, y + z);
    AtJoin(buf, |x|, y, z);
    UintRead(buf, 0, b.txs);
    C.BigRead(buf, |x|, b.sent);
    C.BigRead(buf, |x| + |y|, b.balance);
  }

  /** In whatever order the holdings were met, a stored balance reads back as what is left of it, to the last byte
      unless the outputs are not wanted. */
  lemma BalanceRead(m: C.Mode, b: AddrBalance, order: seq<Guid>, detail: Detail)
    requires BalanceOk(m, b) && IsOrder(order, b.assets)
    ensures var buf := PutBalance(m, b, order);
            var r := GetBalance(m, buf, detail);
            r.Got? && r.value == KeptBalance(m, b, detail) && (detail != NoUtxos ==> r.at == |buf|)
  {
    hide At, Uint, PutUint, C.BigAt, Big.PackedAmount, Big.Truncated, PutCounts, PutAssets, GetAssets, PutUtxos;
    hide GetUtxos;
    hide KeptHoldings, KeptUtxos, HoldingsOk, UtxoOk, Live, Load;
    LiveAreOk(m, b.utxos.slots);
    var buf, us := PutBalance(m, b, order), Live(b.utxos.slots);
    var x, y, z := PutCounts(b), PutAssets(m, b.assets, order), PutUtxos(m, us);
    Whole(buf);
    AtJoin(buf, 0, x, y + z);
    AtJoin(buf, |x|, y, z);
    CountsRead(buf, b);
    AssetsRead(m, buf, |x|, b.assets, order);
    UtxosRead(m, buf, |x| + |y|, us);
  }

  lemma Whole(buf: seq<byte>)
    ensures At(buf, 0, buf)
  {
  }

  // ---------------------------------------------------------------- when nothing is lost

  predicate SmallHolding(h: AssetBalance) {
    h.sent < Big.PowWord(Big.MAX_PACKED_WORDS) && h.balance < Big.PowWord(Big.MAX_PACKED_WORDS)
  }

  /** All amounts of a balance have at most 31 words. */
  ghost predicate SmallBalance(b: AddrBalance) {
    && b.sent < Big.PowWord(Big.MAX_PACKED_WORDS) && b.balance < Big.PowWord(Big.MAX_PACKED_WORDS)
    && (forall g :: g in b.assets ==> SmallHolding(b.assets[g]))
    && forall u :: u in LiveSet(b.utxos.slots) ==> C.SmallAmounts(u.value, u.asset)
  }

  lemma HoldingsExactly(assets: map<Guid, AssetBalance>)
    requires HoldingsOk(assets)
    ensures KeptHoldings(assets) == assets <==> forall g :: g in assets ==> SmallHolding(assets[g])
  {
    hide Big.Truncated, Big.PowWord;
    forall g | g in assets ensures KeptHolding(assets[g]) == assets[g] <==> SmallHolding(assets[g]) {
      assert HoldingOk(g, assets[g]);
      Big.TruncatedExactly(assets[g].sent);
      Big.TruncatedExactly(assets[g].balance);
    }
    if KeptHoldings(assets) == assets {
      forall g | g in assets ensures SmallHolding(assets[g]) { assert KeptHoldings(assets)[g] == assets[g]; }
    }
  }

  lemma UtxosExactly(m: C.Mode, us: seq<Utxo>)
    requires m.assets
    ensures KeptUtxos(m, us) == us <==> forall u :: u in us ==> C.SmallAmounts(u.value, u.asset)
  {
    hide Big.Truncated, C.CutAsset, C.SmallAmounts;
    forall i | 0 <= i < |us| ensures KeptUtxo(m, us[i]) == us[i] <==> C.SmallAmounts(us[i].value, us[i].asset) {
      C.CutExactly(us[i].value, us[i].asset);
    }
    if KeptUtxos(m, us) == us {
      forall u | u in us ensures C.SmallAmounts(u.value, u.asset) {
        var i :| 0 <= i < |us| && us[i] == u;
        assert KeptUtxos(m, us)[i] == us[i];
      }
    }
  }

  lemma LoadExactly(us: seq<Utxo>, vs: seq<Utxo>)
    ensures Load(us) == Load(vs) <==> us == vs
  {
    LoadSlots(us);
    LoadSlots(vs);
  }

  /** With its index, a stored balance reads back without its tombstones and else as it was exactly when all amounts
      have at most 31 words. */
  lemma BalanceReadExactly(m: C.Mode, b: AddrBalance, order: seq<Guid>)
    requires m.assets && BalanceOk(m, b) && IsOrder(order, b.assets)
    ensures var r := GetBalance(m, PutBalance(m, b, order), UtxosIndexed);
            r.Got? && (r.value == b.(utxos := Strip(b.utxos)) <==> SmallBalance(b))
  {
    hide GetBalance, PutBalance, Big.Truncated, Big.PowWord, KeptHoldings, KeptUtxos, Live, Load, C.SmallAmounts;
    hide SmallHolding;
    BalanceRead(m, b, order, UtxosIndexed);
    var us := Live(b.utxos.slots);
    Big.TruncatedExactly(b.sent);
    Big.TruncatedExactly(b.balance);
    HoldingsExactly(b.assets);
    UtxosExactly(m, us);
    LoadExactly(KeptUtxos(m, us), us);
    LiveSetOfLive(b.utxos.slots);
    LiveInSet(b.utxos.slots);
  }

  lemma LiveInSet(s: seq<Utxo>)
    ensures forall u :: u in Live(s) <==> u in LiveSet(s)
  {
    LiveSetOfLive(s);
    LiveFromSlots(s);
  }

  // ---------------------------------------------------------------- the loops

  lemma {:induction false} HoldingsNext(assets: map<Guid, AssetBalance>, order: seq<Guid>, g: Guid)
    requires HoldingsOk(assets) && (forall x :: x in order ==> x in assets) && g in assets
    ensures PutHoldings(assets, order + [g]) == PutHoldings(assets, order) + PutHolding(g, assets[g])
    decreases |order|
  {
    hide PutHolding;
    if order == [] {
      assert [] + [g] == [g] && [g][1..] == [];
    } else {
      HoldingsNext(assets, order[1..], g);
      assert (order + [g])[1..] == order[1..] + [g];
    }
  }

  lemma {:induction false} UtxosNext(m: C.Mode, us: seq<Utxo>, u: Utxo)
    requires (forall x :: x in us ==> UtxoOk(m, x)) && UtxoOk(m, u)
    ensures PutUtxos(m, us + [u]) == PutUtxos(m, us) + PutUtxo(m, u)
    decreases |us|
  {
    hide PutUtxo, UtxoOk;
    if us == [] {
      assert [] + [u] == [u] && [u][1..] == [];
    } else {
      UtxosNext(m, us[1..], u);
      assert (us + [u])[1..] == us[1..] + [u];
    }
  }

  /** The holdings not met yet, and those met. */
  ghost predicate Split(order: seq<Guid>, todo: set<Guid>, assets: map<Guid, AssetBalance>) {
    && (forall g :: g in assets <==> g in order || g in todo) && (forall g :: g in todo ==> g !in order)
    && (forall i, j :: 0 <= i < j < |order| ==> order[i] != order[j]) && |order| + |todo| == |assets|
  }

  lemma SplitNext(order: seq<Guid>, todo: set<Guid>, assets: map<Guid, AssetBalance>, g: Guid)
    requires Split(order, todo, assets) && g in todo
    ensures Split(order + [g], todo - {g}, assets)
  {
  }

  lemma SplitStart(assets: map<Guid, AssetBalance>)
    ensures Split([], assets.Keys, assets)
  {
    assert |assets.Keys| == |assets|;
  }

  /** The loop over the map, in whatever order it gives its entries. */
  method AppendHoldings(assets: map<Guid, AssetBalance>, start: seq<byte>)
    returns (buf: seq<byte>, ghost order: seq<Guid>)
    requires HoldingsOk(assets)
    ensures IsOrder(order, assets) && buf == start + PutHoldings(assets, order)
  {
    hide PutHolding, HoldingOk;
    var todo := assets.Keys;
    order, buf := [], start;
    SplitStart(assets);
    while todo != {}
      invariant Split(order, todo, assets) && buf == start + PutHoldings(assets, order)
    {
      var g :| g in todo;
      HoldingsNext(assets, order, g);
      SplitNext(order, todo, assets, g);
      buf := buf + PutHolding(g, assets[g]);
      todo := todo - {g};
      order := order + [g];
    }
  }

  lemma AnyOrder(assets: map<Guid, AssetBalance>) returns (order: seq<Guid>)
    ensures IsOrder(order, assets)
  {
    var todo := assets.Keys;
    order := [];
    SplitStart(assets);
    while todo != {}
      invariant Split(order, todo, assets)
    {
      var g :| g in todo;
      SplitNext(order, todo, assets, g);
      todo := todo - {g};
      order := order + [g];
    }
  }

  lemma LiveNext(s: seq<Utxo>, i: nat)
    requires i < |s|
    ensures Live(s[..i + 1]) == if s[i].vout >= 0 then Live(s[..i]) + [s[i]] else Live(s[..i])
  {
    assert s[..i + 1][..i] == s[..i];
    assert Live(s[..i]) + [] == Live(s[..i]);
  }

  method AppendUtxos(m: C.Mode, slots: seq<Utxo>, start: seq<byte>) returns (buf: seq<byte>)
    requires forall u :: u in LiveSet(slots) ==> UtxoOk(m, u)
    ensures (forall u :: u in Live(slots) ==> UtxoOk(m, u)) && buf == start + PutUtxos(m, Live(slots))
  {
    hide PutUtxo, UtxoOk, Live;
    LiveAreOk(m, slots);
    buf := start;
    NoneLive();
    assert slots[..0] == [] && slots[..|slots|] == slots;
    for i := 0 to |slots|
      invariant (forall u :: u in Live(slots[..i]) ==> UtxoOk(m, u)) && buf == start + PutUtxos(m, Live(slots[..i]))
    {
      LiveNext(slots, i);
      if slots[i].vout >= 0 {
        assert slots[i] in LiveSet(slots);
        UtxosNext(m, Live(slots[..i]), slots[i]);
        buf := buf + PutUtxo(m, slots[i]);
      }
    }
  }

  lemma NoneLive()
    ensures Live([]) == []
  {
  }

  /** The packing loops build the specified bytes, in some order of the holdings. */
  method PackAddrBalance(m: C.Mode, b: AddrBalance) returns (buf: seq<byte>, ghost order: seq<Guid>)
    requires BalanceOk(m, b)
    ensures IsOrder(order, b.assets) && buf == PutBalance(m, b, order)
  {
    hide PutUint, Big.PackedAmount, PutHoldings, PutUtxos, Live, HoldingsOk, UtxoOk;
    buf := PutUint(b.txs);
    buf := buf + Big.PackedAmount(b.sent);
    buf := buf + Big.PackedAmount(b.balance);
    ghost var counts := buf;
    if m.assets {
      buf := buf + PutUint(|b.assets|);
      buf, order := AppendHoldings(b.assets, buf);
    } else {
      order := AnyOrder(b.assets);
    }
    assert buf == counts + PutAssets(m, b.assets, order);
    buf := AppendUtxos(m, b.utxos.slots, buf);
  }

  method UnpackHoldings(buf: seq<byte>, at: nat, n: nat) returns (r: Parse<map<Guid, AssetBalance>>)
    ensures r == GetHoldings(buf, at, n, map[])
  {
    hide Uint, C.BigAt;
    var l: nat, assets: map<Guid, AssetBalance> := at, map[];
    for i := 0 to n
      invariant GetHoldings(buf, at, n, map[]) == GetHoldings(buf, l, n - i, assets)
    {
      var guid :- Uint(buf, l);
      var balance :- C.BigAt(buf, guid.1);
      var sent :- C.BigAt(buf, balance.1);
      var transfers :- Uint(buf, sent.1);
      assets := assets[guid.0 % C.U64 := AssetBalance(C.ToUint32(transfers.0), sent.0, balance.0)];
      l := transfers.1;
    }
    return Got(assets, l);
  }

  lemma ListNext(detail: Detail, us: seq<Utxo>, u: Utxo)
    requires detail != NoUtxos
    ensures ListFor(detail, us + [u])
            == if detail == UtxosOnly then UtxoList(us + [u], map[]) else Append(ListFor(detail, us), u)
  {
    assert (us + [u])[..|us|] == us;
  }

  /** Outputs are appended as they are read, with the index kept up to date where it is wanted. */
  method UnpackUtxos(m: C.Mode, buf: seq<byte>, at: nat, detail: Detail) returns (r: Parse<UtxoList>)
    requires detail != NoUtxos
    ensures r == match GetUtxos(m, buf, at) case Short => Short case Got(us, l) => Got(ListFor(detail, us), l)
  {
    hide GetUtxo, Append, Load;
    var l, list := at, Empty;
    ghost var us, all := [], GetUtxos(m, buf, at);
    EmptyList(detail);
    assert all.Got? ==> [] + all.value == all.value;
    while |buf| - l >= m.txidLen + 3
      invariant list == ListFor(detail, us)
      invariant all == if GetUtxos(m, buf, l).Short? then Short
                       else Got(us + GetUtxos(m, buf, l).value, GetUtxos(m, buf, l).at)
      decreases |buf| - l
    {
      var u :- GetUtxo(m, buf, l);
      ghost var rest := GetUtxos(m, buf, u.1);
      assert rest.Got? ==> us + ([u.0] + rest.value) == us + [u.0] + rest.value;
      ListNext(detail, us, u.0);
      if detail == UtxosOnly {
        list := UtxoList(list.slots + [u.0], map[]);
      } else {
        list := Append(list, u.0);
      }
      l := u.1;
      us := us + [u.0];
    }
    assert us + [] == us;
    return Got(list, l);
  }

  lemma EmptyList(detail: Detail)
    ensures ListFor(detail, []) == Empty
  {
  }

  /** The reading loops decode as specified. */
  method UnpackAddrBalance(m: C.Mode, buf: seq<byte>, detail: Detail) returns (r: Parse<AddrBalance>)
    ensures r == GetBalance(m, buf, detail)
  {
    hide Uint, C.BigAt, GetUtxos, GetHoldings;
    var txs :- Uint(buf, 0);
    var sent :- C.BigAt(buf, txs.1);
    var balance :- C.BigAt(buf, sent.1);
    var l: nat, assets: map<Guid, AssetBalance> := balance.1, map[];
    if m.assets {
      var n :- Uint(buf, l);
      var read := UnpackHoldings(buf, n.1, n.0);
      var holdings :- read;
      assets, l := holdings.0, holdings.1;
    }
    var list := Empty;
    if detail != NoUtxos {
      var read := UnpackUtxos(m, buf, l, detail);
      var utxos :- read;
      list, l := utxos.0, utxos.1;
    }
    return Got(AddrBalance(C.ToUint32(txs.0), sent.0, balance.0, list, assets), l);
  }
}
