// Records of transactions as stored: written in one of four modes, read back in full, or skipped
// through without decoding to get at a single output.
module TxCodec {
  import opened Types
  import opened Vlq
  import Big = BigintCodec

  /** Whether the extended index and the asset fields are kept, and the length of a packed txid. */
  datatype Mode = Mode(extended: bool, assets: bool, txidLen: nat)

  datatype Prev = Prev(txid: seq<byte>, vout: nat)
  datatype Spender = Spender(txid: seq<byte>, index: nat, height: nat)

  /** An input without previous output is that of a coinbase. */
  datatype Input = Input(addr: seq<byte>, value: nat, asset: Option<AssetInfo>, prev: Option<Prev>)
  datatype Output = Output(addr: seq<byte>, value: nat, asset: Option<AssetInfo>, spent: bool, spender: Option<Spender>)
  datatype Record = Record(version: int, height: nat, vsize: nat, inputs: seq<Input>, outputs: seq<Output>,
      memo: seq<byte>)

  const U64: nat := 0x1_0000_0000_0000_0000

  function ToUint32(n: nat): nat { n % U32 }

  /** A signed 32-bit number widened to 64 bits and read as unsigned. */
  function WidenInt32(i: int): nat { i % U64 }

  function ToInt32(n: nat): int {
    var m := n % U32;
    if m >= 0x8000_0000 then m - U32 else m
  }

  // ---------------------------------------------------------------- what can be stored

  predicate AssetOk(a: Option<AssetInfo>) { a.Some? ==> a.value.guid < U64 }

  predicate InputOk(m: Mode, i: Input) {
    && AssetOk(i.asset)
    && (i.prev.Some? ==> |i.prev.value.txid| == m.txidLen && i.prev.value.vout < U32)
  }

  predicate OutputOk(m: Mode, o: Output) {
    && AssetOk(o.asset)
    && (o.spender.Some? ==>
         |o.spender.value.txid| == m.txidLen && o.spender.value.index < U32 && o.spender.value.height < U32)
  }

  ghost predicate RecordOk(m: Mode, r: Record) {
    && -0x8000_0000 <= r.version < 0x8000_0000 && r.height < U32 && r.vsize < U32
    && (forall i :: 0 <= i < |r.inputs| ==> InputOk(m, r.inputs[i]))
    && (forall i :: 0 <= i < |r.outputs| ==> OutputOk(m, r.outputs[i]))
  }

  // ---------------------------------------------------------------- what is kept

  /** What packing leaves of the amount of an asset. */
  function CutAsset(a: Option<AssetInfo>): Option<AssetInfo> {
    if a.None? then None else Some(a.value.(value := Big.Truncated(a.value.value)))
  }

  function CutInput(i: Input): Input { i.(value := Big.Truncated(i.value), asset := CutAsset(i.asset)) }

  function CutOutput(o: Output): Output { o.(value := Big.Truncated(o.value), asset := CutAsset(o.asset)) }

  /** The fields of an input a mode has. */
  function InputIn(m: Mode, i: Input): Input {
    Input(i.addr, i.value, if m.assets then i.asset else None, if m.extended then i.prev else None)
  }

  function NoSpender(m: Mode): Spender { Spender(seq(m.txidLen, _ => 0), 0, 0) }

  /** The fields of an output a mode has; the spender of a spent output that names none is kept as zeroes. */
  function OutputIn(m: Mode, o: Output): Output {
    Output(o.addr, o.value, if m.assets then o.asset else None, o.spent,
           if !m.extended || !o.spent then None else if o.spender.None? then Some(NoSpender(m)) else o.spender)
  }

  function KeptInput(m: Mode, i: Input): Input { CutInput(InputIn(m, i)) }

  function KeptOutput(m: Mode, o: Output): Output { CutOutput(OutputIn(m, o)) }

  function KeptInputs(m: Mode, ins: seq<Input>): (r: seq<Input>)
    ensures |r| == |ins| && forall i :: 0 <= i < |ins| ==> r[i] == KeptInput(m, ins[i])
  {
    if ins == [] then [] else [KeptInput(m, ins[0])] + KeptInputs(m, ins[1..])
  }

  function KeptOutputs(m: Mode, outs: seq<Output>): (r: seq<Output>)
    ensures |r| == |outs| && forall i :: 0 <= i < |outs| ==> r[i] == KeptOutput(m, outs[i])
  {
    if outs == [] then [] else [KeptOutput(m, outs[0])] + KeptOutputs(m, outs[1..])
  }

  function Kept(m: Mode, r: Record): Record {
    Record(if m.assets then r.version else 0, r.height, if m.extended then r.vsize else 0,
           KeptInputs(m, r.inputs), KeptOutputs(m, r.outputs),
           if m.assets then r.memo else [])
  }

  /** The fields of a record a mode has, with their amounts whole. */
  function RecordIn(m: Mode, r: Record): Record {
    Kept(m, r).(inputs := seq(|r.inputs|, i requires 0 <= i < |r.inputs| => InputIn(m, r.inputs[i])),
                outputs := seq(|r.outputs|, i requires 0 <= i < |r.outputs| => OutputIn(m, r.outputs[i])))
  }

  /** An amount of at most 31 words. */
  predicate Small(v: nat) { v < Big.PowWord(Big.MAX_PACKED_WORDS) }

  predicate SmallAmounts(value: nat, asset: Option<AssetInfo>) {
    Small(value) && (asset.Some? ==> Small(asset.value.value))
  }

  /** All amounts a mode keeps have at most 31 words. */
  ghost predicate AllSmall(r: Record) {
    && (forall i :: 0 <= i < |r.inputs| ==> SmallAmounts(r.inputs[i].value, r.inputs[i].asset))
    && (forall i :: 0 <= i < |r.outputs| ==> SmallAmounts(r.outputs[i].value, r.outputs[i].asset))
  }

  // ---------------------------------------------------------------- packing

  function PutAsset(a: Option<AssetInfo>): seq<byte>
    requires AssetOk(a)
  {
    if a.None? then PutUint(0) else PutUint(1) + (PutUint(a.value.guid) + Big.PackedAmount(a.value.value))
  }

  function PutSuffix(m: Mode, a: Option<AssetInfo>): seq<byte>
    requires AssetOk(a)
  {
    if m.assets then PutAsset(a) else []
  }

  /** The length of the descriptor, complemented to carry a mark. */
  function Marked(n: nat, mark: bool): int { if mark then -1 - n else n }

  function PutInput(m: Mode, i: Input): seq<byte>
    requires InputOk(m, i)
  {
    if m.extended then
      PutInt(Marked(|i.addr|, i.prev.None?))
          + (i.addr + (Big.PackedAmount(i.value) + (PutPrev(i.prev) + PutSuffix(m, i.asset))))
    else
      PutUint(|i.addr|) + (i.addr + (Big.PackedAmount(i.value) + PutSuffix(m, i.asset)))
  }

  function PutPrev(p: Option<Prev>): seq<byte> {
    if p.None? then [] else p.value.txid + PutUint(p.value.vout)
  }

  function PutOutput(m: Mode, o: Output): seq<byte>
    requires OutputOk(m, o)
  {
    PutInt(Marked(|o.addr|, o.spent))
        + (o.addr + (Big.PackedAmount(o.value) + (SpenderPart(m, o) + PutSuffix(m, o.asset))))
  }

  function SpenderPart(m: Mode, o: Output): seq<byte> {
    if m.extended && o.spent then PutSpender(if o.spender.None? then NoSpender(m) else o.spender.value) else []
  }

  function PutSpender(s: Spender): seq<byte> { s.txid + (PutUint(s.index) + PutUint(s.height)) }

  function PutInputs(m: Mode, ins: seq<Input>): seq<byte>
    requires forall i :: 0 <= i < |ins| ==> InputOk(m, ins[i])
  {
    if ins == [] then [] else PutInput(m, ins[0]) + PutInputs(m, ins[1..])
  }

  function PutOutputs(m: Mode, outs: seq<Output>): seq<byte>
    requires forall i :: 0 <= i < |outs| ==> OutputOk(m, outs[i])
  {
    if outs == [] then [] else PutOutput(m, outs[0]) + PutOutputs(m, outs[1..])
  }

  function PutRecord(m: Mode, r: Record): seq<byte>
    requires RecordOk(m, r)
  {
    PutHead(m, r) + PutBody(m, r)
  }

  function PutBody(m: Mode, r: Record): seq<byte>
    requires RecordOk(m, r)
  {
    PutUint(|r.inputs|)
        + (PutInputs(m, r.inputs) + (PutUint(|r.outputs|) + (PutOutputs(m, r.outputs) + PutMemo(m, r.memo))))
  }

  function PutHead(m: Mode, r: Record): seq<byte> {
    (if m.assets then PutUint(WidenInt32(r.version)) else [])
        + (PutUint(r.height) + (if m.extended then PutUint(r.vsize) else []))
  }

  function PutMemo(m: Mode, memo: seq<byte>): seq<byte> { if m.assets then PutUint(|memo|) + memo else [] }

  // ---------------------------------------------------------------- unpacking

  function BigAt(buf: seq<byte>, at: nat): (r: Parse<nat>)
    ensures r.Got? ==> at < r.at <= |buf|
  {
    if at > |buf| then Short
    else
      match Big.Unpack(buf[at..])
      case None => Short
      case Some((v, n)) => Got(v, at + n)
  }

  function GetAsset(buf: seq<byte>, at: nat): (r: Parse<Option<AssetInfo>>)
    ensures r.Got? ==> at < r.at <= |buf|
  {
    var (flag, l) :- Uint(buf, at);
    if flag == 0 then Got(None, l)
    else
      var (guid, l) :- Uint(buf, l);
      var (value, l) :- BigAt(buf, l);
      Got(Some(AssetInfo(guid % U64, value)), l)
  }

  function GetSuffix(m: Mode, buf: seq<byte>, at: nat): (r: Parse<Option<AssetInfo>>)
    ensures r.Got? && at <= |buf| ==> at <= r.at <= |buf|
  {
    if m.assets then GetAsset(buf, at) else Got(None, at)
  }

  function GetPrev(m: Mode, buf: seq<byte>, at: nat): (r: Parse<Option<Prev>>)
    ensures r.Got? ==> at <= r.at <= |buf|
  {
    var (txid, l) :- Take(buf, at, m.txidLen);
    var (vout, l) :- Uint(buf, l);
    Got(Some(Prev(txid, ToUint32(vout))), l)
  }

  function Unmarked(i: int): nat { if i < 0 then -i - 1 else i }

  function GetInput(m: Mode, buf: seq<byte>, at: nat): (r: Parse<Input>)
    ensures r.Got? ==> at < r.at <= |buf|
  {
    if m.extended then
      var (al, l) :- Int(buf, at);
      var (addr, l) :- Take(buf, l, Unmarked(al));
      var (value, l) :- BigAt(buf, l);
      var (prev, l) :- (if al < 0 then Got(None, l) else GetPrev(m, buf, l));
      var (asset, l) :- GetSuffix(m, buf, l);
      Got(Input(addr, value, asset, prev), l)
    else
      var (al, l) :- Uint(buf, at);
      var (addr, l) :- Take(buf, l, al);
      var (value, l) :- BigAt(buf, l);
      var (asset, l) :- GetSuffix(m, buf, l);
      Got(Input(addr, value, asset, None), l)
  }

  function GetSpender(m: Mode, buf: seq<byte>, at: nat): (r: Parse<Option<Spender>>)
    ensures r.Got? ==> at <= r.at <= |buf|
  {
    var (txid, l) :- Take(buf, at, m.txidLen);
    var (index, l) :- Uint(buf, l);
    var (height, l) :- Uint(buf, l);
    Got(Some(Spender(txid, ToUint32(index), ToUint32(height))), l)
  }

  function GetOutput(m: Mode, buf: seq<byte>, at: nat): (r: Parse<Output>)
    ensures r.Got? ==> at < r.at <= |buf|
  {
    var (al, l) :- Int(buf, at);
    var (addr, l) :- Take(buf, l, Unmarked(al));
    var (value, l) :- BigAt(buf, l);
    var (spender, l) :- (if m.extended && al < 0 then GetSpender(m, buf, l) else Got(None, l));
    var (asset, l) :- GetSuffix(m, buf, l);
    Got(Output(addr, value, asset, al < 0, spender), l)
  }

  function GetInputs(m: Mode, buf: seq<byte>, at: nat, n: nat): (r: Parse<seq<Input>>)
    ensures r.Got? ==> |r.value| == n && at <= r.at
    decreases n
  {
    if n == 0 then Got([], at)
    else
      var (i, l) :- GetInput(m, buf, at);
      var (rest, l) :- GetInputs(m, buf, l, n - 1);
      Got([i] + rest, l)
  }

  function GetOutputs(m: Mode, buf: seq<byte>, at: nat, n: nat): (r: Parse<seq<Output>>)
    ensures r.Got? ==> |r.value| == n && at <= r.at
    decreases n
  {
    if n == 0 then Got([], at)
    else
      var (o, l) :- GetOutput(m, buf, at);
      var (rest, l) :- GetOutputs(m, buf, l, n - 1);
      Got([o] + rest, l)
  }

  /** Version and size are 0 where the mode does not keep them. */
  function GetHead(m: Mode, buf: seq<byte>, at: nat): (r: Parse<(int, nat, nat)>)
    ensures r.Got? ==> at < r.at
  {
    var (version, l) :- (if m.assets then Uint(buf, at) else Got(0, at));
    var (height, l) :- Uint(buf, l);
    var (vsize, l) :- (if m.extended then Uint(buf, l) else Got(0, l));
    Got((ToInt32(version), ToUint32(height), ToUint32(vsize)), l)
  }

  function GetMemo(m: Mode, buf: seq<byte>, at: nat): Parse<seq<byte>> {
    if !m.assets then Got([], at)
    else
      var (n, l) :- Uint(buf, at);
      Take(buf, l, n)
  }

  /** unpackTxAddresses */
  function GetRecord(m: Mode, buf: seq<byte>, at: nat): Parse<Record> {
    var (head, l) :- GetHead(m, buf, at);
    GetBody(m, buf, l, head)
  }

  function GetBody(m: Mode, buf: seq<byte>, at: nat, head: (int, nat, nat)): Parse<Record> {
    var (n, l) :- Uint(buf, at);
    var (inputs, l) :- GetInputs(m, buf, l, n);
    var (k, l) :- Uint(buf, l);
    var (outputs, l) :- GetOutputs(m, buf, l, k);
    var (memo, l) :- GetMemo(m, buf, l);
    Got(Record(head.0, head.1, head.2, inputs, outputs, memo), l)
  }

  // ---------------------------------------------------------------- unpacking what was packed

  lemma BigRead(buf: seq<byte>, at: nat, v: nat)
    requires At(buf, at, Big.PackedAmount(v))
    ensures BigAt(buf, at) == Got(Big.Truncated(v), at + |Big.PackedAmount(v)|)
  {
    hide Big.PackedAmount, Big.Truncated, Big.Unpack;
    var p := Big.PackedAmount(v);
    Big.PackedRead(v, buf[at + |p|..]);
    assert buf[at..] == p + buf[at + |p|..];
  }

  lemma AssetRead(buf: seq<byte>, at: nat, a: Option<AssetInfo>)
    requires AssetOk(a) && At(buf, at, PutAsset(a))
    ensures GetAsset(buf, at) == Got(CutAsset(a), at + |PutAsset(a)|)
  {
    hide Uint, PutUint, At, BigAt, Big.PackedAmount, Big.Truncated;
    if a.None? {
      UintRead(buf, at, 0);
    } else {
      var x, y, z := PutUint(1), PutUint(a.value.guid), Big.PackedAmount(a.value.value);
      AtJoin(buf, at, x, y + z);
      AtJoin(buf, at + |x|, y, z);
      UintRead(buf, at, 1);
      UintRead(buf, at + |x|, a.value.guid);
      BigRead(buf, at + |x| + |y|, a.value.value);
    }
  }

  lemma SuffixRead(m: Mode, buf: seq<byte>, at: nat, a: Option<AssetInfo>)
    requires AssetOk(a) && At(buf, at, PutSuffix(m, a))
    ensures GetSuffix(m, buf, at) == Got(if m.assets then CutAsset(a) else None, at + |PutSuffix(m, a)|)
  {
    if m.assets { AssetRead(buf, at, a); }
  }

  lemma TakeRead(buf: seq<byte>, at: nat, e: seq<byte>)
    requires At(buf, at, e)
    ensures Take(buf, at, |e|) == Got(e, at + |e|)
  {
  }

  lemma PrevRead(m: Mode, buf: seq<byte>, at: nat, p: Prev)
    requires |p.txid| == m.txidLen && p.vout < U32 && At(buf, at, PutPrev(Some(p)))
    ensures GetPrev(m, buf, at) == Got(Some(p), at + |PutPrev(Some(p))|)
  {
    hide Uint, PutUint;
    AtJoin(buf, at, p.txid, PutUint(p.vout));
    TakeRead(buf, at, p.txid);
    UintRead(buf, at + |p.txid|, p.vout);
  }

  lemma SpenderRead(m: Mode, buf: seq<byte>, at: nat, p: Spender)
    requires |p.txid| == m.txidLen && p.index < U32 && p.height < U32 && At(buf, at, PutSpender(p))
    ensures GetSpender(m, buf, at) == Got(Some(p), at + |PutSpender(p)|)
  {
    hide Uint, PutUint;
    var x, y := PutUint(p.index), PutUint(p.height);
    AtJoin(buf, at, p.txid, x + y);
    AtJoin(buf, at + |p.txid|, x, y);
    TakeRead(buf, at, p.txid);
    UintRead(buf, at + |p.txid|, p.index);
    UintRead(buf, at + |p.txid| + |x|, p.height);
  }

  lemma PlainInputRead(m: Mode, buf: seq<byte>, at: nat, i: Input)
    requires !m.extended && InputOk(m, i) && At(buf, at, PutInput(m, i))
    ensures GetInput(m, buf, at) == Got(KeptInput(m, i), at + |PutInput(m, i)|)
  {
    hide At, Uint, PutUint, Take, BigAt, Big.PackedAmount, Big.Truncated, GetSuffix, PutSuffix, AssetOk, CutAsset;
    var l, v, s := PutUint(|i.addr|), Big.PackedAmount(i.value), PutSuffix(m, i.asset);
    AtJoin(buf, at, l, i.addr + (v + s));
    AtJoin(buf, at + |l|, i.addr, v + s);
    AtJoin(buf, at + |l| + |i.addr|, v, s);
    UintRead(buf, at, |i.addr|);
    TakeRead(buf, at + |l|, i.addr);
    BigRead(buf, at + |l| + |i.addr|, i.value);
    SuffixRead(m, buf, at + |l| + |i.addr| + |v|, i.asset);
    NoAssetCut();
  }

  lemma ExtendedInputRead(m: Mode, buf: seq<byte>, at: nat, i: Input)
    requires m.extended && InputOk(m, i) && At(buf, at, PutInput(m, i))
    ensures GetInput(m, buf, at) == Got(KeptInput(m, i), at + |PutInput(m, i)|)
  {
    hide At, Int, PutInt, Take, BigAt, Big.PackedAmount, Big.Truncated, GetPrev, PutPrev, GetSuffix, PutSuffix;
    hide AssetOk, CutAsset;
    var l, v := PutInt(Marked(|i.addr|, i.prev.None?)), Big.PackedAmount(i.value);
    var p, s := PutPrev(i.prev), PutSuffix(m, i.asset);
    AtJoin(buf, at, l, i.addr + (v + (p + s)));
    AtJoin(buf, at + |l|, i.addr, v + (p + s));
    AtJoin(buf, at + |l| + |i.addr|, v, p + s);
    AtJoin(buf, at + |l| + |i.addr| + |v|, p, s);
    IntRead(buf, at, Marked(|i.addr|, i.prev.None?));
    TakeRead(buf, at + |l|, i.addr);
    BigRead(buf, at + |l| + |i.addr|, i.value);
    PrevOrNot(m, buf, at + |l| + |i.addr| + |v|, i.prev);
    SuffixRead(m, buf, at + |l| + |i.addr| + |v| + |p|, i.asset);
    NoAssetCut();
  }

  lemma NoAssetCut()
    ensures CutAsset(None) == None
  {
  }

  lemma InputRead(m: Mode, buf: seq<byte>, at: nat, i: Input)
    requires InputOk(m, i) && At(buf, at, PutInput(m, i))
    ensures GetInput(m, buf, at) == Got(KeptInput(m, i), at + |PutInput(m, i)|)
  {
    hide At, InputOk, PutInput, GetInput, KeptInput;
    if m.extended { ExtendedInputRead(m, buf, at, i); } else { PlainInputRead(m, buf, at, i); }
  }

  lemma PrevOrNot(m: Mode, buf: seq<byte>, at: nat, p: Option<Prev>)
    requires p.Some? ==> |p.value.txid| == m.txidLen && p.value.vout < U32
    requires At(buf, at, PutPrev(p))
    ensures p.None? ==> |PutPrev(p)| == 0
    ensures p.Some? ==> GetPrev(m, buf, at) == Got(p, at + |PutPrev(p)|)
  {
    if p.Some? { PrevRead(m, buf, at, p.value); }
  }

  lemma SpenderOrNot(m: Mode, buf: seq<byte>, at: nat, o: Output)
    requires OutputOk(m, o) && At(buf, at, SpenderPart(m, o))
    ensures (if m.extended && o.spent then GetSpender(m, buf, at) else Got(None, at))
            == Got(KeptOutput(m, o).spender, at + |SpenderPart(m, o)|)
  {
    if m.extended && o.spent { SpenderRead(m, buf, at, if o.spender.None? then NoSpender(m) else o.spender.value); }
  }

  lemma OutputRead(m: Mode, buf: seq<byte>, at: nat, o: Output)
    requires OutputOk(m, o) && At(buf, at, PutOutput(m, o))
    ensures GetOutput(m, buf, at) == Got(KeptOutput(m, o), at + |PutOutput(m, o)|)
  {
    hide At, Int, PutInt, Take, BigAt, Big.PackedAmount, Big.Truncated, GetSpender, SpenderPart, GetSuffix, PutSuffix;
    hide AssetOk;
    var l, v, p, s := PutInt(Marked(|o.addr|, o.spent)), Big.PackedAmount(o.value), SpenderPart(m, o),
        PutSuffix(m, o.asset);
    AtJoin(buf, at, l, o.addr + (v + (p + s)));
    AtJoin(buf, at + |l|, o.addr, v + (p + s));
    AtJoin(buf, at + |l| + |o.addr|, v, p + s);
    AtJoin(buf, at + |l| + |o.addr| + |v|, p, s);
    IntRead(buf, at, Marked(|o.addr|, o.spent));
    TakeRead(buf, at + |l|, o.addr);
    BigRead(buf, at + |l| + |o.addr|, o.value);
    SpenderOrNot(m, buf, at + |l| + |o.addr| + |v|, o);
    SuffixRead(m, buf, at + |l| + |o.addr| + |v| + |p|, o.asset);
  }

  lemma {:induction false} InputsRead(m: Mode, buf: seq<byte>, at: nat, ins: seq<Input>)
    requires (forall i :: 0 <= i < |ins| ==> InputOk(m, ins[i])) && At(buf, at, PutInputs(m, ins))
    ensures GetInputs(m, buf, at, |ins|) == Got(KeptInputs(m, ins), at + |PutInputs(m, ins)|)
    decreases |ins|
  {
    hide At, GetInput, PutInput, InputOk, KeptInput;
    if ins != [] {
      AtJoin(buf, at, PutInput(m, ins[0]), PutInputs(m, ins[1..]));
      InputRead(m, buf, at, ins[0]);
      InputsRead(m, buf, at + |PutInput(m, ins[0])|, ins[1..]);
    }
  }

  lemma {:induction false} OutputsRead(m: Mode, buf: seq<byte>, at: nat, outs: seq<Output>)
    requires (forall i :: 0 <= i < |outs| ==> OutputOk(m, outs[i])) && At(buf, at, PutOutputs(m, outs))
    ensures GetOutputs(m, buf, at, |outs|) == Got(KeptOutputs(m, outs), at + |PutOutputs(m, outs)|)
    decreases |outs|
  {
    hide At, GetOutput, PutOutput, OutputOk, KeptOutput;
    if outs != [] {
      AtJoin(buf, at, PutOutput(m, outs[0]), PutOutputs(m, outs[1..]));
      OutputRead(m, buf, at, outs[0]);
      OutputsRead(m, buf, at + |PutOutput(m, outs[0])|, outs[1..]);
    }
  }

  lemma HeadRead(m: Mode, buf: seq<byte>, at: nat, r: Record)
    requires -0x8000_0000 <= r.version < 0x8000_0000 && r.height < U32 && r.vsize < U32 && At(buf, at, PutHead(m, r))
    ensures GetHead(m, buf, at)
            == Got((if m.assets then r.version else 0, r.height, if m.extended then r.vsize else 0),
                at + |PutHead(m, r)|)
  {
    hide At, Uint, PutUint;
    var x, y, z := if m.assets then PutUint(WidenInt32(r.version)) else [], PutUint(r.height), if m.extended
        then PutUint(r.vsize) else [];
    AtJoin(buf, at, x, y + z);
    AtJoin(buf, at + |x|, y, z);
    if m.assets { UintRead(buf, at, WidenInt32(r.version)); }
    UintRead(buf, at + |x|, r.height);
    if m.extended { UintRead(buf, at + |x| + |y|, r.vsize); }
  }

  lemma MemoRead(m: Mode, buf: seq<byte>, at: nat, memo: seq<byte>)
    requires At(buf, at, PutMemo(m, memo))
    ensures GetMemo(m, buf, at) == Got(if m.assets then memo else [], at + |PutMemo(m, memo)|)
  {
    if m.assets {
      AtJoin(buf, at, PutUint(|memo|), memo);
      UintRead(buf, at, |memo|);
      TakeRead(buf, at + |PutUint(|memo|)|, memo);
    }
  }

  lemma BodyRead(m: Mode, buf: seq<byte>, at: nat, r: Record, head: (int, nat, nat))
    requires RecordOk(m, r) && At(buf, at, PutBody(m, r))
    ensures GetBody(m, buf, at, head)
         == Got(Record(head.0, head.1, head.2, KeptInputs(m, r.inputs), KeptOutputs(m, r.outputs), if m.assets
             then r.memo else []),
                at + |PutBody(m, r)|)
  {
    hide At, Uint, PutUint, PutInputs, GetInputs, PutOutputs, GetOutputs, PutMemo, GetMemo, InputOk, OutputOk;
    hide KeptInputs, KeptOutputs;
    var n, i, k, o, e := PutUint(|r.inputs|), PutInputs(m, r.inputs), PutUint(|r.outputs|), PutOutputs(m, r.outputs),
        PutMemo(m, r.memo);
    AtJoin(buf, at, n, i + (k + (o + e)));
    AtJoin(buf, at + |n|, i, k + (o + e));
    AtJoin(buf, at + |n| + |i|, k, o + e);
    AtJoin(buf, at + |n| + |i| + |k|, o, e);
    UintRead(buf, at, |r.inputs|);
    InputsRead(m, buf, at + |n|, r.inputs);
    UintRead(buf, at + |n| + |i|, |r.outputs|);
    OutputsRead(m, buf, at + |n| + |i| + |k|, r.outputs);
    MemoRead(m, buf, at + |n| + |i| + |k| + |o|, r.memo);
  }

  /** In every mode, unpacking a packed record gives back the fields the mode keeps, with what packing leaves of their
      amounts, and takes all of it. */
  lemma RecordRead(m: Mode, r: Record, rest: seq<byte>)
    requires RecordOk(m, r)
    ensures GetRecord(m, PutRecord(m, r) + rest, 0) == Got(Kept(m, r), |PutRecord(m, r)|)
  {
    hide At, PutHead, GetHead, PutBody, GetBody, KeptInputs, KeptOutputs, InputOk, OutputOk;
    var buf := PutRecord(m, r) + rest;
    Foremost(PutRecord(m, r), rest);
    AtJoin(buf, 0, PutHead(m, r), PutBody(m, r));
    HeadRead(m, buf, 0, r);
    BodyRead(m, buf, |PutHead(m, r)|, r, GetHead(m, buf, 0).value);
  }

  lemma CutExactly(value: nat, asset: Option<AssetInfo>)
    ensures Big.Truncated(value) == value && CutAsset(asset) == asset <==> SmallAmounts(value, asset)
  {
    hide Big.Truncated, Big.PowWord;
    Big.TruncatedExactly(value);
    if asset.Some? { Big.TruncatedExactly(asset.value.value); }
  }

  lemma InputExactly(m: Mode, i: Input)
    ensures KeptInput(m, i) == InputIn(m, i) <==> SmallAmounts(i.value, InputIn(m, i).asset)
  {
    hide Big.Truncated, CutAsset, SmallAmounts;
    CutExactly(i.value, InputIn(m, i).asset);
  }

  lemma OutputExactly(m: Mode, o: Output)
    ensures KeptOutput(m, o) == OutputIn(m, o) <==> SmallAmounts(o.value, OutputIn(m, o).asset)
  {
    hide Big.Truncated, CutAsset, SmallAmounts;
    CutExactly(o.value, OutputIn(m, o).asset);
  }

  /** The fields of the mode come back whole exactly when all their amounts have at most 31 words. */
  lemma RecordReadExactly(m: Mode, r: Record, rest: seq<byte>)
    requires RecordOk(m, r)
    ensures GetRecord(m, PutRecord(m, r) + rest, 0) == Got(RecordIn(m, r), |PutRecord(m, r)|)
            <==> AllSmall(RecordIn(m, r))
  {
    hide GetRecord, PutRecord, RecordOk, SmallAmounts, InputIn, OutputIn, KeptInput, KeptOutput;
    RecordRead(m, r, rest);
    var k, whole := Kept(m, r), RecordIn(m, r);
    forall i | 0 <= i < |r.inputs|
      ensures k.inputs[i] == whole.inputs[i] <==> SmallAmounts(whole.inputs[i].value, whole.inputs[i].asset)
    {
      InputExactly(m, r.inputs[i]);
      InputValue(m, r.inputs[i]);
    }
    forall i | 0 <= i < |r.outputs|
      ensures k.outputs[i] == whole.outputs[i] <==> SmallAmounts(whole.outputs[i].value, whole.outputs[i].asset)
    {
      OutputExactly(m, r.outputs[i]);
      OutputValue(m, r.outputs[i]);
    }
    assert k.inputs == whole.inputs <==> forall i :: 0 <= i < |r.inputs| ==> k.inputs[i] == whole.inputs[i];
    assert k.outputs == whole.outputs <==> forall i :: 0 <= i < |r.outputs| ==> k.outputs[i] == whole.outputs[i];
  }

  lemma InputValue(m: Mode, i: Input)
    ensures InputIn(m, i).value == i.value
  {
  }

  lemma OutputValue(m: Mode, o: Output)
    ensures OutputIn(m, o).value == o.value
  {
  }

  lemma Foremost(e: seq<byte>, rest: seq<byte>)
    ensures At(e + rest, 0, e)
  {
  }

  // ---------------------------------------------------------------- skipping without decoding

  /** One byte of length and as many bytes. */
  function SkipBig(buf: seq<byte>, at: nat): Parse<()> {
    if at >= |buf| then Short else Got((), at + buf[at] as nat + 1)
  }

  /** packedAssetInfoLen */
  function SkipAsset(buf: seq<byte>, at: nat): Parse<()> {
    var (flag, l) :- Uint(buf, at);
    if flag == 0 then Got((), l)
    else
      var (_, l) :- Uint(buf, l);
      SkipBig(buf, l)
  }

  function SkipSuffix(m: Mode, buf: seq<byte>, at: nat): Parse<()> {
    if m.assets then SkipAsset(buf, at) else Got((), at)
  }

  function SkipUint(buf: seq<byte>, at: nat): Parse<()> {
    var (_, l) :- Uint(buf, at);
    Got((), l)
  }

  /** packedTxInputLen */
  function SkipInput(m: Mode, buf: seq<byte>, at: nat): Parse<()> {
    if m.extended then
      var (al, l) :- Int(buf, at);
      var (_, l) :- SkipBig(buf, l + Unmarked(al));
      var (_, l) :- (if al < 0 then Got((), l) else SkipUint(buf, l + m.txidLen));
      SkipSuffix(m, buf, l)
    else
      var (al, l) :- Uint(buf, at);
      var (_, l) :- SkipBig(buf, l + al);
      SkipSuffix(m, buf, l)
  }

  /** packedTxOutputLen */
  function SkipOutput(m: Mode, buf: seq<byte>, at: nat): Parse<()> {
    var (al, l) :- Int(buf, at);
    var (_, l) :- SkipBig(buf, l + Unmarked(al));
    var (_, l) :- (if m.extended && al < 0 then SkipSpender(m, buf, l) else Got((), l));
    SkipSuffix(m, buf, l)
  }

  function SkipSpender(m: Mode, buf: seq<byte>, at: nat): Parse<()> {
    var (_, l) :- Uint(buf, at + m.txidLen);
    SkipUint(buf, l)
  }

  function SkipInputs(m: Mode, buf: seq<byte>, at: nat, n: nat): Parse<()>
    decreases n
  {
    if n == 0 then Got((), at)
    else
      var (_, l) :- SkipInput(m, buf, at);
      SkipInputs(m, buf, l, n - 1)
  }

  function SkipOutputs(m: Mode, buf: seq<byte>, at: nat, n: nat): Parse<()>
    decreases n
  {
    if n == 0 then Got((), at)
    else
      var (_, l) :- SkipOutput(m, buf, at);
      SkipOutputs(m, buf, l, n - 1)
  }

  function SkipHead(m: Mode, buf: seq<byte>, at: nat): Parse<()> {
    var (_, l) :- (if m.assets then SkipUint(buf, at) else Got((), at));
    var (_, l) :- Uint(buf, l);
    if m.extended then SkipUint(buf, l) else Got((), l)
  }

  /** GetTxAddressesOutput: output `vout` of a stored record, None when there is no record or no such output. */
  function OutputAlone(m: Mode, buf: seq<byte>, vout: nat): Parse<Option<Output>> {
    if |buf| < 3 then Got(None, 0)
    else
      var (_, l) :- SkipHead(m, buf, 0);
      var (n, l) :- Uint(buf, l);
      var (_, l) :- SkipInputs(m, buf, l, n);
      var (k, l) :- Uint(buf, l);
      if vout >= k then Got(None, l)
      else
        var (_, l) :- SkipOutputs(m, buf, l, vout);
        var (o, l) :- GetOutput(m, buf, l);
        Got(Some(o), l)
  }

  // ---------------------------------------------------------------- skipping agrees with decoding

  /** `skip` goes where decoding to `p` went. */
  predicate Same<T>(p: Parse<T>, skip: Parse<()>) { p.Got? ==> skip == Got((), p.at) }

  lemma BigSkipped(buf: seq<byte>, at: nat)
    ensures Same(BigAt(buf, at), SkipBig(buf, at))
  {
  }

  lemma SuffixSkipped(m: Mode, buf: seq<byte>, at: nat)
    ensures Same(GetSuffix(m, buf, at), SkipSuffix(m, buf, at))
  {
    hide BigAt, SkipBig;
    forall l { BigSkipped(buf, l); }
  }

  /** On every buffer that holds an input, skipping it stops where decoding it does. */
  lemma InputSkipped(m: Mode, buf: seq<byte>, at: nat)
    ensures Same(GetInput(m, buf, at), SkipInput(m, buf, at))
  {
    hide BigAt, SkipBig, GetSuffix, SkipSuffix;
    forall l: nat ensures Same(BigAt(buf, l), SkipBig(buf, l)) { BigSkipped(buf, l); }
    forall l: nat ensures Same(GetSuffix(m, buf, l), SkipSuffix(m, buf, l)) { SuffixSkipped(m, buf, l); }
  }

  lemma OutputSkipped(m: Mode, buf: seq<byte>, at: nat)
    ensures Same(GetOutput(m, buf, at), SkipOutput(m, buf, at))
  {
    hide BigAt, SkipBig, GetSuffix, SkipSuffix;
    forall l: nat ensures Same(BigAt(buf, l), SkipBig(buf, l)) { BigSkipped(buf, l); }
    forall l: nat ensures Same(GetSuffix(m, buf, l), SkipSuffix(m, buf, l)) { SuffixSkipped(m, buf, l); }
  }

  lemma {:induction false} InputsSkipped(m: Mode, buf: seq<byte>, at: nat, n: nat)
    ensures Same(GetInputs(m, buf, at, n), SkipInputs(m, buf, at, n))
    decreases n
  {
    hide GetInput, SkipInput;
    if n > 0 {
      InputSkipped(m, buf, at);
      if GetInput(m, buf, at).Got? { InputsSkipped(m, buf, GetInput(m, buf, at).at, n - 1); }
    }
  }

  /** Output `v` of a decoded list is found by skipping the ones before it. */
  lemma {:induction false} OutputsSkipped(m: Mode, buf: seq<byte>, at: nat, n: nat, v: nat)
    requires v < n && GetOutputs(m, buf, at, n).Got?
    ensures var s := SkipOutputs(m, buf, at, v);
            s.Got? && GetOutput(m, buf, s.at).Got?
                && GetOutput(m, buf, s.at).value == GetOutputs(m, buf, at, n).value[v]
    decreases n
  {
    hide GetOutput, SkipOutput;
    if v > 0 {
      OutputSkipped(m, buf, at);
      OutputsSkipped(m, buf, GetOutput(m, buf, at).at, n - 1, v - 1);
    }
  }

  /** On every buffer that decodes to a record, the short cut gives the output the record has there. */
  lemma OutputAloneIsOutput(m: Mode, buf: seq<byte>, vout: nat)
    requires GetRecord(m, buf, 0).Got?
    ensures var outputs := GetRecord(m, buf, 0).value.outputs;
            var r := OutputAlone(m, buf, vout);
            r.Got? && r.value == if vout < |outputs| then Some(outputs[vout]) else None
  {
    hide GetInputs, SkipInputs, GetOutputs, SkipOutputs, GetOutput, GetMemo;
    var h := GetHead(m, buf, 0);
    var n := Uint(buf, h.at);
    InputsSkipped(m, buf, n.at, n.value);
    var k := Uint(buf, GetInputs(m, buf, n.at, n.value).at);
    if vout < k.value { OutputsSkipped(m, buf, k.at, k.value, vout); }
  }

  // ---------------------------------------------------------------- the loops

  method AppendInputs(m: Mode, ins: seq<Input>, start: seq<byte>) returns (buf: seq<byte>)
    requires forall i :: 0 <= i < |ins| ==> InputOk(m, ins[i])
    ensures buf == start + PutInputs(m, ins)
  {
    hide PutInput, InputOk;
    buf := start;
    ghost var done := [];
    assert ins[0..] == ins;
    for i := 0 to |ins|
      invariant buf == start + done && done + PutInputs(m, ins[i..]) == PutInputs(m, ins)
    {
      assert ins[i..][1..] == ins[i + 1..];
      var e := PutInput(m, ins[i]);
      buf, done := buf + e, done + e;
    }
  }

  method AppendOutputs(m: Mode, outs: seq<Output>, start: seq<byte>) returns (buf: seq<byte>)
    requires forall i :: 0 <= i < |outs| ==> OutputOk(m, outs[i])
    ensures buf == start + PutOutputs(m, outs)
  {
    hide PutOutput, OutputOk;
    buf := start;
    ghost var done := [];
    assert outs[0..] == outs;
    for i := 0 to |outs|
      invariant buf == start + done && done + PutOutputs(m, outs[i..]) == PutOutputs(m, outs)
    {
      assert outs[i..][1..] == outs[i + 1..];
      var e := PutOutput(m, outs[i]);
      buf, done := buf + e, done + e;
    }
  }

  /** packTxAddresses */
  method PackTxAddresses(m: Mode, r: Record) returns (buf: seq<byte>)
    requires RecordOk(m, r)
    ensures buf == PutRecord(m, r)
  {
    hide PutHead, PutUint, PutInputs, PutOutputs, PutMemo, InputOk, OutputOk;
    buf := PutHead(m, r);
    buf := buf + PutUint(|r.inputs|);
    buf := AppendInputs(m, r.inputs, buf);
    buf := buf + PutUint(|r.outputs|);
    buf := AppendOutputs(m, r.outputs, buf);
    buf := buf + PutMemo(m, r.memo);
  }

  function Before<T>(done: seq<T>, p: Parse<seq<T>>): Parse<seq<T>> {
    if p.Short? then Short else Got(done + p.value, p.at)
  }

  lemma BeforeNone<T>(p: Parse<seq<T>>, done: seq<T>)
    ensures Before([], p) == p && done + [] == done
  {
    if p.Got? { assert [] + p.value == p.value; }
  }

  lemma BeforeOne<T>(done: seq<T>, x: T, p: Parse<seq<T>>)
    ensures Before(done, Before([x], p)) == Before(done + [x], p)
  {
    if p.Got? { assert done + ([x] + p.value) == done + [x] + p.value; }
  }

  method UnpackInputs(m: Mode, buf: seq<byte>, at: nat, n: nat) returns (r: Parse<seq<Input>>)
    ensures r == GetInputs(m, buf, at, n)
  {
    hide GetInput;
    var l, ins := at, [];
    var i := n;
    BeforeNone(GetInputs(m, buf, at, n), ins);
    while i > 0
      invariant 0 <= i <= n && GetInputs(m, buf, at, n) == Before(ins, GetInputs(m, buf, l, i))
    {
      var p := GetInput(m, buf, l);
      if p.Short? {
        return Short;
      }
      BeforeOne(ins, p.value, GetInputs(m, buf, p.at, i - 1));
      ins, l, i := ins + [p.value], p.at, i - 1;
    }
    BeforeNone(Short, ins);
    return Got(ins, l);
  }

  method UnpackOutputs(m: Mode, buf: seq<byte>, at: nat, n: nat) returns (r: Parse<seq<Output>>)
    ensures r == GetOutputs(m, buf, at, n)
  {
    hide GetOutput;
    var l, outs := at, [];
    var i := n;
    BeforeNone(GetOutputs(m, buf, at, n), outs);
    while i > 0
      invariant 0 <= i <= n && GetOutputs(m, buf, at, n) == Before(outs, GetOutputs(m, buf, l, i))
    {
      var p := GetOutput(m, buf, l);
      if p.Short? {
        return Short;
      }
      BeforeOne(outs, p.value, GetOutputs(m, buf, p.at, i - 1));
      outs, l, i := outs + [p.value], p.at, i - 1;
    }
    BeforeNone(Short, outs);
    return Got(outs, l);
  }

  /** unpackTxAddresses */
  method UnpackTxAddresses(m: Mode, buf: seq<byte>) returns (r: Parse<Record>)
    ensures r == GetRecord(m, buf, 0)
  {
    hide GetHead, GetInputs, GetOutputs, GetMemo, Uint;
    var head :- GetHead(m, buf, 0);
    var n :- Uint(buf, head.1);
    var inputs :- UnpackInputs(m, buf, n.1, n.0);
    var k :- Uint(buf, inputs.1);
    var outputs :- UnpackOutputs(m, buf, k.1, k.0);
    var memo :- GetMemo(m, buf, outputs.1);
    return Got(Record(head.0.0, head.0.1, head.0.2, inputs.0, outputs.0, memo.0), memo.1);
  }

  method PassInputs(m: Mode, buf: seq<byte>, at: nat, n: nat) returns (r: Parse<()>)
    ensures r == SkipInputs(m, buf, at, n)
  {
    hide SkipInput;
    var l, i := at, n;
    while i > 0
      invariant 0 <= i <= n && SkipInputs(m, buf, at, n) == SkipInputs(m, buf, l, i)
    {
      var e :- SkipInput(m, buf, l);
      l, i := e.1, i - 1;
    }
    return Got((), l);
  }

  method PassOutputs(m: Mode, buf: seq<byte>, at: nat, n: nat) returns (r: Parse<()>)
    ensures r == SkipOutputs(m, buf, at, n)
  {
    hide SkipOutput;
    var l, i := at, n;
    while i > 0
      invariant 0 <= i <= n && SkipOutputs(m, buf, at, n) == SkipOutputs(m, buf, l, i)
    {
      var e :- SkipOutput(m, buf, l);
      l, i := e.1, i - 1;
    }
    return Got((), l);
  }

  /** The output at `vout` without decoding what comes before it, the same as decoding everything. */
  method GetTxAddressesOutput(m: Mode, buf: seq<byte>, vout: nat) returns (r: Parse<Option<Output>>)
    ensures r == OutputAlone(m, buf, vout)
    ensures GetRecord(m, buf, 0).Got? ==>
              var outputs := GetRecord(m, buf, 0).value.outputs;
              r.Got? && r.value == if vout < |outputs| then Some(outputs[vout]) else None
  {
    if GetRecord(m, buf, 0).Got? { OutputAloneIsOutput(m, buf, vout); }
    hide GetRecord, SkipHead, Uint, SkipInputs, SkipOutputs, GetOutput;
    if |buf| < 3 {
      return Got(None, 0);
    }
    var head :- SkipHead(m, buf, 0);
    var n :- Uint(buf, head.1);
    var ins :- PassInputs(m, buf, n.1, n.0);
    var k :- Uint(buf, ins.1);
    if vout >= k.0 {
      return Got(None, k.1);
    }
    var outs :- PassOutputs(m, buf, k.1, vout);
    var o :- GetOutput(m, buf, outs.1);
    return Got(Some(o.0), o.1);
  }
}
