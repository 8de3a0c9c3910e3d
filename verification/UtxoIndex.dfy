// The UTXO list of one address: a slice with tombstones and a lazily built index
// from txid to the first slot of that txid.
module UtxoIndex {
  import opened Types

  // number of slots from which the index is maintained
  const INDEX_THRESHOLD := 16

  /** What the list holds: its slots, and the index (empty until it is first built). */
  datatype UtxoList = UtxoList(slots: seq<Utxo>, index: map<TxId, nat>)

  const Empty := UtxoList([], map[])

  // ---------------------------------------------------------------- searches

  /** The first slot at or after `from` that belongs to txid `t`, or |s|. */
  function FindTxid(s: seq<Utxo>, t: TxId, from: nat): (i: nat)
    requires from <= |s|
    ensures from <= i <= |s|
    ensures i < |s| ==> s[i].txid == t
    ensures forall k :: from <= k < i ==> s[k].txid != t
    decreases |s| - from
  {
    if from == |s| || s[from].txid == t then from else FindTxid(s, t, from + 1)
  }

  /** The first slot at or after `from` that is the outpoint t:v, or |s|. */
  function FindOutpoint(s: seq<Utxo>, t: TxId, v: int, from: nat): (i: nat)
    requires from <= |s|
    ensures from <= i <= |s|
    ensures i < |s| ==> s[i].txid == t && s[i].vout == v
    ensures forall k :: from <= k < i ==> !(s[k].txid == t && s[k].vout == v)
    decreases |s| - from
  {
    if from == |s| || (s[from].txid == t && s[from].vout == v) then from else FindOutpoint(s, t, v, from + 1)
  }

  /** The first slot at or after `from` with output number `v`, of whatever transaction, or |s|. */
  function FindVout(s: seq<Utxo>, v: int, from: nat): (i: nat)
    requires from <= |s|
    ensures from <= i <= |s|
    ensures i < |s| ==> s[i].vout == v
    ensures forall k :: from <= k < i ==> s[k].vout != v
    decreases |s| - from
  {
    if from == |s| || s[from].vout == v then from else FindVout(s, v, from + 1)
  }

  /** The first slot at or after `from` that a restored `u` has to be put in front of, or |s|. */
  function FindInsert(s: seq<Utxo>, u: Utxo, from: nat): (i: nat)
    requires from <= |s|
    ensures from <= i <= |s|
    ensures i < |s| ==> s[i].vout > u.vout || s[i].txid != u.txid
    ensures forall k :: from <= k < i ==> s[k].vout <= u.vout && s[k].txid == u.txid
    decreases |s| - from
  {
    if from == |s| || s[from].vout > u.vout || s[from].txid != u.txid then from else FindInsert(s, u, from + 1)
  }

  // ---------------------------------------------------------------- operations

  /** The index built by one pass over the slots: every txid to its first slot. */
  function BuildIndex(s: seq<Utxo>): (m: map<TxId, nat>)
    ensures IndexMatches(s, m)
  {
    if s == [] then map[]
    else
      var n := |s| - 1;
      var m := BuildIndex(s[..n]);
      if s[n].txid in m then m else m[s[n].txid := n]
  }

  /** Index upkeep after `t` was appended as the last slot of `s`. */
  function ManageIndex(s: seq<Utxo>, index: map<TxId, nat>, t: TxId): map<TxId, nat>
    requires |s| > 0
  {
    if |s| < INDEX_THRESHOLD then index
    else if index == map[] then BuildIndex(s)
    else if t in index then index
    else index[t := |s| - 1]
  }

  function Append(l: UtxoList, u: Utxo): UtxoList {
    var s := l.slots + [u];
    UtxoList(s, ManageIndex(s, l.index, u.txid))
  }

  /** Index lookup; an index pointing outside the list, which no run produces, is a miss. */
  function Lookup(l: UtxoList, t: TxId): (i: nat)
    ensures i <= |l.slots|
  {
    if t in l.index && l.index[t] < |l.slots| then l.index[t] else |l.slots|
  }

  /** Where the group of txid `t` starts, through the index when there is one; |slots| if there is none. */
  function GroupStart(l: UtxoList, t: TxId): (i: nat)
    ensures i <= |l.slots|
  {
    if l.index != map[] then Lookup(l, t) else FindTxid(l.slots, t, 0)
  }

  /** Restores an output whose spending was disconnected, inside its txid's group if it has one. */
  function Restore(l: UtxoList, u: Utxo): UtxoList {
    var start := GroupStart(l, u.txid);
    var i := if start < |l.slots| then FindInsert(l.slots, u, start) else |l.slots|;
    if i < |l.slots| then UtxoList(l.slots[..i] + [u] + l.slots[i..], map[])
    else Append(l, u)
  }

  /** The slot that markUtxoAsSpent turns into a tombstone, or |slots| when it reports an error. */
  function SpendSlot(l: UtxoList, t: TxId, v: int): (i: nat)
    ensures i <= |l.slots|
  {
    if l.index == map[] then FindOutpoint(l.slots, t, v, 0)
    else
      // the indexed search stops at the first slot with this output number,
      // even when that slot belongs to another transaction
      var i := FindVout(l.slots, v, Lookup(l, t));
      if i < |l.slots| && l.slots[i].txid == t then i else |l.slots|
  }

  function Tombstone(s: seq<Utxo>, i: nat): seq<Utxo>
    requires i <= |s|
  {
    if i < |s| then s[i := s[i].(vout := -1)] else s
  }

  function MarkSpent(l: UtxoList, t: TxId, v: int): UtxoList {
    l.(slots := Tombstone(l.slots, SpendSlot(l, t, v)))
  }

  // ---------------------------------------------------------------- invariant

  ghost predicate IndexInRange(l: UtxoList) {
    forall t :: t in l.index ==> l.index[t] < |l.slots|
  }

  /** `m` sends exactly the txids of `s` to their first slots. */
  ghost predicate IndexMatches(s: seq<Utxo>, m: map<TxId, nat>) {
    && (forall t :: t in m ==> m[t] < |s| && s[m[t]].txid == t)
    && (forall i :: 0 <= i < |s| ==> s[i].txid in m && m[s[i].txid] <= i)
  }

  predicate Between(i: int, j: int, k: int) { i < j < k }

  /** Slots of one transaction form one block of the list. */
  ghost predicate Contiguous(s: seq<Utxo>) {
    forall i, j, k {:trigger Between(i, j, k)} ::
      0 <= i && Between(i, j, k) && k < |s| && s[i].txid == s[k].txid ==> s[j].txid == s[i].txid
  }

  ghost predicate LiveAscending(s: seq<Utxo>) {
    forall i, j :: 0 <= i < j < |s| && s[i].txid == s[j].txid && s[i].vout >= 0 && s[j].vout >= 0
                   ==> s[i].vout < s[j].vout
  }

  ghost predicate ValidSlots(s: seq<Utxo>) {
    && Contiguous(s)
    && LiveAscending(s)
    && (forall i :: 0 <= i < |s| ==> s[i].vout >= -1)
  }

  /** An index that was built is complete. */
  ghost predicate ValidIndex(l: UtxoList) {
    l.index != map[] ==> |l.slots| >= INDEX_THRESHOLD && IndexMatches(l.slots, l.index)
  }

  ghost predicate Valid(l: UtxoList) {
    ValidSlots(l.slots) && ValidIndex(l)
  }

  /** Block connection appends the outputs of one transaction after another, in output order. */
  ghost predicate CanAppend(s: seq<Utxo>, u: Utxo) {
    && u.vout >= 0
    && (forall i :: 0 <= i < |s| && s[i].txid == u.txid ==> s[i].vout < u.vout)
    && (forall i :: 0 <= i < |s| && s[i].txid == u.txid ==> s[|s| - 1].txid == u.txid)
  }

  /** Disconnection restores an output that is not in the list. */
  ghost predicate CanRestore(s: seq<Utxo>, u: Utxo) {
    && u.vout >= 0
    && (forall i :: 0 <= i < |s| ==> !(s[i].txid == u.txid && s[i].vout == u.vout))
  }

  lemma AppendKeepsValid(l: UtxoList, u: Utxo)
    requires Valid(l) && CanAppend(l.slots, u)
    ensures Valid(Append(l, u))
  {
    var s, n := l.slots + [u], |l.slots|;
    assert Contiguous(s) by {
      forall i, j, k | 0 <= i && Between(i, j, k) && k < |s| && s[i].txid == s[k].txid
        ensures s[j].txid == s[i].txid
      {
        if k < n {
          assert Between(i, j, k);
        } else if j < n - 1 {
          assert Between(i, j, n - 1);
        }
      }
    }
    AppendKeepsIndex(l, u);
  }

  lemma AppendKeepsIndex(l: UtxoList, u: Utxo)
    requires ValidIndex(l)
    ensures ValidIndex(Append(l, u))
  {
    var s := l.slots + [u];
    assert forall i :: 0 <= i < |l.slots| ==> s[i] == l.slots[i];
  }

  /** The group reached through the index is the group a scan finds. */
  lemma GroupStartIsFirst(l: UtxoList, t: TxId)
    requires ValidIndex(l)
    ensures GroupStart(l, t) == FindTxid(l.slots, t, 0)
  {
    var i := FindTxid(l.slots, t, 0);
    if l.index != map[] && i < |l.slots| {
      assert l.slots[i].txid in l.index;
    }
  }

  /** A restored output goes to the end of its group or in front of a later output of the same group. */
  lemma InsertStaysInGroup(s: seq<Utxo>, u: Utxo, i: nat)
    requires Contiguous(s)
    requires var start := FindTxid(s, u.txid, 0); start < |s| && i == FindInsert(s, u, start) < |s|
    ensures forall k :: i < k < |s| && s[k].txid == u.txid ==> s[i].txid == u.txid
    ensures s[i].txid != u.txid ==> i > 0 && s[i - 1].txid == u.txid
  {
    var start := FindTxid(s, u.txid, 0);
    forall k | i < k < |s| && s[k].txid == u.txid
      ensures s[i].txid == u.txid
    {
      if start < i { assert Between(start, i, k); }
    }
  }

  lemma InsertKeepsContiguous(s: seq<Utxo>, u: Utxo, i: nat)
    requires Contiguous(s) && i <= |s|
    requires 0 < i < |s| && s[i - 1].txid == s[i].txid ==> s[i].txid == u.txid
    requires forall k :: 0 <= k < |s| && s[k].txid == u.txid ==>
                           (i > 0 && s[i - 1].txid == u.txid) || (i < |s| && s[i].txid == u.txid)
    ensures Contiguous(s[..i] + [u] + s[i..])
  {
    var r := s[..i] + [u] + s[i..];
    forall a, b, c | 0 <= a && Between(a, b, c) && c < |r| && r[a].txid == r[c].txid
      ensures r[b].txid == r[a].txid
    {
      var pa, pb, pc := if a <= i then a else a - 1, if b <= i then b else b - 1, if c <= i then c else c - 1;
      assert a != i ==> r[a] == s[pa];
      assert b != i ==> r[b] == s[pb];
      assert c != i ==> r[c] == s[pc];
      if a == i {
        assert s[pc].txid == u.txid;
        if s[i].txid == u.txid {
          assert pb == i || Between(i, pb, pc);
        } else {
          assert Between(i - 1, pb, pc);
        }
      } else if b == i {
        assert s[a].txid == s[pc].txid;
        assert a == i - 1 || Between(a, i - 1, pc);
        assert pc == i || Between(a, i, pc);
      } else if c == i {
        assert s[a].txid == u.txid;
        if s[i - 1].txid == u.txid {
          assert b == i - 1 || Between(a, b, i - 1);
        } else {
          assert Between(a, b, i);
        }
      } else {
        assert Between(pa, pb, pc);
      }
    }
  }

  lemma InsertKeepsAscending(s: seq<Utxo>, u: Utxo, i: nat)
    requires LiveAscending(s) && u.vout >= 0 && i < |s|
    requires forall k :: 0 <= k < i && s[k].txid == u.txid ==> s[k].vout < u.vout
    requires s[i].vout > u.vout || s[i].txid != u.txid
    requires forall k :: i < k < |s| && s[k].txid == u.txid ==> s[i].txid == u.txid
    ensures LiveAscending(s[..i] + [u] + s[i..])
  {
    var r := s[..i] + [u] + s[i..];
    forall a, b | 0 <= a < b < |r| && r[a].txid == r[b].txid && r[a].vout >= 0 && r[b].vout >= 0
      ensures r[a].vout < r[b].vout
    {
      var pa, pb := if a <= i then a else a - 1, if b <= i then b else b - 1;
      assert a != i ==> r[a] == s[pa];
      assert b != i ==> r[b] == s[pb];
    }
  }

  lemma InsertKeepsValid(s: seq<Utxo>, u: Utxo, i: nat)
    requires ValidSlots(s) && CanRestore(s, u)
    requires var start := FindTxid(s, u.txid, 0); start < |s| && i == FindInsert(s, u, start) < |s|
    ensures ValidSlots(s[..i] + [u] + s[i..])
  {
    InsertStaysInGroup(s, u, i);
    InsertKeepsContiguous(s, u, i);
    InsertKeepsAscending(s, u, i);
  }

  lemma RestoreKeepsValid(l: UtxoList, u: Utxo)
    requires Valid(l) && CanRestore(l.slots, u)
    ensures Valid(Restore(l, u))
  {
    var s := l.slots;
    GroupStartIsFirst(l, u.txid);
    var start := FindTxid(s, u.txid, 0);
    if start < |s| && FindInsert(s, u, start) < |s| {
      InsertKeepsValid(s, u, FindInsert(s, u, start));
    } else {
      AppendKeepsValid(l, u);
    }
  }

  lemma TombstoneKeepsValid(l: UtxoList, i: nat)
    requires Valid(l) && i <= |l.slots|
    ensures Valid(l.(slots := Tombstone(l.slots, i)))
  {
    var s := Tombstone(l.slots, i);
    assert forall k :: 0 <= k < |s| ==> s[k].txid == l.slots[k].txid;
    assert forall k :: 0 <= k < |s| && k != i ==> s[k].vout == l.slots[k].vout;
  }

  // ---------------------------------------------------------------- the index agrees with a scan

  /** The indexed search, early stop included, lands on the very slot a full scan lands on. */
  lemma IndexedSearchIsLinear(l: UtxoList, t: TxId, v: int)
    requires Valid(l)
    ensures SpendSlot(l, t, v) == FindOutpoint(l.slots, t, v, 0)
  {
    var s := l.slots;
    var i := FindOutpoint(s, t, v, 0);
    if l.index != map[] && i < |s| {
      assert s[i].txid in l.index;
      var start := l.index[t];
      var j := FindVout(s, v, start);
      assert start == j || j == i || Between(start, j, i);
    }
  }

  // ---------------------------------------------------------------- whole runs

  datatype Op = AppendOp(u: Utxo) | RestoreOp(u: Utxo) | SpendOp(txid: TxId, vout: int)

  /** The same list kept without any index: every search is a scan from the first slot. */
  function ScanStep(s: seq<Utxo>, op: Op): seq<Utxo> {
    match op
    case AppendOp(u) => s + [u]
    case RestoreOp(u) =>
      var start := FindTxid(s, u.txid, 0);
      var i := if start < |s| then FindInsert(s, u, start) else |s|;
      s[..i] + [u] + s[i..]
    case SpendOp(t, v) => Tombstone(s, FindOutpoint(s, t, v, 0))
  }

  function ScanRun(s: seq<Utxo>, ops: seq<Op>): seq<Utxo>
    decreases |ops|
  {
    if ops == [] then s else ScanRun(ScanStep(s, ops[0]), ops[1..])
  }

  ghost predicate LegalStep(s: seq<Utxo>, op: Op) {
    match op
    case AppendOp(u) => CanAppend(s, u)
    case RestoreOp(u) => CanRestore(s, u)
    case SpendOp(_, _) => true
  }

  ghost predicate LegalRun(s: seq<Utxo>, ops: seq<Op>)
    decreases |ops|
  {
    ops != [] ==> LegalStep(s, ops[0]) && LegalRun(ScanStep(s, ops[0]), ops[1..])
  }

  function IndexedStep(l: UtxoList, op: Op): UtxoList {
    match op
    case AppendOp(u) => Append(l, u)
    case RestoreOp(u) => Restore(l, u)
    case SpendOp(t, v) => MarkSpent(l, t, v)
  }

  lemma StepRefinesScan(l: UtxoList, op: Op)
    requires Valid(l) && LegalStep(l.slots, op)
    ensures Valid(IndexedStep(l, op))
    ensures IndexedStep(l, op).slots == ScanStep(l.slots, op)
  {
    match op
    case AppendOp(u) => AppendKeepsValid(l, u);
    case RestoreOp(u) => GroupStartIsFirst(l, u.txid); RestoreKeepsValid(l, u);
    case SpendOp(t, v) => IndexedSearchIsLinear(l, t, v); TombstoneKeepsValid(l, SpendSlot(l, t, v));
  }

  function IndexedRun(l: UtxoList, ops: seq<Op>): UtxoList
    decreases |ops|
  {
    if ops == [] then l else IndexedRun(IndexedStep(l, ops[0]), ops[1..])
  }

  /** Over every legal run, the indexed list holds slot for slot what the index-free list holds. */
  lemma {:induction false} RunRefinesScan(l: UtxoList, ops: seq<Op>)
    requires Valid(l) && LegalRun(l.slots, ops)
    ensures Valid(IndexedRun(l, ops))
    ensures IndexedRun(l, ops).slots == ScanRun(l.slots, ops)
    decreases |ops|
  {
    if ops != [] {
      StepRefinesScan(l, ops[0]);
      RunRefinesScan(IndexedStep(l, ops[0]), ops[1..]);
    }
  }

  // ---------------------------------------------------------------- live outputs

  /** The slots that are not tombstones, in list order: what is written to the database. */
  function Live(s: seq<Utxo>): seq<Utxo> {
    if s == [] then []
    else Live(s[..|s| - 1]) + if s[|s| - 1].vout >= 0 then [s[|s| - 1]] else []
  }

  ghost function LiveSet(s: seq<Utxo>): set<Utxo> {
    set u | u in s && u.vout >= 0
  }

  /** Reading a stored list appends its outputs one by one. */
  function Load(stored: seq<Utxo>): UtxoList {
    if stored == [] then Empty else Append(Load(stored[..|stored| - 1]), stored[|stored| - 1])
  }

  /** What is left of a list after it was written and read back. */
  function Strip(l: UtxoList): UtxoList { Load(Live(l.slots)) }

  lemma {:induction false} LoadSlots(stored: seq<Utxo>)
    ensures Load(stored).slots == stored
  {
    if stored != [] {
      LoadSlots(stored[..|stored| - 1]);
    }
  }

  lemma {:induction false} LiveHasAll(s: seq<Utxo>, u: Utxo)
    ensures u in Live(s) <==> u in s && u.vout >= 0
  {
    if s != [] {
      LiveHasAll(s[..|s| - 1], u);
      assert s == s[..|s| - 1] + [s[|s| - 1]];
    }
  }

  lemma LiveFromSlots(s: seq<Utxo>)
    ensures forall i :: 0 <= i < |Live(s)| ==> Live(s)[i] in s && Live(s)[i].vout >= 0
  {
    forall i | 0 <= i < |Live(s)| ensures Live(s)[i] in s && Live(s)[i].vout >= 0 {
      LiveHasAll(s, Live(s)[i]);
    }
  }

  lemma LiveSetOfLive(s: seq<Utxo>)
    ensures LiveSet(Live(s)) == LiveSet(s)
  {
    forall u ensures u in LiveSet(Live(s)) <==> u in LiveSet(s) {
      LiveHasAll(s, u);
    }
  }

  lemma {:induction false} LiveOfLive(s: seq<Utxo>)
    requires forall i :: 0 <= i < |s| ==> s[i].vout >= 0
    ensures Live(s) == s
  {
    if s != [] {
      LiveOfLive(s[..|s| - 1]);
    }
  }

  /** Dropping tombstones loses neither contiguity nor order. */
  lemma {:induction false} LiveKeepsValid(s: seq<Utxo>)
    requires ValidSlots(s)
    ensures ValidSlots(Live(s))
  {
    if s != [] {
      var n := |s| - 1;
      var p, u := s[..n], s[n];
      PrefixKeepsValid(s, n);
      LiveKeepsValid(p);
      if u.vout >= 0 {
        LiveCanAppend(s);
        AppendKeepsValid(UtxoList(Live(p), map[]), u);
      }
    }
  }

  lemma PrefixKeepsValid(s: seq<Utxo>, n: nat)
    requires ValidSlots(s) && n <= |s|
    ensures ValidSlots(s[..n])
  {
    var p := s[..n];
    forall i, j, k | 0 <= i && Between(i, j, k) && k < |p| && p[i].txid == p[k].txid
      ensures p[j].txid == p[i].txid
    {
      assert Between(i, j, k) && s[i].txid == s[k].txid;
    }
  }

  /** A last live slot can be appended to the live part of what precedes it. */
  lemma LiveCanAppend(s: seq<Utxo>)
    requires ValidSlots(s) && s != [] && s[|s| - 1].vout >= 0
    ensures CanAppend(Live(s[..|s| - 1]), s[|s| - 1])
  {
    var r := Live(s[..|s| - 1]);
    forall i | 0 <= i < |r| && r[i].txid == s[|s| - 1].txid
      ensures r[i].vout < s[|s| - 1].vout && r[|r| - 1].txid == s[|s| - 1].txid
    {
      LiveHasAll(s[..|s| - 1], r[i]);
      LiveCanAppendAt(s, r[i]);
    }
  }

  lemma LiveCanAppendAt(s: seq<Utxo>, x: Utxo)
    requires ValidSlots(s) && s != []
    requires x in s[..|s| - 1] && x.vout >= 0 && s[|s| - 1].vout >= 0 && x.txid == s[|s| - 1].txid
    ensures x.vout < s[|s| - 1].vout
    ensures var r := Live(s[..|s| - 1]); r != [] && r[|r| - 1].txid == x.txid
  {
    var n := |s| - 1;
    var a :| 0 <= a < n && s[a] == x;
    forall k | a <= k < n ensures s[k].txid == x.txid {
      assert k == a || Between(a, k, n);
    }
    LiveTail(s[..n], a, x.txid);
  }

  /** If everything from a live slot on belongs to `t`, so does the last live slot. */
  lemma {:induction false} LiveTail(s: seq<Utxo>, a: nat, t: TxId)
    requires a < |s| && s[a].vout >= 0
    requires forall k :: a <= k < |s| ==> s[k].txid == t
    ensures Live(s) != [] && Live(s)[|Live(s)| - 1].txid == t
  {
    if s[|s| - 1].vout < 0 {
      LiveTail(s[..|s| - 1], a, t);
    }
  }

  lemma {:induction false} LoadIsValid(stored: seq<Utxo>)
    requires ValidSlots(stored) && (forall i :: 0 <= i < |stored| ==> stored[i].vout >= 0)
    ensures Valid(Load(stored))
  {
    if stored != [] {
      var n := |stored| - 1;
      PrefixKeepsValid(stored, n);
      LoadIsValid(stored[..n]);
      LoadSlots(stored[..n]);
      LiveOfLive(stored[..n]);
      LiveCanAppend(stored);
      AppendKeepsValid(Load(stored[..n]), stored[n]);
    }
  }

  lemma StripIsValid(l: UtxoList)
    requires Valid(l)
    ensures Valid(Strip(l)) && Strip(l).slots == Live(l.slots) && LiveSet(Strip(l).slots) == LiveSet(l.slots)
  {
    LiveKeepsValid(l.slots);
    LiveFromSlots(l.slots);
    LoadIsValid(Live(l.slots));
    LoadSlots(Live(l.slots));
    LiveSetOfLive(l.slots);
  }

  /** Stripping commutes with appending. */
  lemma StripAppend(l: UtxoList, u: Utxo)
    requires u.vout >= 0
    ensures Strip(Append(l, u)) == Append(Strip(l), u)
  {
    var s := l.slots + [u];
    assert s[..|s| - 1] == l.slots;
    var r := Live(s);
    assert r[..|r| - 1] == Live(l.slots);
  }

  lemma {:induction false} LiveConcat(a: seq<Utxo>, b: seq<Utxo>)
    ensures Live(a + b) == Live(a) + Live(b)
  {
    if b == [] {
      assert a + b == a;
    } else {
      LiveConcat(a, b[..|b| - 1]);
      assert (a + b)[..|a + b| - 1] == a + b[..|b| - 1];
    }
  }

  lemma LiveMiddle(a: seq<Utxo>, x: Utxo, b: seq<Utxo>)
    ensures Live(a + [x] + b) == Live(a) + (if x.vout >= 0 then [x] else []) + Live(b)
  {
    LiveConcat(a + [x], b);
    assert (a + [x])[..|a|] == a;
  }

  lemma TombstoneMiddle(a: seq<Utxo>, x: Utxo, b: seq<Utxo>)
    ensures Live(Tombstone(a + [x] + b, |a|)) == Live(a) + Live(b)
  {
    var y := x.(vout := -1);
    assert Tombstone(a + [x] + b, |a|) == a + [y] + b;
    LiveMiddle(a, y, b);
  }

  lemma FindMiddle(a: seq<Utxo>, x: Utxo, b: seq<Utxo>)
    requires forall k :: 0 <= k < |a| ==> !(a[k].txid == x.txid && a[k].vout == x.vout)
    ensures FindOutpoint(a + [x] + b, x.txid, x.vout, 0) == |a|
  {
    var s := a + [x] + b;
    assert s[|a|] == x;
    assert forall k :: 0 <= k < |a| ==> s[k] == a[k];
  }

  lemma LiveOfTombstone(s: seq<Utxo>, t: TxId, v: int)
    requires v >= 0
    ensures Live(Tombstone(s, FindOutpoint(s, t, v, 0)))
         == Live(Tombstone(Live(s), FindOutpoint(Live(s), t, v, 0)))
  {
    var i := FindOutpoint(s, t, v, 0);
    if i < |s| {
      var p, x, q := s[..i], s[i], s[i + 1..];
      var a, b := Live(p), Live(q);
      assert s == p + [x] + q;
      LiveMiddle(p, x, q);
      TombstoneMiddle(p, x, q);
      LiveFromSlots(p);
      LiveFromSlots(q);
      FindMiddle(a, x, b);
      TombstoneMiddle(a, x, b);
      LiveOfLive(a);
      LiveOfLive(b);
    } else {
      LiveFromSlots(s);
      LiveOfLive(Live(s));
    }
  }

  /** Stripping commutes with spending: tombstones left behind do not change what a spend hits. */
  lemma StripMarkSpent(l: UtxoList, t: TxId, v: int)
    requires Valid(l) && v >= 0
    ensures Valid(Strip(l))
    ensures Strip(MarkSpent(l, t, v)) == Strip(MarkSpent(Strip(l), t, v))
  {
    StripIsValid(l);
    IndexedSearchIsLinear(l, t, v);
    IndexedSearchIsLinear(Strip(l), t, v);
    LiveOfTombstone(l.slots, t, v);
  }

  // ---------------------------------------------------------------- effect on the live outputs

  lemma AppendLive(l: UtxoList, u: Utxo)
    requires u.vout >= 0
    ensures LiveSet(Append(l, u).slots) == LiveSet(l.slots) + {u}
  {
  }

  lemma InsertLive(s: seq<Utxo>, u: Utxo, i: nat)
    requires i <= |s| && u.vout >= 0
    ensures LiveSet(s[..i] + [u] + s[i..]) == LiveSet(s) + {u}
  {
    assert s == s[..i] + s[i..];
  }

  lemma RestoreLive(l: UtxoList, u: Utxo)
    requires u.vout >= 0
    ensures LiveSet(Restore(l, u).slots) == LiveSet(l.slots) + {u}
  {
    var start := GroupStart(l, u.txid);
    if start < |l.slots| && FindInsert(l.slots, u, start) < |l.slots| {
      InsertLive(l.slots, u, FindInsert(l.slots, u, start));
    } else {
      AppendLive(l, u);
    }
  }

  /** Spending an output that is in the list removes that output and no other. */
  lemma MarkSpentLive(l: UtxoList, u: Utxo)
    requires Valid(l) && u in LiveSet(l.slots)
    ensures LiveSet(MarkSpent(l, u.txid, u.vout).slots) == LiveSet(l.slots) - {u}
    ensures MarkSpent(l, u.txid, u.vout).slots == ScanStep(l.slots, SpendOp(u.txid, u.vout))
    ensures SpendSlot(l, u.txid, u.vout) < |l.slots|
  {
    var s := l.slots;
    IndexedSearchIsLinear(l, u.txid, u.vout);
    var i := FindOutpoint(s, u.txid, u.vout, 0);
    var k :| 0 <= k < |s| && s[k] == u;
    assert i <= k;
    var r := Tombstone(s, i);
    forall x ensures x in LiveSet(r) <==> x in LiveSet(s) - {u} {
      if x in LiveSet(r) {
        var a :| 0 <= a < |r| && r[a] == x;
        assert a != i && s[a] == x;
      }
      if x in LiveSet(s) && x != u {
        var a :| 0 <= a < |s| && s[a] == x;
        assert r[a] == x;
      }
    }
  }

  // ---------------------------------------------------------------- order by height

  /** Where a stable sort by height puts one more element: behind everything not higher. */
  function HeightPos(s: seq<Utxo>, h: nat, from: nat): (i: nat)
    requires from <= |s|
    ensures from <= i <= |s|
    ensures i < |s| ==> s[i].height > h
    ensures forall k :: from <= k < i ==> s[k].height <= h
    decreases |s| - from
  {
    if from == |s| || s[from].height > h then from else HeightPos(s, h, from + 1)
  }

  function InsertByHeight(r: seq<Utxo>, u: Utxo): seq<Utxo> {
    var i := HeightPos(r, u.height, 0);
    r[..i] + [u] + r[i..]
  }

  /** Stable sort by height, as done before a list is stored by a disconnect. */
  function SortByHeight(s: seq<Utxo>): seq<Utxo> {
    if s == [] then [] else InsertByHeight(SortByHeight(s[..|s| - 1]), s[|s| - 1])
  }

  ghost predicate SortedByHeight(s: seq<Utxo>) {
    forall i, j :: 0 <= i < j < |s| ==> s[i].height <= s[j].height
  }

  /** All outputs of a transaction carry the height of its block. */
  ghost predicate HeightsByTxid(s: seq<Utxo>) {
    forall x, y :: x in s && y in s && x.txid == y.txid ==> x.height == y.height
  }

  lemma InsertByHeightElements(r: seq<Utxo>, u: Utxo)
    ensures multiset(InsertByHeight(r, u)) == multiset(r) + multiset{u}
  {
    var i := HeightPos(r, u.height, 0);
    assert r == r[..i] + r[i..];
  }

  lemma {:induction false} SortIsPermutation(s: seq<Utxo>)
    ensures multiset(SortByHeight(s)) == multiset(s)
  {
    if s != [] {
      SortIsPermutation(s[..|s| - 1]);
      InsertByHeightElements(SortByHeight(s[..|s| - 1]), s[|s| - 1]);
      assert s == s[..|s| - 1] + [s[|s| - 1]];
    }
  }

  /** The elements of one height, in order. */
  function AtHeight(s: seq<Utxo>, h: nat): seq<Utxo> {
    if s == [] then [] else AtHeight(s[..|s| - 1], h) + if s[|s| - 1].height == h then [s[|s| - 1]] else []
  }

  lemma {:induction false} AtHeightConcat(a: seq<Utxo>, b: seq<Utxo>, h: nat)
    ensures AtHeight(a + b, h) == AtHeight(a, h) + AtHeight(b, h)
  {
    if b == [] {
      assert a + b == a;
    } else {
      assert (a + b)[..|a| + |b| - 1] == a + b[..|b| - 1];
      AtHeightConcat(a, b[..|b| - 1], h);
    }
  }

  lemma {:induction false} NoneAtHeight(s: seq<Utxo>, h: nat)
    requires forall i :: 0 <= i < |s| ==> s[i].height != h
    ensures AtHeight(s, h) == []
  {
    if s != [] { NoneAtHeight(s[..|s| - 1], h); }
  }

  lemma StableParts(x: seq<Utxo>, y: seq<Utxo>, u: Utxo, h: nat)
    requires forall i :: 0 <= i < |y| ==> y[i].height > u.height
    ensures AtHeight(x + [u] + y, h) == AtHeight(x + y, h) + if u.height == h then [u] else []
  {
    hide AtHeight;
    AtHeightConcat(x, y, h);
    AtHeightConcat(x + [u], y, h);
    AtHeightConcat(x, [u], h);
    OneAtHeight(u, h);
    if u.height == h {
      NoneAtHeight(y, h);
      NothingBehind(AtHeight(x, h), u);
    } else {
      NothingBehind(AtHeight(x, h), u);
      NothingBehind(AtHeight(x, h) + AtHeight(y, h), u);
    }
  }

  lemma NothingBehind(x: seq<Utxo>, u: Utxo)
    ensures x + [] == x && x + [u] + [] == x + [u]
  {
  }

  /** One more element comes behind those of its height. */
  lemma InsertIsStable(r: seq<Utxo>, u: Utxo, h: nat)
    requires SortedByHeight(r)
    ensures AtHeight(InsertByHeight(r, u), h) == AtHeight(r, h) + if u.height == h then [u] else []
  {
    hide AtHeight, HeightPos;
    var i := HeightPos(r, u.height, 0);
    StableParts(r[..i], r[i..], u, h);
    assert r[..i] + r[i..] == r;
  }

  lemma OneAtHeight(u: Utxo, h: nat)
    ensures AtHeight([u], h) == if u.height == h then [u] else []
  {
    assert [u][..0] == [];
  }

  /** Sorting keeps the order of what has the same height. */
  lemma {:induction false} SortIsStable(s: seq<Utxo>, h: nat)
    ensures AtHeight(SortByHeight(s), h) == AtHeight(s, h)
  {
    if s != [] {
      var n := |s| - 1;
      SortIsStable(s[..n], h);
      SortSorts(s[..n]);
      hide InsertByHeight;
      InsertIsStable(SortByHeight(s[..n]), s[n], h);
    }
  }

  lemma SortSameElements(s: seq<Utxo>)
    ensures LiveSet(SortByHeight(s)) == LiveSet(s)
    ensures forall u :: u in SortByHeight(s) <==> u in s
  {
    SortIsPermutation(s);
    forall u ensures u in SortByHeight(s) <==> u in s {
      assert u in multiset(SortByHeight(s)) <==> u in multiset(s);
    }
  }

  lemma InsertedAt(r: seq<Utxo>, u: Utxo, i: nat, q: seq<Utxo>)
    requires i <= |r| && q == r[..i] + [u] + r[i..]
    ensures |q| == |r| + 1 && q[i] == u
    ensures forall k :: 0 <= k < |q| ==> q[k] == if k < i then r[k] else if k == i then u else r[k - 1]
  {
  }

  lemma InsertByHeightSorts(r: seq<Utxo>, u: Utxo)
    requires SortedByHeight(r)
    ensures SortedByHeight(InsertByHeight(r, u))
    // the element put in is the last one of its height
    ensures var q := InsertByHeight(r, u);
            var i := HeightPos(q, u.height, 0);
            i > 0 && q[i - 1] == u
  {
    hide HeightPos;
    var i := HeightPos(r, u.height, 0);
    var q := InsertByHeight(r, u);
    InsertedAt(r, u, i, q);
    var j := HeightPos(q, u.height, 0);
    assert i < |r| ==> q[i + 1] == r[i];
    assert j == i + 1;
  }

  lemma {:induction false} SortSorts(s: seq<Utxo>)
    ensures SortedByHeight(SortByHeight(s))
    ensures s != [] ==> var r, u := SortByHeight(s), s[|s| - 1];
                        var i := HeightPos(r, u.height, 0);
                        i > 0 && r[i - 1] == u
  {
    if s != [] {
      SortSorts(s[..|s| - 1]);
      InsertByHeightSorts(SortByHeight(s[..|s| - 1]), s[|s| - 1]);
    }
  }

  /** Sorting by height moves whole transactions: groups stay together and keep their order. */
  lemma {:induction false} SortKeepsValid(s: seq<Utxo>)
    requires ValidSlots(s) && HeightsByTxid(s)
    ensures ValidSlots(SortByHeight(s))
  {
    if s != [] {
      var p, u := s[..|s| - 1], s[|s| - 1];
      PrefixKeepsValid(s, |s| - 1);
      SortKeepsValid(p);
      SortSameElements(p);
      SortSorts(p);
      LastGroups(s);
      InsertByHeightKeeps(SortByHeight(p), u);
    }
  }

  lemma LastGroups(s: seq<Utxo>)
    requires ValidSlots(s) && HeightsByTxid(s) && s != []
    ensures var u := s[|s| - 1];
            forall x :: x in s[..|s| - 1] && x.txid == u.txid ==>
              && x.height == u.height
              && (|s| > 1 && s[|s| - 2].txid == u.txid && s[|s| - 2].height == u.height)
              && (x.vout >= 0 && u.vout >= 0 ==> x.vout < u.vout)
  {
    forall x | x in s[..|s| - 1] && x.txid == s[|s| - 1].txid
      ensures x.height == s[|s| - 1].height
      ensures |s| > 1 && s[|s| - 2].txid == x.txid && s[|s| - 2].height == x.height
      ensures x.vout >= 0 && s[|s| - 1].vout >= 0 ==> x.vout < s[|s| - 1].vout
    {
      LastGroup(s, x);
      assert s[|s| - 2] in s;
    }
  }

  lemma LastGroup(s: seq<Utxo>, x: Utxo)
    requires ValidSlots(s) && HeightsByTxid(s) && s != [] && x in s[..|s| - 1] && x.txid == s[|s| - 1].txid
    ensures x.height == s[|s| - 1].height
    ensures |s| > 1 && s[|s| - 2].txid == x.txid
    ensures x.vout >= 0 && s[|s| - 1].vout >= 0 ==> x.vout < s[|s| - 1].vout
  {
    var n := |s| - 1;
    var a :| 0 <= a < n && s[a] == x;
    assert a == n - 1 || Between(a, n - 1, n);
  }

  /** Behind the place of a height only other transactions follow, and the place does not split a transaction. */
  lemma PlaceByHeight(r: seq<Utxo>, u: Utxo)
    requires SortedByHeight(r) && HeightsByTxid(r) && forall x :: x in r && x.txid == u.txid ==> x.height == u.height
    ensures var i := HeightPos(r, u.height, 0);
            && (forall k :: i <= k < |r| ==> r[k].txid != u.txid)
            && (0 < i < |r| ==> r[i - 1].txid != r[i].txid)
  {
    hide HeightPos;
    var i := HeightPos(r, u.height, 0);
    forall k | i <= k < |r| ensures r[k].txid != u.txid {
      assert r[i].height <= r[k].height;
      assert r[k] in r;
    }
    if 0 < i < |r| {
      var x, y := r[i - 1], r[i];
      assert x in r && y in r && x.height <= u.height < y.height;
    }
  }

  lemma InsertByHeightKeeps(r: seq<Utxo>, u: Utxo)
    requires ValidSlots(r) && SortedByHeight(r) && HeightsByTxid(r) && u.vout >= -1
    requires forall x :: x in r && x.txid == u.txid ==>
               && x.height == u.height
               && (x.vout >= 0 && u.vout >= 0 ==> x.vout < u.vout)
    requires (exists x :: x in r && x.txid == u.txid) ==>
               var i := HeightPos(r, u.height, 0); i > 0 && r[i - 1].txid == u.txid
    ensures ValidSlots(InsertByHeight(r, u))
  {
    hide Contiguous, LiveAscending, SortedByHeight, HeightsByTxid;
    var i := HeightPos(r, u.height, 0);
    PlaceByHeight(r, u);
    assert forall k :: 0 <= k < |r| ==> r[k] in r;
    InsertKeepsContiguous(r, u, i);
    InsertLastKeepsAscending(r, u, i);
  }

  lemma InsertLastKeepsAscending(r: seq<Utxo>, u: Utxo, i: nat)
    requires LiveAscending(r) && i <= |r|
    requires forall k :: 0 <= k < |r| && r[k].txid == u.txid && r[k].vout >= 0 && u.vout >= 0 ==> r[k].vout < u.vout
    requires forall k :: i <= k < |r| ==> r[k].txid != u.txid
    ensures LiveAscending(r[..i] + [u] + r[i..])
  {
    var q := r[..i] + [u] + r[i..];
    forall a, b | 0 <= a < b < |q| && q[a].txid == q[b].txid && q[a].vout >= 0 && q[b].vout >= 0
      ensures q[a].vout < q[b].vout
    {
      var pa, pb := if a <= i then a else a - 1, if b <= i then b else b - 1;
      assert a != i ==> q[a] == r[pa];
      assert b != i ==> q[b] == r[pb];
    }
  }
}
