// Protocol marks of contracts: a row by contract that is read, and a row by height through which a
// disconnect finds the marks that were set in the disconnected range.
module ErcProtocols {
  import opened Types
  import opened Vlq
  import opened Keys

  const BY_CONTRACT: byte := 0x00
  const BY_HEIGHT: byte := 0x01

  datatype Slot = Slot(id: byte, addr: seq<byte>)
  datatype Mark = Mark(height: nat, payload: seq<byte>)
  type Marks = map<Slot, Mark>
  type Rows = map<seq<byte>, seq<byte>>

  function ContractKey(s: Slot): seq<byte> { [BY_CONTRACT, s.id] + s.addr }

  function HeightKey(s: Slot, h: nat): seq<byte> { [BY_HEIGHT, s.id] + (PackUint(h) + s.addr) }

  function PackValue(m: Mark): seq<byte> { PutUint(m.height) + m.payload }

  /** unpackErcProtocolValue */
  function UnpackValue(buf: seq<byte>): Option<Mark> {
    var h := Uint(buf, 0);
    if h.Short? then None else Some(Mark(h.value % U32, buf[h.at..]))
  }

  lemma ValueRead(m: Mark)
    requires m.height < U32
    ensures UnpackValue(PackValue(m)) == Some(m) && PackValue(m) != []
  {
    var e := PutUint(m.height);
    assert At(PackValue(m), 0, e);
    UintRead(PackValue(m), 0, m.height);
    assert PackValue(m)[|e|..] == m.payload;
  }

  // ---------------------------------------------------------------- rows and marks

  ghost predicate MarksOk(m: Marks) { forall s :: s in m ==> |s.addr| > 0 && 0 < m[s].height < U32 }

  /** The slot a row belongs to, by contract or by height. */
  function SlotOfContract(k: seq<byte>): Slot
    requires |k| >= 2
  {
    Slot(k[1], k[2..])
  }

  function SlotOfHeight(k: seq<byte>): Slot
    requires |k| >= 6
  {
    Slot(k[1], k[6..])
  }

  predicate IsContractKey(k: seq<byte>, m: Marks) { |k| > 2 && k[0] == BY_CONTRACT && SlotOfContract(k) in m }

  predicate IsHeightKey(k: seq<byte>, m: Marks) {
    |k| > 6 && k[0] == BY_HEIGHT && SlotOfHeight(k) in m && k == HeightKey(SlotOfHeight(k), m[SlotOfHeight(k)].height)
  }

  /** Each mark has its row by contract and its row by height, and there are no other rows. */
  ghost predicate Represents(rows: Rows, m: Marks) {
    && MarksOk(m)
    && (forall k :: k in rows <==> IsContractKey(k, m) || IsHeightKey(k, m))
    && (forall k :: k in rows && IsContractKey(k, m) ==> rows[k] == PackValue(m[SlotOfContract(k)]))
  }

  lemma KeysRead(s: Slot, h: nat)
    requires h < U32
    ensures |ContractKey(s)| == 2 + |s.addr| && SlotOfContract(ContractKey(s)) == s && ContractKey(s)[0] == BY_CONTRACT
    ensures |HeightKey(s, h)| == 6 + |s.addr| && SlotOfHeight(HeightKey(s, h)) == s && HeightKey(s, h)[0] == BY_HEIGHT
    ensures HeightKey(s, h)[2..6] == PackUint(h)
  {
    UintOrder(h, h);
    assert ContractKey(s)[2..] == s.addr;
    assert HeightKey(s, h)[6..] == s.addr;
  }

  lemma KeyIsSlots(k: seq<byte>)
    ensures |k| > 2 && k[0] == BY_CONTRACT ==> k == ContractKey(SlotOfContract(k))
  {
    if |k| > 2 { assert k == [k[0], k[1]] + k[2..]; }
  }

  // ---------------------------------------------------------------- setting a mark

  /** The rows after a mark was put into a free slot. */
  lemma PutRepresents(rows: Rows, m: Marks, s: Slot, mark: Mark)
    requires Represents(rows, m) && s !in m && |s.addr| > 0 && 0 < mark.height < U32
    ensures Represents(rows[ContractKey(s) := PackValue(mark)][HeightKey(s, mark.height) := []], m[s := mark])
  {
    KeysRead(s, mark.height);
    var ck, hk, m' := ContractKey(s), HeightKey(s, mark.height), m[s := mark];
    forall k ensures IsContractKey(k, m') || IsHeightKey(k, m') <==> k in rows || k == ck || k == hk {
      KeyIsSlots(k);
    }
  }

  // ---------------------------------------------------------------- the range of a disconnect

  predicate InRange(k: seq<byte>, start: seq<byte>, end: seq<byte>) { !Less(k, start) && Less(k, end) }

  function RangeKey(id: byte, h: nat): seq<byte> { [BY_HEIGHT, id] + PackUint(h) }

  /** Rows by height compare with the ends of a range by id and height. */
  lemma HeightKeyOrder(s: Slot, h: nat, id: byte, x: nat)
    requires h < U32 && x < U32
    ensures Less(HeightKey(s, h), RangeKey(id, x)) <==> s.id < id || (s.id == id && h < x)
  {
    var a, b := PackUint(h), PackUint(x);
    assert HeightKey(s, h) == [BY_HEIGHT, s.id] + (a + s.addr);
    UintOrder(h, x);
    UintOrder(x, h);
    if s.id != id {
      LessBefore([BY_HEIGHT, s.id], [BY_HEIGHT, id], a + s.addr, b);
      LessPair(s.id, id);
    } else {
      LessAfter([BY_HEIGHT, id], a + s.addr, b);
      if h == x {
        assert b == b + [];
        LessAfter(b, s.addr, []);
      } else {
        if a == b { assert false; }
        assert b == b + [];
        LessBefore(a, b, s.addr, []);
      }
    }
  }

  lemma LessPair(x: byte, y: byte)
    ensures Less([BY_HEIGHT, x], [BY_HEIGHT, y]) <==> x < y
  {
    LessAfter([BY_HEIGHT], [x], [y]);
    assert [BY_HEIGHT, x] == [BY_HEIGHT] + [x] && [BY_HEIGHT, y] == [BY_HEIGHT] + [y];
    assert [x][1..] == [] && !Less([], []);
  }

  /** The rows between the ends of a range are the rows by height of that id set within it. */
  lemma RangeIsHeights(rows: Rows, m: Marks, k: seq<byte>, id: byte, lower: nat, higher: nat)
    requires Represents(rows, m) && k in rows && lower < U32 && higher + 1 < U32
    ensures InRange(k, RangeKey(id, lower), RangeKey(id, higher + 1))
       <==> IsHeightKey(k, m) && k[1] == id && lower <= m[SlotOfHeight(k)].height <= higher
  {
    hide Less;
    if IsHeightKey(k, m) {
      var s := SlotOfHeight(k);
      HeightKeyOrder(s, m[s].height, id, lower);
      HeightKeyOrder(s, m[s].height, id, higher + 1);
    } else {
      ContractFirst(k, RangeKey(id, lower));
    }
  }

  lemma ContractFirst(k: seq<byte>, r: seq<byte>)
    requires |k| > 0 && |r| > 0 && k[0] == BY_CONTRACT && r[0] == BY_HEIGHT
    ensures Less(k, r)
  {
  }

  predicate Hit(s: Slot, mark: Mark, id: byte, lower: nat, higher: nat) { s.id == id && lower <= mark.height <= higher }

  /** The marks a disconnect of [lower, higher] leaves. */
  function Remaining(m: Marks, id: byte, lower: nat, higher: nat): Marks {
    map s | s in m && !Hit(s, m[s], id, lower, higher) :: m[s]
  }

  /** The rows of the marks set in the range. */
  function Gone(rows: Rows, start: seq<byte>, end: seq<byte>, id: byte): set<seq<byte>> {
    (set k | k in rows && InRange(k, start, end) && |k| > 6)
    + (set k | k in rows && InRange(k, start, end) && |k| > 6 :: ContractKey(Slot(id, k[6..])))
  }

  /** Which rows go: both rows of every mark in the range. */
  lemma GoneRows(rows: Rows, m: Marks, k: seq<byte>, id: byte, lower: nat, higher: nat)
    requires Represents(rows, m) && k in rows && lower < U32 && higher + 1 < U32
    ensures IsHeightKey(k, m) ==>
              (k in Gone(rows, RangeKey(id, lower), RangeKey(id, higher + 1), id)
               <==> Hit(SlotOfHeight(k), m[SlotOfHeight(k)], id, lower, higher))
    ensures IsContractKey(k, m) ==>
              (k in Gone(rows, RangeKey(id, lower), RangeKey(id, higher + 1), id)
               <==> Hit(SlotOfContract(k), m[SlotOfContract(k)], id, lower, higher))
  {
    var start, end := RangeKey(id, lower), RangeKey(id, higher + 1);
    hide InRange, Less, RangeKey;
    forall x | x in rows
      ensures InRange(x, start, end)
              <==> IsHeightKey(x, m) && x[1] == id && lower <= m[SlotOfHeight(x)].height <= higher
    {
      RangeIsHeights(rows, m, x, id, lower, higher);
    }
    if IsContractKey(k, m) {
      var s := SlotOfContract(k);
      KeyIsSlots(k);
      KeysRead(s, m[s].height);
      var hk := HeightKey(s, m[s].height);
      assert IsHeightKey(hk, m) && hk in rows;
      if Hit(s, m[s], id, lower, higher) { assert ContractKey(Slot(id, hk[6..])) == k; }
      if k in Gone(rows, start, end, id) {
        var x :| x in rows && InRange(x, start, end) && |x| > 6 && ContractKey(Slot(id, x[6..])) == k;
        KeysRead(Slot(id, x[6..]), 0);
      }
    }
  }

  lemma RemoveRepresents(rows: Rows, m: Marks, id: byte, lower: nat, higher: nat)
    requires Represents(rows, m) && lower < U32 && higher + 1 < U32
    ensures Represents(rows - Gone(rows, RangeKey(id, lower), RangeKey(id, higher + 1), id),
            Remaining(m, id, lower, higher))
  {
    hide Gone, RangeKey, HeightKey, Hit, PackValue;
    var gone := Gone(rows, RangeKey(id, lower), RangeKey(id, higher + 1), id);
    forall k | k in rows
      ensures k in gone <==> (if IsHeightKey(k, m) then Hit(SlotOfHeight(k), m[SlotOfHeight(k)], id, lower, higher)
                              else Hit(SlotOfContract(k), m[SlotOfContract(k)], id, lower, higher))
    {
      GoneRows(rows, m, k, id, lower, higher);
    }
  }

  /** With the highest height the end of the range wraps to 0 and nothing is found. */
  lemma WrappedRangeIsEmpty(rows: Rows, id: byte, lower: nat)
    requires lower < U32
    ensures Gone(rows, RangeKey(id, lower), RangeKey(id, 0), id) == {}
  {
    forall k ensures !InRange(k, RangeKey(id, lower), RangeKey(id, 0)) {
      var a, b := RangeKey(id, lower), RangeKey(id, 0);
      LessAfter([BY_HEIGHT, id], PackUint(lower), PackUint(0));
      UintOrder(lower, 0);
      LessTotal(a, b);
      if Less(k, b) && Less(b, a) { LessTrans(k, b, a); }
    }
  }

  // ---------------------------------------------------------------- the column

  /** What a request saw before it asked the node: the hash at the height, empty if it did not look, and the reorg
      counter. */
  datatype Observed = Observed(hash: string, reorgGen: nat)

  class Protocols {
    var rows: Rows
    var protocolGen: nat
    var reorgGen: nat
    ghost var marks: Marks

    ghost predicate Valid()
      reads this
    {
      Represents(rows, marks)
    }

    constructor ()
      ensures Valid() && marks == map[] && protocolGen == 0 && reorgGen == 0
    {
      rows, protocolGen, reorgGen, marks := map[], 0, 0, map[];
    }

    /** SetErcProtocol: a slot is filled once, and only if no reorg came in between. */
    method Set(s: Slot, mark: Mark, seen: Observed, currentHash: string) returns (wrote: bool)
      requires Valid() && mark.height < U32
      modifies this`rows, this`protocolGen, this`marks
      ensures Valid()
      ensures wrote <==> |s.addr| > 0 && mark.height > 0 && reorgGen == seen.reorgGen
                         && (seen.hash == "" || seen.hash == currentHash) && s !in old(marks)
      ensures marks == if wrote then old(marks)[s := mark] else old(marks)
      ensures protocolGen == old(protocolGen) + if wrote then 1 else 0
    {
      if |s.addr| == 0 || mark.height == 0 {
        return false;
      }
      if reorgGen != seen.reorgGen || (seen.hash != "" && currentHash != seen.hash) {
        return false;
      }
      KeysRead(s, mark.height);
      var key := ContractKey(s);
      if s in marks { ValueRead(marks[s]); }
      assert s in marks <==> IsContractKey(key, marks);
      if key in rows && rows[key] != [] && UnpackValue(rows[key]).Some? {
        return false;
      }
      PutRepresents(rows, marks, s, mark);
      hide Represents;
      rows := rows[key := PackValue(mark)][HeightKey(s, mark.height) := []];
      marks := marks[s := mark];
      protocolGen := protocolGen + 1;
      return true;
    }

    /** GetErcProtocol */
    method Get(s: Slot) returns (r: Option<Mark>)
      requires Valid()
      ensures r == if s in marks then Some(marks[s]) else None
    {
      if |s.addr| == 0 {
        return None;
      }
      KeysRead(s, 0);
      var key := ContractKey(s);
      if key !in rows || rows[key] == [] {
        if s in marks { ValueRead(marks[s]); assert IsContractKey(key, marks); }
        return None;
      }
      assert IsContractKey(key, marks);
      ValueRead(marks[s]);
      return UnpackValue(rows[key]);
    }

    /** The rows in the range, found by walking the keys upwards from its start. */
    method Collect(start: seq<byte>, end: seq<byte>, id: byte) returns (gone: set<seq<byte>>)
      ensures gone == Gone(rows, start, end, id)
    {
      hide Less;
      gone := {};
      var todo := set k | k in rows && !Less(k, start);
      ghost var all := todo;
      while todo != {}
        invariant todo <= all && (forall k :: k in all && k !in todo ==> InRange(k, start, end))
        invariant gone == Picked(all - todo, id)
      {
        SmallestExists(todo);
        var key :| key in todo && forall x :: x in todo ==> !Less(x, key);
        if !Less(key, end) {
          forall x | x in todo ensures !Less(x, end) { NotBefore(x, key, end); }
          break;
        }
        PickOne(all - todo, key, id);
        assert all - (todo - {key}) == (all - todo) + {key};
        todo := todo - {key};
        if |key| > 6 {
          gone := gone + {key, ContractKey(Slot(id, key[6..]))};
        }
      }
      assert all - todo == set k | k in rows && InRange(k, start, end);
    }

    /** A disconnect of [lower, higher] removes exactly the marks of `id` set in that range, unless `higher` is the
        highest height there is: then it removes none. */
    method DisconnectRange(id: byte, lower: nat, higher: nat)
      requires Valid() && lower <= higher < U32
      modifies this`rows, this`marks
      ensures Valid()
      ensures marks == Left(old(marks), id, lower, higher)
    {
      hide Represents, Gone, RangeKey, Remaining;
      var end := (higher + 1) % U32;
      var gone := Collect(RangeKey(id, lower), RangeKey(id, end), id);
      if higher + 1 < U32 {
        RemoveRepresents(rows, marks, id, lower, higher);
        marks := Remaining(marks, id, lower, higher);
      } else {
        WrappedRangeIsEmpty(rows, id, lower);
        assert rows - {} == rows;
      }
      rows := rows - gone;
    }
  }

  /** Both rows of each mark among `ks`. */
  function Picked(ks: set<seq<byte>>, id: byte): set<seq<byte>> {
    (set k | k in ks && |k| > 6) + (set k | k in ks && |k| > 6 :: ContractKey(Slot(id, k[6..])))
  }

  lemma PickOne(ks: set<seq<byte>>, key: seq<byte>, id: byte)
    ensures Picked(ks + {key}, id) == Picked(ks, id) + if |key| > 6 then {key, ContractKey(Slot(id, key[6..]))} else {}
  {
  }

  lemma NotBefore(x: seq<byte>, key: seq<byte>, end: seq<byte>)
    requires !Less(x, key) && !Less(key, end)
    ensures !Less(x, end)
  {
    LessTotal(x, key);
    LessTotal(key, end);
    if Less(x, end) && Less(key, x) { LessTrans(key, x, end); }
    if Less(x, end) && Less(end, key) { LessTrans(x, end, key); }
  }

  lemma {:induction false} SmallestExists(ks: set<seq<byte>>)
    requires ks != {}
    ensures exists key :: key in ks && forall x :: x in ks ==> !Less(x, key)
    decreases ks
  {
    hide Less;
    var k :| k in ks;
    LessTotal(k, k);
    if ks != {k} {
      SmallestExists(ks - {k});
      var m :| m in ks - {k} && forall x :: x in ks - {k} ==> !Less(x, m);
      LessTotal(k, m);
      if Less(k, m) {
        forall x | x in ks ensures !Less(x, k) {
          if Less(x, k) && x != k { LessTrans(x, k, m); }
        }
        assert k in ks && forall x :: x in ks ==> !Less(x, k);
      } else {
        assert m in ks && forall x :: x in ks ==> !Less(x, m);
      }
    }
  }

  /** What a disconnect leaves. */
  function Left(m: Marks, id: byte, lower: nat, higher: nat): Marks {
    if higher + 1 < U32 then Remaining(m, id, lower, higher) else m
  }

  /** It is what should remain exactly when the range stops below the highest height or no mark was set in it. */
  lemma ExactUnlessHighest(m: Marks, id: byte, lower: nat, higher: nat)
    requires lower <= higher < U32
    ensures Left(m, id, lower, higher) == Remaining(m, id, lower, higher)
       <==> higher < U32 - 1 || forall s :: s in m ==> !Hit(s, m[s], id, lower, higher)
  {
    var r := Remaining(m, id, lower, higher);
    if higher == U32 - 1 && exists s :: s in m && Hit(s, m[s], id, lower, higher) {
      var s :| s in m && Hit(s, m[s], id, lower, higher);
      assert s !in r;
    } else if higher == U32 - 1 {
      assert r == m;
    }
  }

  /** A mark set at the highest height stays when that height is disconnected. */
  lemma HighestHeightStays(id: byte, addr: seq<byte>, payload: seq<byte>)
    requires |addr| > 0
    ensures var s := Slot(id, addr);
            var m := map[s := Mark(U32 - 1, payload)];
            MarksOk(m) && s in Left(m, id, U32 - 1, U32 - 1) && s !in Remaining(m, id, U32 - 1, U32 - 1)
  {
  }
}
