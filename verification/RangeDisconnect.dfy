// Disconnecting a range of blocks: the records are read first, then the blocks go from the highest down.
module RangeDisconnect {
  import opened Types
  import opened LedgerModel
  import opened LedgerInvariant
  import opened LedgerUndo
  import opened LedgerRuns
  import opened Reversal

  /** There are records to disconnect the block at `h` with. */
  predicate Recorded(l: Ledger, h: nat) { h in l.blockTxs && l.blockTxs[h] != [] }

  ghost predicate AllRecorded(l: Ledger, lower: nat, higher: nat) {
    forall h :: lower <= h <= higher ==> Recorded(l, h)
  }

  /** The blocks above `down` up to `higher` taken out, the highest first. */
  ghost function Down(l: Ledger, down: int, higher: int): Ledger
    requires -1 <= down
    decreases higher - down
  {
    if higher <= down then l
    else
      var above := Down(l, down + 1, higher);
      match Disconnect(above, down + 1)
      case None => above
      case Some(l') => l'
  }

  // ---------------------------------------------------------------- the records of other blocks stay

  lemma InputKeepsRecords(d: Undo, bt: BlockTx, ta: TxAddresses, i: nat)
    requires i < |ta.inputs|
    ensures UndoInput(d, bt, ta, i).l.blockTxs == d.l.blockTxs
  {
  }

  lemma OutputKeepsRecords(d: Undo, t: TxId, ta: TxAddresses, i: nat)
    requires i < |ta.outputs|
    ensures UndoOutput(d, t, ta, i).l.blockTxs == d.l.blockTxs
  {
  }

  lemma {:induction false} InputsKeepRecords(l: Ledger, bts: seq<BlockTx>, j: nat, i: nat)
    requires j < |bts| && i <= |StoredTx(l, bts[j].txid).inputs|
    ensures UndoInputsAt(l, bts, j, i).l.blockTxs == l.blockTxs
    decreases j, i
  {
    if i > 0 {
      InputsKeepRecords(l, bts, j, i - 1);
      InputKeepsRecords(UndoInputsAt(l, bts, j, i - 1), bts[j], StoredTx(l, bts[j].txid), i - 1);
    } else if j > 0 {
      InputsKeepRecords(l, bts, j - 1, |StoredTx(l, bts[j - 1].txid).inputs|);
    }
  }

  lemma {:induction false} OutputsKeepRecords(l: Ledger, bts: seq<BlockTx>, j: nat, i: nat)
    requires j < |bts| && i <= |StoredTx(l, bts[j].txid).outputs|
    ensures UndoOutputsAt(l, bts, j, i).l.blockTxs == l.blockTxs
    decreases j, i
  {
    if i > 0 {
      OutputsKeepRecords(l, bts, j, i - 1);
      OutputKeepsRecords(UndoOutputsAt(l, bts, j, i - 1), bts[j].txid, StoredTx(l, bts[j].txid), i - 1);
    } else if j > 0 {
      OutputsKeepRecords(l, bts, j - 1, |StoredTx(l, bts[j - 1].txid).outputs|);
    } else {
      InputsKeepRecords(l, bts, |bts| - 1, |StoredTx(l, bts[|bts| - 1].txid).inputs|);
    }
  }

  /** A disconnect removes the record of its block and no other. */
  lemma DisconnectKeepsRecords(l: Ledger, h: nat)
    ensures Disconnect(l, h).Some? <==> Recorded(l, h)
    ensures Recorded(l, h) ==> Disconnect(l, h).value.blockTxs == l.blockTxs - {h}
  {
    if Recorded(l, h) {
      var bts := l.blockTxs[h];
      OutputsKeepRecords(l, bts, |bts| - 1, |StoredTx(l, bts[|bts| - 1].txid).outputs|);
    }
  }

  lemma {:induction false} DownRecords(l: Ledger, down: int, higher: int, h: nat)
    requires -1 <= down && h <= down
    ensures Recorded(Down(l, down, higher), h) <==> Recorded(l, h)
    ensures Recorded(l, h) ==> Down(l, down, higher).blockTxs[h] == l.blockTxs[h]
    decreases higher - down
  {
    hide Disconnect;
    if down < higher {
      DownRecords(l, down + 1, higher, h);
      DisconnectKeepsRecords(Down(l, down + 1, higher), down + 1);
    }
  }

  lemma DownNone(l: Ledger, down: int, higher: int)
    requires -1 <= down
    ensures higher <= down ==> Down(l, down, higher) == l
  {
  }

  /** With all records there, one more block goes with the record read before the first went. */
  lemma DownStep(l: Ledger, h: nat, higher: nat)
    requires h <= higher && Recorded(l, h)
    ensures var above, bts := Down(l, h, higher), l.blockTxs[h];
            Down(l, h - 1, higher) == Finish(UndoOutputsDone(above, bts, |bts|), bts, h)
  {
    DownRecords(l, h, higher, h);
  }

  // ---------------------------------------------------------------- the loops

  datatype Outcome =
    | Done
    | Refused     // a block of the range has no record
    | Wrapped     // a height was counted past the end of its 32 bits and its record looked up out of range

  /** Unsigned 32-bit subtraction. */
  function Less32(x: int, y: int): nat { (x - y) % U32 }

  /** When a range that ends at the highest height is refused: it goes on to look for a record at height 0. */
  ghost predicate RefusedAtEnd(l: Ledger, lower: nat) {
    !Recorded(l, 0) || (lower > 0 && !AllRecorded(l, lower, U32 - 1))
  }

  /** A range is disconnected all or not at all: below the highest height it is refused, and nothing changes, exactly
      when a record is missing. A range from height 0 is taken out as well, but its loop runs on below 0. A range up to
      the highest height is never taken out. */
  method DisconnectBlockRange(db: Ledger, lower: nat, higher: nat) returns (l: Ledger, outcome: Outcome)
    requires lower < U32 && higher < U32
    ensures higher < U32 - 1 ==> (outcome == Refused <==> !AllRecorded(db, lower, higher))
    ensures higher < U32 - 1 ==> l == if outcome == Refused then db else Down(db, lower - 1, higher)
    ensures higher < U32 - 1 ==> (outcome == Wrapped <==> AllRecorded(db, lower, higher) && lower == 0)
    ensures higher == U32 - 1 ==> l == db && outcome == if RefusedAtEnd(db, lower) then Refused else Wrapped
  {
    hide Down, Finish, UndoOutputsDone;
    l := db;
    var n := Less32(higher + 1, lower);
    Places(lower, higher);
    var blocks: seq<seq<BlockTx>> := [];
    var height := lower;
    while height <= higher
      invariant height == (lower + |blocks|) % U32 && lower + |blocks| <= U32
      invariant lower <= higher ==> |blocks| <= n
      invariant lower > higher ==> blocks == []
      invariant forall h :: lower <= h < lower + |blocks| ==> Recorded(db, h) && blocks[h - lower] == db.blockTxs[h]
      invariant lower + |blocks| == U32 ==> higher == U32 - 1
      decreases U32 - lower - |blocks|
    {
      if height !in db.blockTxs || db.blockTxs[height] == [] {
        assert !Recorded(db, height);
        return db, Refused;
      }
      assert Recorded(db, height);
      if Less32(height, lower) >= n {
        return db, Wrapped;
      }
      blocks := blocks + [db.blockTxs[height]];
      height := (height + 1) % U32;
    }
    l, outcome := CountDown(db, lower, higher, blocks);
  }

  /** The length of the list of records, and that no place but the one past its end is reached. */
  lemma Places(lower: nat, higher: nat)
    requires lower < U32 && higher < U32
    ensures lower <= higher ==>
            Less32(higher + 1, lower) == if lower == 0 && higher == U32 - 1 then 0 else higher + 1 - lower
  {
  }

  /** The second loop, over the records that were read. */
  method CountDown(db: Ledger, lower: nat, higher: nat, blocks: seq<seq<BlockTx>>) returns (l: Ledger, outcome: Outcome)
    requires forall h :: lower <= h <= higher ==>
             h - lower < |blocks| && Recorded(db, h) && blocks[h - lower] == db.blockTxs[h]
    ensures l == Down(db, lower - 1, higher) && outcome == if lower == 0 then Wrapped else Done
  {
    hide Down, Finish, UndoOutputsDone;
    DownNone(db, lower - 1, higher);
    DownNone(db, higher, higher);
    l := db;
    var height := higher;
    while height >= lower
      invariant 0 <= height <= higher && (lower - 1 <= height || height == higher)
      invariant l == Down(db, height, higher)
      decreases height
    {
      DownStep(db, height, higher);
      l := DisconnectWith(l, height, blocks[height - lower]);
      if height == 0 {
        return l, Wrapped;
      }
      height := height - 1;
    }
    outcome := Done;
  }

  // ---------------------------------------------------------------- on a chain

  /** The blocks from place `k` on are those of the heights `lower` to `higher`. */
  ghost predicate TopRange(chain: seq<Block>, k: nat, lower: nat, higher: int) {
    k <= |chain| && |chain| - k == higher - lower + 1 && forall i ::
        k <= i < |chain| ==> chain[i].height == lower + i - k
  }

  lemma {:induction false} DownIsReplay(n: Node, ext: bool, k: nat, lower: nat, higher: int)
    requires NodeOk(n, ext) && TopRange(n.chain, k, lower, higher)
    ensures NodeOk(Node(Down(n.l, lower - 1, higher), n.chain[..k]), ext)
    decreases |n.chain| - k
  {
    hide NodeOk, Disconnect, Step;
    if k < |n.chain| {
      var above := Node(Down(n.l, lower, higher), n.chain[..k + 1]);
      DownIsReplay(n, ext, k + 1, lower + 1, higher);
      DropKeepsOk(above, ext);
      assert Last(above.chain) == n.chain[k] && Front(above.chain) == n.chain[..k];
      StepIsDown(n.l, above, ext, lower, higher);
      assert Step(above, ext, Drop) == Node(Down(n.l, lower - 1, higher), n.chain[..k]);
    } else {
      assert n.chain[..k] == n.chain;
    }
  }

  lemma StepIsDown(l: Ledger, above: Node, ext: bool, lower: nat, higher: int)
    requires above.chain != [] && above.l == Down(l, lower, higher) && Last(above.chain).height == lower <= higher
    requires Step(above, ext, Drop).chain == Front(above.chain)
    ensures Step(above, ext, Drop).l == Down(l, lower - 1, higher)
  {
  }

  /** Disconnecting the topmost blocks of a chain is not refused and leaves the index of the chain below them. */
  lemma RangeLeavesReplay(n: Node, ext: bool, k: nat, lower: nat, higher: nat)
    requires NodeOk(n, ext) && TopRange(n.chain, k, lower, higher)
    ensures AllRecorded(n.l, lower, higher)
    ensures var l := Down(n.l, lower - 1, higher);
            NodeOk(Node(l, n.chain[..k]), ext) && Inv(l) && SameIndex(Replay(ext, n.chain[..k]), l)
  {
    RangeRecorded(n, ext, k, lower, higher);
    DownIsReplay(n, ext, k, lower, higher);
    OkIsReplay(Node(Down(n.l, lower - 1, higher), n.chain[..k]), ext);
  }

  lemma OkIsReplay(n: Node, ext: bool)
    requires NodeOk(n, ext)
    ensures Inv(n.l) && SameIndex(Replay(ext, n.chain), n.l)
  {
    ReplayGood(ext, n.chain);
    InvDetermines(Replay(ext, n.chain), n.l);
  }

  lemma {:induction false} BlocksHaveTxs(ext: bool, chain: seq<Block>, i: nat)
    requires ValidChain(ext, chain) && i < |chain|
    ensures chain[i].txs != []
    decreases |chain|
  {
    if i < |chain| - 1 { BlocksHaveTxs(ext, Front(chain), i); }
  }

  lemma RangeRecorded(n: Node, ext: bool, k: nat, lower: nat, higher: nat)
    requires NodeOk(n, ext) && TopRange(n.chain, k, lower, higher)
    ensures AllRecorded(n.l, lower, higher)
  {
    forall h | lower <= h <= higher ensures Recorded(n.l, h) {
      var i := h - lower + k;
      BlocksHaveTxs(ext, n.chain, i);
      assert n.chain[i].height == h && |BlockTxsOf(n.chain[i])| == |n.chain[i].txs|;
    }
  }
}
