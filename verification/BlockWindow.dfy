// Connects that sweep old block records: how deep a chain can still be disconnected.
module BlockWindow {
  import opened Types
  import opened LedgerModel
  import opened LedgerInvariant
  import opened LedgerUndo
  import opened LedgerTheorems
  import opened LedgerRuns

  type Records = map<nat, seq<BlockTx>>

  /** The records from height `rh` down to the first gap or to height 1. */
  function Swept(m: Records, rh: nat): set<nat> {
    if rh == 0 || rh !in m then {} else {rh} + Swept(m, rh - 1)
  }

  /** What a connect at height `h` sweeps when the records of `keep` blocks are kept. */
  function SweptAt(m: Records, h: nat, keep: nat): set<nat> { if h > keep then Swept(m, h - keep) else {} }

  lemma {:induction false} SweptRange(m: Records, rh: nat)
    ensures forall x :: x in Swept(m, rh) ==> 0 < x <= rh && x in m
    ensures rh > 0 && rh in m && rh - 1 !in m ==> Swept(m, rh) == {rh}
  {
    if rh > 0 && rh in m { SweptRange(m, rh - 1); }
  }

  /** cleanupBlockTxs: deletes go into the batch, so that the column read is that from before the block. */
  method CleanupBlockTxs(m: Records, height: nat, keep: nat) returns (gone: set<nat>)
    ensures gone == SweptAt(m, height, keep)
  {
    gone := {};
    if height > keep {
      var rh := height - keep;
      while rh > 0
        invariant 0 <= rh && gone + Swept(m, rh) == Swept(m, height - keep)
        decreases rh
      {
        if rh !in m {
          break;
        }
        gone := gone + {rh};
        rh := rh - 1;
      }
    }
  }

  /** ConnectBlock with the sweep. */
  function ConnectSweeping(l: Ledger, ext: bool, b: Block, keep: nat): Ledger {
    var l' := ConnectBlock(l, ext, b);
    l'.(blockTxs := l'.blockTxs - SweptAt(l.blockTxs, b.height, keep))
  }

  /** Keeping no records sweeps none: the record of the block itself is not in the column yet. */
  lemma KeepNoneKeepsAll(l: Ledger, ext: bool, b: Block)
    requires b.height !in l.blockTxs
    ensures ConnectSweeping(l, ext, b, 0) == ConnectBlock(l, ext, b)
  {
    hide ConnectBlock;
    var m := ConnectBlock(l, ext, b).blockTxs;
    assert m - {} == m;
  }

  // ---------------------------------------------------------------- runs

  /** A node and the highest height ever connected. */
  datatype Window = Window(n: Node, peak: int)

  function Start(first: nat): Window { Window(Node(EmptyLedger, []), first - 1) }

  function StepSweeping(w: Window, ext: bool, keep: nat, e: Event): Window {
    match e
    case Add(b) =>
      Window(Node(ConnectSweeping(w.n.l, ext, b, keep), w.n.chain + [b]), if b.height > w.peak
          then b.height else w.peak)
    case Drop => w.(n := Step(w.n, ext, Drop))
  }

  function RunSweeping(first: nat, ext: bool, keep: nat, es: seq<Event>): Window {
    if es == [] then Start(first) else StepSweeping(RunSweeping(first, ext, keep, es[..|es| - 1]), ext, keep,
        es[|es| - 1])
  }

  /** Blocks are connected one height after the other, from `first` on. */
  ghost predicate LegalHere(w: Window, first: nat, e: Event) {
    LegalEvent(w.n, e) && (e.Add? ==> e.b.height == first + |w.n.chain|)
  }

  ghost predicate LegalSweeping(first: nat, ext: bool, keep: nat, es: seq<Event>) {
    es != [] ==>
      && LegalSweeping(first, ext, keep, es[..|es| - 1])
      && LegalHere(RunSweeping(first, ext, keep, es[..|es| - 1]), first, es[|es| - 1])
  }

  // ---------------------------------------------------------------- what holds

  /** The heights whose records are kept: those within `keep` of the peak, and that of block 0. */
  predicate InWindow(h: int, peak: int, keep: nat) { h > peak - keep || h == 0 }

  /** The next block to connect is in the window. */
  predicate NextOk(h: int, peak: int, keep: nat) { h > peak - keep || (h == 0 && peak <= keep) }

  ghost predicate HeightsFrom(chain: seq<Block>, first: nat) {
    forall i :: 0 <= i < |chain| ==> chain[i].height == first + i
  }

  ghost predicate RecordsAre(m: Records, chain: seq<Block>, first: nat, peak: int, keep: nat) {
    && (forall h :: h in m <==> first <= h < first + |chain| && InWindow(h, peak, keep))
    && (forall h :: h in m && first <= h < first + |chain| ==> m[h] == BlockTxsOf(chain[h - first]))
  }

  ghost predicate WindowOk(w: Window, first: nat, ext: bool, keep: nat) {
    && NodeFit(w.n, ext) && HeightsFrom(w.n.chain, first) && w.peak >= first + |w.n.chain| - 1
    && NextOk(first + |w.n.chain|, w.peak, keep)
    && RecordsAre(w.n.l.blockTxs, w.n.chain, first, w.peak, keep)
  }

  /** The sweep of a connect takes the one record that leaves the window, if any. */
  lemma SweepMovesWindow(m: Records, chain: seq<Block>, first: nat, peak: int, keep: nat, b: Block)
    requires RecordsAre(m, chain, first, peak, keep) && keep > 0 && b.height == first + |chain|
    requires peak >= first + |chain| - 1 && InWindow(b.height, peak, keep)
    ensures var peak' := if b.height > peak then b.height else peak;
            RecordsAre(m[b.height := BlockTxsOf(b)] - SweptAt(m, b.height, keep), chain + [b], first, peak', keep)
  {
    hide BlockTxsOf;
    var rh := b.height - keep;
    if b.height > keep {
      SweptRange(m, rh);
      if b.height > peak {
        // the peak moves on by one, and height rh leaves the window
        assert rh - 1 == 0 || rh - 1 !in m;
        SweptOne(m, rh);
      }
    }
  }

  lemma SweptOne(m: Records, rh: nat)
    requires rh > 0 && (rh - 1 == 0 || rh - 1 !in m)
    ensures Swept(m, rh) == if rh in m then {rh} else {}
  {
  }

  lemma GoodIgnoresRecords(l: Ledger, m: Records)
    requires Good(l)
    ensures Good(l.(blockTxs := m))
  {
    var l' := l.(blockTxs := m);
    InvIgnoresBlocks(l, l');
    forall a ensures Bal(l', a) == Bal(l, a) { }
  }

  lemma AddKeepsWindow(w: Window, first: nat, ext: bool, keep: nat, b: Block)
    requires WindowOk(w, first, ext, keep) && LegalHere(w, first, Add(b)) && keep > 0
    ensures WindowOk(StepSweeping(w, ext, keep, Add(b)), first, ext, keep)
  {
    hide Good, ValidChain, SameColumn, ConnectBlock, RecordsAre, BlockTxsOf, Replay;
    var l' := ConnectBlock(w.n.l, ext, b);
    AddFits(w.n, ext, b);
    GoodIgnoresRecords(l', ConnectSweeping(w.n.l, ext, b, keep).blockTxs);
    SweepMovesWindow(w.n.l.blockTxs, w.n.chain, first, w.peak, keep, b);
  }

  lemma DropKeepsWindow(w: Window, first: nat, ext: bool, keep: nat)
    requires WindowOk(w, first, ext, keep) && w.n.chain != []
    ensures WindowOk(StepSweeping(w, ext, keep, Drop), first, ext, keep)
    ensures var top := first + |w.n.chain| - 1;
            StepSweeping(w, ext, keep, Drop).n.chain == if InWindow(top, w.peak, keep)
                then Front(w.n.chain) else w.n.chain
  {
    hide Good, SameColumn, Disconnect, BlockTxsOf, Replay, RecordsAre;
    var top := first + |w.n.chain| - 1;
    assert Last(w.n.chain).height == top;
    TopRecord(w, first, ext, keep);
    if InWindow(top, w.peak, keep) {
      DropColumn(w.n, ext);
      RecordsWithout(w.n.l.blockTxs, w.n.chain, first, w.peak, keep);
    }
  }

  lemma TopRecord(w: Window, first: nat, ext: bool, keep: nat)
    requires WindowOk(w, first, ext, keep) && w.n.chain != []
    ensures var top := first + |w.n.chain| - 1;
            && (InWindow(top, w.peak, keep) ==> HasRecord(w.n.l, Last(w.n.chain)))
            && (!InWindow(top, w.peak, keep) ==> Disconnect(w.n.l, top) == None)
  {
    hide NodeFit;
  }

  lemma RecordsWithout(m: Records, chain: seq<Block>, first: nat, peak: int, keep: nat)
    requires chain != [] && RecordsAre(m, chain, first, peak, keep)
    ensures RecordsAre(m - {first + |chain| - 1}, Front(chain), first, peak, keep)
  {
    hide BlockTxsOf;
  }

  // ---------------------------------------------------------------- main results

  lemma StartOk(first: nat, ext: bool, keep: nat)
    requires keep > 0
    ensures WindowOk(Start(first), first, ext, keep)
  {
    hide Good;
    EmptyGood();
  }

  /** In every run the records kept are those within `keep` blocks of the highest block ever connected, and that of
      block 0; the index is that of connecting the surviving chain from scratch. */
  lemma {:induction false} RunKeepsWindow(first: nat, ext: bool, keep: nat, es: seq<Event>)
    requires keep > 0 && LegalSweeping(first, ext, keep, es)
    ensures var w := RunSweeping(first, ext, keep, es);
            WindowOk(w, first, ext, keep) && Inv(w.n.l) && SameIndex(Replay(ext, w.n.chain), w.n.l)
  {
    if es == [] {
      StartOk(first, ext, keep);
    } else {
      var n := |es| - 1;
      RunKeepsWindow(first, ext, keep, es[..n]);
      var w := RunSweeping(first, ext, keep, es[..n]);
      hide WindowOk, StepSweeping;
      match es[n]
      case Add(b) => AddKeepsWindow(w, first, ext, keep, b);
      case Drop => DropKeepsWindow(w, first, ext, keep);
    }
    WindowIsReplay(RunSweeping(first, ext, keep, es), first, ext, keep);
  }

  lemma WindowIsReplay(w: Window, first: nat, ext: bool, keep: nat)
    requires WindowOk(w, first, ext, keep)
    ensures Inv(w.n.l) && SameIndex(Replay(ext, w.n.chain), w.n.l)
  {
    ReplayGood(ext, w.n.chain);
    InvDetermines(Replay(ext, w.n.chain), w.n.l);
  }

  /** The top block can be disconnected exactly when it is within `keep` blocks of the highest one ever connected, or
      block 0; a refused disconnect changes nothing. */
  lemma DropsWithinWindow(first: nat, ext: bool, keep: nat, es: seq<Event>)
    requires keep > 0 && LegalSweeping(first, ext, keep, es) && RunSweeping(first, ext, keep, es).n.chain != []
    ensures var w := RunSweeping(first, ext, keep, es);
            var top, w' := first + |w.n.chain| - 1, StepSweeping(w, ext, keep, Drop);
            if InWindow(top, w.peak, keep) then w'.n.chain == Front(w.n.chain) else w' == w
  {
    hide RunSweeping;
    RunKeepsWindow(first, ext, keep, es);
    var w := RunSweeping(first, ext, keep, es);
    DropKeepsWindow(w, first, ext, keep);
    TopRecord(w, first, ext, keep);
    assert Last(w.n.chain).height == first + |w.n.chain| - 1;
  }
}
