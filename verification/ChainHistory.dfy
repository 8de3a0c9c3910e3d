// The history of an address as a scan over the stored rows of a reachable index delivers it, in terms of the blocks.
module ChainHistory {
  import opened Types
  import opened LedgerModel
  import opened LedgerInvariant
  import opened LedgerTheorems
  import opened LedgerRuns
  import opened ChainIndex
  import R = ChainReading
  import S = AddressScan

  function StoredRow(row: seq<TxIndexes>): seq<S.TxIdx> {
    seq(|row|, i requires 0 <= i < |row| => S.TxIdx(row[i].txid.packed, row[i].indexes))
  }

  /** The history column as the scan reads it. */
  function HistoryColumn(l: Ledger): S.Column {
    map p: S.Place | p in (set k | k in l.rows :: S.Place(k.addr.script, k.height)) ::
      StoredRow(RowOf(l, AddrRow(AddrDesc(p.addr), p.height)))
  }

  /** The blocks of the chain from the last to the first, those within the heights with their rows in reverse. */
  function HistoryOf(chain: seq<Block>, a: AddrDesc, lower: nat, higher: int): seq<S.Hit> {
    if chain == [] then []
    else
      var b := Last(chain);
      (if lower <= b.height <= higher then S.Reversed(StoredRow(R.RowFor(chain, a)), b.height) else [])
      + HistoryOf(Front(chain), a, lower, higher)
  }

  lemma ColumnAt(l: Ledger, a: AddrDesc, h: nat)
    requires forall k :: k in l.rows ==> l.rows[k] != []
    ensures var col, row := HistoryColumn(l), RowOf(l, AddrRow(a, h));
            && (S.Place(a.script, h) in col <==> row != [])
            && (S.Place(a.script, h) in col ==> col[S.Place(a.script, h)] == StoredRow(row))
  {
    assert AddrDesc(a.script) == a;
    var p, ps := S.Place(a.script, h), set k | k in l.rows :: S.Place(k.addr.script, k.height);
    if p in ps {
      var k :| k in l.rows && S.Place(k.addr.script, k.height) == p;
      assert k == AddrRow(a, h);
    }
    if RowOf(l, AddrRow(a, h)) != [] { assert S.Place(AddrRow(a, h).addr.script, AddrRow(a, h).height) in ps; }
  }

  lemma {:induction false} LowerOnly(chain: seq<Block>, a: AddrDesc, lower: nat, h: int)
    requires forall x :: 0 <= x < |chain| ==> chain[x].height < h
    ensures HistoryOf(chain, a, lower, h) == HistoryOf(chain, a, lower, h - 1)
  {
    if chain != [] { LowerOnly(Front(chain), a, lower, h); }
  }

  lemma {:induction false} NoneAtAll(chain: seq<Block>, a: AddrDesc, lower: nat, h: int)
    requires h < lower
    ensures HistoryOf(chain, a, lower, h) == []
  {
    if chain != [] { NoneAtAll(Front(chain), a, lower, h); }
  }

  /** The row of one height, as the column has it. */
  lemma RowPart(l: Ledger, chain: seq<Block>, a: AddrDesc, h: nat)
    requires RowsSay(l, chain) && Indexable(a) && forall k :: k in l.rows ==> l.rows[k] != []
    ensures var col, p := HistoryColumn(l), S.Place(a.script, h);
            var part := if p in col then S.Reversed(col[p], h) else [];
            && (forall x :: 0 <= x < |chain| && chain[x].height == h ==>
                  part == S.Reversed(StoredRow(R.RowFor(chain[..x + 1], a)), h))
            && ((forall x :: 0 <= x < |chain| ==> chain[x].height != h) ==> part == [])
  {
    hide R.RowFor, HistoryColumn;
    ColumnAt(l, a, h);
    forall x | 0 <= x < |chain| && chain[x].height == h
      ensures RowOf(l, AddrRow(a, h)) == R.RowFor(chain[..x + 1], a)
    {
      assert RowsSayAt(l, chain, x);
    }
    NoHits(h);
  }

  lemma NoHits(h: nat)
    ensures S.Reversed(StoredRow([]), h) == []
  {
  }

  /** The first `m` blocks are those up to height `h`. */
  lemma {:induction false} ScanIsHistory(l: Ledger, chain: seq<Block>, a: AddrDesc, lower: nat, h: int, m: nat)
    requires RowsSay(l, chain) && Indexable(a) && (forall k :: k in l.rows ==> l.rows[k] != []) && Ascending(chain)
    requires m <= |chain| && forall x :: 0 <= x < |chain| ==> (x < m <==> chain[x].height <= h)
    ensures S.Expected(HistoryColumn(l), a.script, lower, h) == HistoryOf(chain[..m], a, lower, h)
    decreases h - lower
  {
    hide RowsSay, HistoryColumn, R.RowFor, StoredRow, S.Reversed, S.Expected, HistoryOf, Ascending, Indexable;
    if h < lower {
      NothingWanted(HistoryColumn(l), a.script, lower, h);
      NoneAtAll(chain[..m], a, lower, h);
    } else {
      RowPart(l, chain, a, h);
      var m' := if m > 0 && chain[m - 1].height == h then m - 1 else m;
      BelowNext(chain, h, m);
      ScanIsHistory(l, chain, a, lower, h - 1, m');
      LowerOnly(chain[..m'], a, lower, h);
      OneHeight(HistoryColumn(l), a.script, lower, h);
      if m' < m { LastBlock(chain, m, a, lower, h); }
    }
  }

  lemma NothingWanted(col: S.Column, a: seq<byte>, lower: nat, h: int)
    requires h < lower
    ensures S.Expected(col, a, lower, h) == []
  {
  }

  lemma OneHeight(col: S.Column, a: seq<byte>, lower: nat, h: int)
    requires lower <= h
    ensures var part := if S.Place(a, h) in col then S.Reversed(col[S.Place(a, h)], h) else [];
            S.Expected(col, a, lower, h) == part + S.Expected(col, a, lower, h - 1)
            && (part == [] ==> S.Expected(col, a, lower, h) == S.Expected(col, a, lower, h - 1))
  {
    hide S.Reversed;
  }

  lemma LastBlock(chain: seq<Block>, m: nat, a: AddrDesc, lower: nat, h: nat)
    requires 0 < m <= |chain| && lower <= chain[m - 1].height <= h
    ensures HistoryOf(chain[..m], a, lower, h)
            == S.Reversed(StoredRow(R.RowFor(chain[..m], a)), chain[m - 1].height)
               + HistoryOf(chain[..m - 1], a, lower, h)
  {
    hide R.RowFor, StoredRow, S.Reversed;
    assert chain[..m][..m - 1] == chain[..m - 1] && Last(chain[..m]) == chain[m - 1];
  }

  lemma BelowNext(chain: seq<Block>, h: int, m: nat)
    requires Ascending(chain) && m <= |chain| && forall x :: 0 <= x < |chain| ==> (x < m <==> chain[x].height <= h)
    ensures var m' := if m > 0 && chain[m - 1].height == h then m - 1 else m;
            && (forall x :: 0 <= x < |chain| ==> (x < m' <==> chain[x].height <= h - 1))
            && (m' == m ==> forall x :: 0 <= x < |chain| ==> chain[x].height != h)
  {
    forall x | 0 <= x < m ensures chain[x].height < h || (x == m - 1 && chain[m - 1].height == h) {
      assert x < m - 1 ==> chain[x].height < chain[m - 1].height;
    }
  }

  lemma {:induction false} UpTo(chain: seq<Block>, h: nat) returns (m: nat)
    requires Ascending(chain)
    ensures m <= |chain| && forall x :: 0 <= x < |chain| ==> (x < m <==> chain[x].height <= h)
  {
    m := |chain|;
    if chain != [] && Last(chain).height > h { m := UpTo(Front(chain), h); }
  }

  /** Blocks above `higher` have no part in it. */
  lemma {:induction false} CutHistory(chain: seq<Block>, a: AddrDesc, lower: nat, higher: nat, m: nat)
    requires m <= |chain| && forall x :: m <= x < |chain| ==> chain[x].height > higher
    ensures HistoryOf(chain[..m], a, lower, higher) == HistoryOf(chain, a, lower, higher)
  {
    if m < |chain| {
      assert Front(chain)[..m] == chain[..m];
      CutHistory(Front(chain), a, lower, higher, m);
    } else {
      assert chain[..m] == chain;
    }
  }

  /** In every reachable state a scan of the history of an address is to deliver, from the newest block in range to the
      oldest, the transactions of the block that touch the address with their places: from the last to the first of
      those that only take from it, and then from the last to the first of those that pay it. */
  lemma ReachableHistory(ext: bool, es: seq<Event>, a: AddrDesc, lower: nat, higher: nat)
    requires LegalRun(Node(EmptyLedger, []), ext, es) && Indexable(a)
    ensures var n := Execute(Node(EmptyLedger, []), ext, es);
            S.Expected(HistoryColumn(n.l), a.script, lower, higher) == HistoryOf(n.chain, a, lower, higher)
  {
    hide Execute, HistoryOf, S.Expected, HistoryColumn, NodeFit, Good, R.RecordsSay, RowsSay, Indexable, LegalRun;
    var n := Execute(Node(EmptyLedger, []), ext, es);
    RunIsReplay(ext, es);
    RunRows(ext, es);
    FitAscends(n, ext);
    RowsFilled(n.l);
    var m := UpTo(n.chain, higher);
    ScanIsHistory(n.l, n.chain, a, lower, higher, m);
    CutHistory(n.chain, a, lower, higher, m);
  }

  lemma RowsFilled(l: Ledger)
    requires Inv(l)
    ensures forall k :: k in l.rows ==> l.rows[k] != []
  {
  }
}
