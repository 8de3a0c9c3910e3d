// Healing the life of contracts from blocks whose internal data was missed. Blocks are healed in any
// order and more than once; the guards make the outcome that of overwriting in block order.
module Healing {
  import opened Types

  /** CreatedInBlock and DestructedInBlock; 0 is "not". */
  datatype Life = Life(created: nat, destructed: nat)

  const Stub := Life(0, 0)

  /** applyHealedCreation and whether the record applies. */
  function HealCreation(l: Life, h: nat): (Life, bool) {
    if h < l.created then (l, false) else (Life(h, if l.destructed <= h then 0 else l.destructed), true)
  }

  /** applyHealedDestruction and whether the record applies. */
  function HealDestruction(l: Life, h: nat): (Life, bool) {
    if h < l.created || h <= l.destructed then (l, false) else (Life(l.created, h), true)
  }

  datatype Event = Created | Destroyed

  function Heal(l: Life, h: nat, e: Event): Life {
    match e
    case Created => HealCreation(l, h).0
    case Destroyed => HealDestruction(l, h).0
  }

  /** What sync does to a row when blocks come in order: a creation replaces it, a destruction is noted in it. */
  function Overwrite(l: Life, h: nat, e: Event): Life {
    match e
    case Created => Life(h, 0)
    case Destroyed => Life(l.created, h)
  }

  /** What happens to one contract in the block of height `h`, in trace order. */
  datatype Block = Block(h: nat, events: seq<Event>)

  function HealEvents(l: Life, h: nat, es: seq<Event>): Life {
    if es == [] then l else Heal(HealEvents(l, h, es[..|es| - 1]), h, es[|es| - 1])
  }

  function OverwriteEvents(l: Life, h: nat, es: seq<Event>): Life {
    if es == [] then l else Overwrite(OverwriteEvents(l, h, es[..|es| - 1]), h, es[|es| - 1])
  }

  function HealBlocks(l: Life, bs: seq<Block>): Life {
    if bs == [] then l
    else
      var n := |bs| - 1;
      HealEvents(HealBlocks(l, bs[..n]), bs[n].h, bs[n].events)
  }

  function OverwriteBlocks(l: Life, bs: seq<Block>): Life {
    if bs == [] then l
    else
      var n := |bs| - 1;
      OverwriteEvents(OverwriteBlocks(l, bs[..n]), bs[n].h, bs[n].events)
  }

  // ---------------------------------------------------------------- one block in closed form

  predicate Creates(es: seq<Event>) { Created in es }

  predicate EndsDestroyed(es: seq<Event>) { es != [] && es[|es| - 1] == Destroyed }

  /** The outcome of a block on its own, without replaying its events. */
  function HealedBy(l: Life, h: nat, es: seq<Event>): Life {
    if h < l.created || es == [] then l
    else if !Creates(es) then Life(l.created, if l.destructed < h then h else l.destructed)
    else Life(h, if l.destructed > h then l.destructed else if EndsDestroyed(es) then h else 0)
  }

  lemma OneMore(es: seq<Event>, e: Event)
    ensures Creates(es + [e]) <==> Creates(es) || e == Created
    ensures EndsDestroyed(es + [e]) <==> e == Destroyed
    ensures es + [e] != []
  {
  }

  lemma LastEvent(es: seq<Event>)
    requires es != []
    ensures es == es[..|es| - 1] + [es[|es| - 1]]
  {
  }

  lemma HealedNext(l: Life, h: nat, es: seq<Event>, e: Event)
    requires h > 0
    ensures Heal(HealedBy(l, h, es), h, e) == HealedBy(l, h, es + [e])
    ensures l.created < h && l.destructed < h ==> Overwrite(HealedBy(l, h, es), h, e) == HealedBy(l, h, es + [e])
  {
    hide Creates, EndsDestroyed;
    OneMore(es, e);
    if es == [] {
      NoEvents();
    } else {
      LastEvent(es);
      OneMore(es[..|es| - 1], es[|es| - 1]);
    }
  }

  lemma NoEvents()
    ensures !Creates([]) && !EndsDestroyed([])
  {
  }

  lemma {:induction false} HealedInOneGo(l: Life, h: nat, es: seq<Event>)
    requires h > 0
    ensures HealEvents(l, h, es) == HealedBy(l, h, es)
  {
    hide HealedBy, Heal;
    if es == [] {
      NothingHealed(l, h);
    } else {
      var n := |es| - 1;
      HealedInOneGo(l, h, es[..n]);
      HealedNext(l, h, es[..n], es[n]);
      LastEvent(es);
    }
  }

  lemma NothingHealed(l: Life, h: nat)
    ensures HealedBy(l, h, []) == l
  {
  }

  lemma {:induction false} OverwrittenInOneGo(l: Life, h: nat, es: seq<Event>)
    requires l.created < h && l.destructed < h
    ensures OverwriteEvents(l, h, es) == HealedBy(l, h, es)
  {
    hide HealedBy, Overwrite;
    if es == [] {
      NothingHealed(l, h);
    } else {
      var n := |es| - 1;
      OverwrittenInOneGo(l, h, es[..n]);
      HealedNext(l, h, es[..n], es[n]);
      LastEvent(es);
    }
  }

  // ---------------------------------------------------------------- what a set of blocks amounts to

  /** Blocks have positive heights and there is one of each height. */
  ghost predicate OneChain(s: set<Block>) {
    (forall b :: b in s ==> b.h > 0) && forall b, c :: b in s && c in s && b.h == c.h ==> b == c
  }

  /** The last creation in `s`. */
  ghost predicate LastCreation(s: set<Block>, created: nat) {
    && (forall b :: b in s && Creates(b.events) ==> b.h <= created)
    && (created == 0 || exists b :: b in s && b.h == created && Creates(b.events))
  }

  /** The last destruction after it: in a later block, or in the same block as its last event. */
  ghost predicate LastDestruction(s: set<Block>, created: nat, destructed: nat) {
    && (forall b :: b in s && b.h > created && b.events != [] ==> b.h <= destructed)
    && (forall b :: b in s && b.h == created && EndsDestroyed(b.events) ==> destructed >= created)
    && (destructed == 0
        || exists b :: b in s && b.h == destructed
                       && ((b.h > created && b.events != []) || (b.h == created && EndsDestroyed(b.events))))
  }

  ghost predicate Outcome(s: set<Block>, l: Life) {
    LastCreation(s, l.created) && LastDestruction(s, l.created, l.destructed)
  }

  /** A set of blocks has one outcome. */
  lemma OutcomeUnique(s: set<Block>, l: Life, l': Life)
    requires OneChain(s) && Outcome(s, l) && Outcome(s, l')
    ensures l == l'
  {
    assert l.created == l'.created;
    assert l.destructed <= l'.destructed && l'.destructed <= l.destructed;
  }

  lemma HealedCreation(s: set<Block>, l: Life, b: Block)
    requires OneChain(s + {b}) && Outcome(s, l)
    ensures LastCreation(s + {b}, HealedBy(l, b.h, b.events).created)
  {
    assert b in s + {b};
    assert forall x :: x in s ==> x in s + {b};
  }

  lemma HealedOutcome(s: set<Block>, l: Life, b: Block)
    requires OneChain(s + {b}) && Outcome(s, l)
    ensures Outcome(s + {b}, HealedBy(l, b.h, b.events))
  {
    HealedCreation(s, l, b);
    var s', l' := s + {b}, HealedBy(l, b.h, b.events);
    assert b in s';
    assert forall x :: x in s ==> x in s';
    assert LastDestruction(s', l'.created, l'.destructed);
  }

  function SetOf(bs: seq<Block>): set<Block> { set b | b in bs }

  lemma {:induction false} HealBlocksOutcome(bs: seq<Block>)
    requires OneChain(SetOf(bs))
    ensures Outcome(SetOf(bs), HealBlocks(Stub, bs))
  {
    if bs != [] {
      var n := |bs| - 1;
      assert SetOf(bs) == SetOf(bs[..n]) + {bs[n]} by { assert bs == bs[..n] + [bs[n]]; }
      HealBlocksOutcome(bs[..n]);
      HealedInOneGo(HealBlocks(Stub, bs[..n]), bs[n].h, bs[n].events);
      HealedOutcome(SetOf(bs[..n]), HealBlocks(Stub, bs[..n]), bs[n]);
    }
  }

  lemma OutcomeBefore(s: set<Block>, l: Life, h: nat)
    requires Outcome(s, l) && h > 0 && forall b :: b in s ==> b.h < h
    ensures l.created < h && l.destructed < h
  {
  }

  ghost predicate Ascending(bs: seq<Block>) {
    (forall i :: 0 <= i < |bs| ==> bs[i].h > 0) && forall i, j :: 0 <= i < j < |bs| ==> bs[i].h < bs[j].h
  }

  lemma AscendingIsChain(bs: seq<Block>)
    requires Ascending(bs)
    ensures OneChain(SetOf(bs))
    ensures bs != [] ==> AscendingLast(bs, |bs| - 1)
  {
    forall b, c | b in SetOf(bs) && c in SetOf(bs) && b.h == c.h ensures b == c {
      var i, j :| 0 <= i < |bs| && bs[i] == b && 0 <= j < |bs| && bs[j] == c;
    }
    if bs != [] { AscendingFront(bs); }
  }

  /** The last block comes after a chain of lower ones. */
  ghost predicate AscendingLast(bs: seq<Block>, n: nat)
    requires n < |bs|
  {
    && Ascending(bs[..n]) && bs[n].h > 0 && SetOf(bs) == SetOf(bs[..n]) + {bs[n]}
    && forall b :: b in SetOf(bs[..n]) ==> b.h < bs[n].h
  }

  lemma AscendingFront(bs: seq<Block>)
    requires Ascending(bs) && bs != []
    ensures AscendingLast(bs, |bs| - 1)
  {
    var n := |bs| - 1;
    assert bs == bs[..n] + [bs[n]];
    forall b | b in SetOf(bs[..n]) ensures b.h < bs[n].h {
      var i :| 0 <= i < n && bs[..n][i] == b;
      assert bs[i] == b;
    }
  }

  lemma {:induction false} OverwriteOutcome(bs: seq<Block>)
    requires Ascending(bs)
    ensures Outcome(SetOf(bs), OverwriteBlocks(Stub, bs))
  {
    if bs != [] {
      hide Outcome, OneChain, SetOf;
      var n := |bs| - 1;
      AscendingIsChain(bs);
      OverwriteOutcome(bs[..n]);
      var l := OverwriteBlocks(Stub, bs[..n]);
      OutcomeBefore(SetOf(bs[..n]), l, bs[n].h);
      OverwrittenInOneGo(l, bs[n].h, bs[n].events);
      HealedOutcome(SetOf(bs[..n]), l, bs[n]);
    }
  }

  // ---------------------------------------------------------------- main results

  /** Healing blocks in any order, some perhaps more than once, gives what overwriting the stub with each of them
      once in order would have left. */
  lemma HealingIsConfluent(healed: seq<Block>, chain: seq<Block>)
    requires Ascending(chain) && SetOf(healed) == SetOf(chain)
    ensures HealBlocks(Stub, healed) == OverwriteBlocks(Stub, chain)
  {
    AscendingIsChain(chain);
    OverwriteOutcome(chain);
    HealBlocksOutcome(healed);
    OutcomeUnique(SetOf(chain), HealBlocks(Stub, healed), OverwriteBlocks(Stub, chain));
  }

  /** Healing a block again changes nothing. */
  lemma HealingAgain(bs: seq<Block>, b: Block)
    requires OneChain(SetOf(bs)) && b in bs
    ensures HealEvents(HealBlocks(Stub, bs), b.h, b.events) == HealBlocks(Stub, bs)
  {
    var l := HealBlocks(Stub, bs);
    assert SetOf(bs) + {b} == SetOf(bs);
    HealBlocksOutcome(bs);
    HealedInOneGo(l, b.h, b.events);
    HealedOutcome(SetOf(bs), l, b);
    OutcomeUnique(SetOf(bs), l, HealedBy(l, b.h, b.events));
  }

  /** No contract is destructed before it was created. */
  predicate Sane(l: Life) { l.destructed == 0 || l.destructed >= l.created }

  lemma {:induction false} HealingKeepsSane(l: Life, bs: seq<Block>)
    requires Sane(l) && forall b :: b in bs ==> b.h > 0
    ensures Sane(HealBlocks(l, bs))
  {
    if bs != [] {
      var n := |bs| - 1;
      HealingKeepsSane(l, bs[..n]);
      HealedInOneGo(HealBlocks(l, bs[..n]), bs[n].h, bs[n].events);
    }
  }

  // ---------------------------------------------------------------- the healing loop

  /** A record of a block's internal data: where `addr` was created and destructed, 0 for not. */
  datatype Record = Record(addr: AddrDesc, created: nat, destructed: nat)

  function HealRecord(l: Life, r: Record): (Life, bool) {
    var c := if r.created != 0 then HealCreation(l, r.created) else (l, false);
    var d := if r.destructed != 0 then HealDestruction(c.0, r.destructed) else (c.0, false);
    (d.0, c.1 || d.1)
  }

  /** The records of one address applied in order, and whether any applied. */
  function HealRecords(l: Life, recs: seq<Record>, a: AddrDesc): (Life, bool) {
    if recs == [] then (l, false)
    else
      var (l', changed) := HealRecords(l, recs[..|recs| - 1], a);
      var r := recs[|recs| - 1];
      if r.addr != a then (l', changed)
      else
        var (l'', more) := HealRecord(l', r);
        (l'', changed || more)
  }

  /** A stored row: the life of a contract and what else is known of it. */
  datatype Row<M> = Row(life: Life, meta: M)

  /** What healing starts from; `stub` gives the rest of a row that is not stored. */
  function StoredOrStub<M>(rows: map<AddrDesc, Row<M>>, stub: AddrDesc -> M, a: AddrDesc): Row<M> {
    if a in rows then rows[a] else Row(Stub, stub(a))
  }

  /** The records of one address in one block are its events in trace order. */
  function EventsOf(recs: seq<Record>, a: AddrDesc): seq<Event> {
    if recs == [] then []
    else
      var r := recs[|recs| - 1];
      EventsOf(recs[..|recs| - 1], a)
      + (if r.addr != a
          then [] else (if r.created != 0 then [Created] else []) + (if r.destructed != 0 then [Destroyed] else []))
  }

  lemma HealTwo(l: Life, h: nat, es: seq<Event>, e: Event)
    ensures HealEvents(l, h, es + [e]) == Heal(HealEvents(l, h, es), h, e)
  {
    assert (es + [e])[..|es|] == es;
  }

  lemma {:induction false} RecordsAreEvents(l: Life, h: nat, recs: seq<Record>, a: AddrDesc)
    requires h > 0 && forall r :: r in recs ==>
             (r.created == 0 || r.created == h) && (r.destructed == 0 || r.destructed == h)
    ensures HealRecords(l, recs, a).0 == HealEvents(l, h, EventsOf(recs, a))
  {
    if recs != [] {
      var n := |recs| - 1;
      RecordsAreEvents(l, h, recs[..n], a);
      var r, es := recs[n], EventsOf(recs[..n], a);
      if r.addr == a {
        var mid := es + (if r.created != 0 then [Created] else []);
        if r.created != 0 { HealTwo(l, h, es, Created); } else { assert mid == es; }
        if r.destructed != 0 { HealTwo(l, h, mid, Destroyed); } else { assert EventsOf(recs, a) == mid; }
        assert EventsOf(recs, a) == mid + (if r.destructed != 0 then [Destroyed] else []);
      } else {
        assert EventsOf(recs, a) == es;
      }
    }
  }

  /** The row of an address after healing, and whether it is written. */
  function HealedRow<M>(rows: map<AddrDesc, Row<M>>, stub: AddrDesc -> M, recs: seq<Record>, a: AddrDesc)
    : (Row<M>, bool)
  {
    var row := StoredOrStub(rows, stub, a);
    var (l, changed) := HealRecords(row.life, recs, a);
    (row.(life := l), changed)
  }

  /** storeHealedContractInfos: rows whose life did not change are not written, and what else is known of a contract
      stays. Records without address are skipped. */
  method StoreHealed<M>(rows: map<AddrDesc, Row<M>>, stub: AddrDesc -> M, recs: seq<Record>)
    returns (rows': map<AddrDesc, Row<M>>)
    ensures forall a :: a in rows' <==> a in rows || (|a.script| > 0 && HealedRow(rows, stub, recs, a).1)
    ensures forall a :: a in rows' ==> rows'[a] == if |a.script| > 0 then HealedRow(rows, stub, recs, a).0 else rows[a]
  {
    hide HealCreation, HealDestruction, HealedRow, StoredOrStub;
    var healed: map<AddrDesc, (Row<M>, bool)> := map[];
    forall a ensures HealedRow(rows, stub, recs[..0], a) == (StoredOrStub(rows, stub, a), false) {
      HealedRowNone(rows, stub, a);
    }
    for i := 0 to |recs|
      invariant forall a :: a in healed ==> |a.script| > 0 && healed[a] == HealedRow(rows, stub, recs[..i], a)
      invariant forall a :: a !in healed && |a.script| > 0 ==>
                  HealedRow(rows, stub, recs[..i], a) == (StoredOrStub(rows, stub, a), false)
    {
      forall a { HealedRowNext(rows, stub, recs, i, a); }
      var r := recs[i];
      if |r.addr.script| > 0 {
        var hc := if r.addr in healed then healed[r.addr] else (StoredOrStub(rows, stub, r.addr), false);
        var l, changed := hc.0.life, hc.1;
        if r.created != 0 {
          var c := HealCreation(l, r.created);
          l, changed := c.0, changed || c.1;
        }
        if r.destructed != 0 {
          var d := HealDestruction(l, r.destructed);
          l, changed := d.0, changed || d.1;
        }
        healed := healed[r.addr := (hc.0.(life := l), changed)];
      }
    }
    assert recs[..|recs|] == recs;
    rows' := rows + map a | a in healed && healed[a].1 :: healed[a].0;
    forall a | a in rows && |a.script| > 0
      ensures !HealedRow(rows, stub, recs, a).1 ==> HealedRow(rows, stub, recs, a).0 == rows[a]
    {
      UnchangedRow(rows, stub, recs, a);
    }
  }

  lemma HealedRowNone<M>(rows: map<AddrDesc, Row<M>>, stub: AddrDesc -> M, a: AddrDesc)
    ensures HealedRow(rows, stub, [], a) == (StoredOrStub(rows, stub, a), false)
  {
  }

  /** What one more record does to a row that is healed. */
  lemma HealedRowNext<M>(rows: map<AddrDesc, Row<M>>, stub: AddrDesc -> M, recs: seq<Record>, i: nat, a: AddrDesc)
    requires i < |recs|
    ensures var (row, changed) := HealedRow(rows, stub, recs[..i], a);
            var (l, more) := HealRecord(row.life, recs[i]);
            HealedRow(rows, stub, recs[..i + 1], a)
            == if recs[i].addr != a then (row, changed) else (row.(life := l), changed || more)
  {
    hide HealRecord;
    assert recs[..i + 1][..i] == recs[..i];
  }

  lemma UnchangedRow<M>(rows: map<AddrDesc, Row<M>>, stub: AddrDesc -> M, recs: seq<Record>, a: AddrDesc)
    requires a in rows
    ensures !HealedRow(rows, stub, recs, a).1 ==> HealedRow(rows, stub, recs, a).0 == rows[a]
  {
    Unchanged(rows[a].life, recs, a);
  }

  lemma {:induction false} Unchanged(l: Life, recs: seq<Record>, a: AddrDesc)
    ensures !HealRecords(l, recs, a).1 ==> HealRecords(l, recs, a).0 == l
  {
    if recs != [] { Unchanged(l, recs[..|recs| - 1], a); }
  }
}
