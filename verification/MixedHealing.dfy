// Blocks that were synced mixed with missed blocks that were healed: when the life of a contract is what syncing the
// whole chain would have left.
module MixedHealing {
  import opened Types
  import opened Healing

  /** storeContractInfo: a creation replaces the row, a destruction is noted in it and dropped when there is none. */
  function SyncEvent(row: Option<Life>, h: nat, e: Event): Option<Life> {
    match e
    case Created => Some(Life(h, 0))
    case Destroyed => if row.None? then None else Some(Life(row.value.created, h))
  }

  function SyncEvents(row: Option<Life>, h: nat, es: seq<Event>): Option<Life> {
    if es == [] then row else SyncEvent(SyncEvents(row, h, es[..|es| - 1]), h, es[|es| - 1])
  }

  function LifeOf(row: Option<Life>): Life { if row.None? then Stub else row.value }

  predicate AppliesTo(l: Life, h: nat, e: Event) {
    match e
    case Created => HealCreation(l, h).1
    case Destroyed => HealDestruction(l, h).1
  }

  /** Whether any event of the block applies when it is healed. */
  predicate Applies(l: Life, h: nat, es: seq<Event>) {
    es != [] && (Applies(l, h, es[..|es| - 1]) || AppliesTo(HealEvents(l, h, es[..|es| - 1]), h, es[|es| - 1]))
  }

  /** A healed row is written only if an event applied. */
  function HealRow(row: Option<Life>, h: nat, es: seq<Event>): Option<Life> {
    if Applies(LifeOf(row), h, es) then Some(HealEvents(LifeOf(row), h, es)) else row
  }

  datatype Step = SyncBlock(b: Block) | HealBlock(b: Block)

  function StepOn(row: Option<Life>, step: Step): Option<Life> {
    match step
    case SyncBlock(b) => SyncEvents(row, b.h, b.events)
    case HealBlock(b) => HealRow(row, b.h, b.events)
  }

  function Row(steps: seq<Step>): Option<Life> {
    if steps == [] then None else StepOn(Row(steps[..|steps| - 1]), steps[|steps| - 1])
  }

  /** A synced block leaves nothing when there is no row to note its destructions in. */
  predicate Dropped(row: Option<Life>, b: Block) { row.None? && !Creates(b.events) }

  /** The blocks that count: all but the synced ones that were dropped. */
  function Counted(steps: seq<Step>): set<Block> {
    if steps == [] then {}
    else
      var n := |steps| - 1;
      Counted(steps[..n]) + if steps[n].SyncBlock? && Dropped(Row(steps[..n]), steps[n].b) then {} else {steps[n].b}
  }

  function Met(steps: seq<Step>): set<Block> { set i | 0 <= i < |steps| :: steps[i].b }

  /** Blocks of one chain; sync comes to a block after all blocks met before it. */
  ghost predicate Legal(steps: seq<Step>) {
    && OneChain(Met(steps))
    && forall i, j :: 0 <= j < i < |steps| && steps[i].SyncBlock? ==> steps[j].b.h < steps[i].b.h
  }

  // ---------------------------------------------------------------- one block

  lemma {:induction false} NothingApplies(l: Life, h: nat, es: seq<Event>)
    requires !Applies(l, h, es)
    ensures HealEvents(l, h, es) == l
  {
    if es != [] { NothingApplies(l, h, es[..|es| - 1]); }
  }

  lemma {:induction false} SomethingApplies(h: nat, es: seq<Event>)
    requires h > 0 && es != []
    ensures Applies(Stub, h, es)
  {
    if |es| > 1 { SomethingApplies(h, es[..|es| - 1]); }
  }

  lemma {:induction false} SyncIsOverwrite(l: Life, h: nat, es: seq<Event>)
    ensures SyncEvents(Some(l), h, es) == Some(OverwriteEvents(l, h, es))
  {
    if es != [] { SyncIsOverwrite(l, h, es[..|es| - 1]); }
  }

  lemma {:induction false} SyncWithoutRow(h: nat, es: seq<Event>)
    requires h > 0
    ensures SyncEvents(None, h, es) == if Creates(es) then Some(HealedBy(Stub, h, es)) else None
  {
    if es != [] {
      var n := |es| - 1;
      SyncWithoutRow(h, es[..n]);
      assert es == es[..n] + [es[n]];
    }
  }

  // ---------------------------------------------------------------- what the counted blocks amount to

  ghost predicate Eventful(s: set<Block>) { exists b :: b in s && b.events != [] }

  /** There is a row exactly when a counted block has events, and it is their outcome. */
  ghost predicate RowOk(row: Option<Life>, s: set<Block>) {
    (row.Some? <==> Eventful(s)) && Outcome(s, LifeOf(row))
  }

  lemma HealedRowOk(row: Option<Life>, s: set<Block>, b: Block)
    requires RowOk(row, s) && OneChain(s + {b})
    ensures RowOk(HealRow(row, b.h, b.events), s + {b})
  {
    hide Outcome, OneChain;
    var l := LifeOf(row);
    assert b in s + {b} && b.h > 0 by { ChainHeight(s + {b}, b); }
    HealedInOneGo(l, b.h, b.events);
    HealedOutcome(s, l, b);
    if !Applies(l, b.h, b.events) {
      NothingApplies(l, b.h, b.events);
      if row.None? && b.events != [] { SomethingApplies(b.h, b.events); }
    }
    EventfulMore(s, b);
  }

  lemma ChainHeight(s: set<Block>, b: Block)
    requires OneChain(s) && b in s
    ensures b.h > 0
  {
  }

  lemma EventfulMore(s: set<Block>, b: Block)
    ensures Eventful(s + {b}) <==> Eventful(s) || b.events != []
  {
    if Eventful(s) {
      var x :| x in s && x.events != [];
      assert x in s + {b};
    }
    assert b in s + {b};
  }

  lemma SyncedRowOk(row: Option<Life>, s: set<Block>, b: Block)
    requires RowOk(row, s) && OneChain(s + {b}) && forall x :: x in s ==> x.h < b.h
    ensures RowOk(SyncEvents(row, b.h, b.events), if Dropped(row, b) then s else s + {b})
  {
    hide Outcome, OneChain;
    assert b in s + {b};
    ChainHeight(s + {b}, b);
    EventfulMore(s, b);
    var l := LifeOf(row);
    HealedOutcome(s, l, b);
    if row.Some? {
      OutcomeBefore(s, l, b.h);
      SyncIsOverwrite(l, b.h, b.events);
      OverwrittenInOneGo(l, b.h, b.events);
    } else {
      SyncWithoutRow(b.h, b.events);
    }
  }

  lemma MetNext(steps: seq<Step>)
    requires steps != []
    ensures Met(steps) == Met(steps[..|steps| - 1]) + {steps[|steps| - 1].b}
  {
    var n := |steps| - 1;
    forall b | b in Met(steps) ensures b in Met(steps[..n]) + {steps[n].b} {
      var i :| 0 <= i < |steps| && steps[i].b == b;
      if i < n { assert steps[..n][i].b == b; }
    }
    forall b | b in Met(steps[..n]) ensures b in Met(steps) {
      var i :| 0 <= i < n && steps[..n][i].b == b;
      assert steps[i].b == b;
    }
  }

  lemma LegalBefore(steps: seq<Step>)
    requires Legal(steps) && steps != []
    ensures var n := |steps| - 1;
            && Legal(steps[..n])
            && (steps[n].SyncBlock? ==> forall x :: x in Met(steps[..n]) ==> x.h < steps[n].b.h)
  {
    MetNext(steps);
    var n := |steps| - 1;
    forall i, j | 0 <= j < i < n && steps[..n][i].SyncBlock? ensures steps[..n][j].b.h < steps[..n][i].b.h {
      assert steps[j].b.h < steps[i].b.h;
    }
    forall x | x in Met(steps[..n]) ensures steps[n].SyncBlock? ==> x.h < steps[n].b.h {
      var j :| 0 <= j < n && steps[..n][j].b == x;
      assert steps[j].b == x;
    }
  }

  /** After every run of syncs and heals the row is the outcome of the blocks that count. */
  lemma {:induction false} RowIsOutcome(steps: seq<Step>)
    requires Legal(steps)
    ensures Counted(steps) <= Met(steps) && RowOk(Row(steps), Counted(steps))
  {
    hide OneChain, RowOk, Legal, Met;
    if steps == [] {
      NoSteps();
    } else {
      var n := |steps| - 1;
      LegalBefore(steps);
      MetNext(steps);
      RowIsOutcome(steps[..n]);
      SubChain(steps, Counted(steps[..n]) + {steps[n].b});
      match steps[n]
      case SyncBlock(b) =>
        SyncedRowOk(Row(steps[..n]), Counted(steps[..n]), b);
        assert Counted(steps[..n]) + {} == Counted(steps[..n]);
      case HealBlock(b) => HealedRowOk(Row(steps[..n]), Counted(steps[..n]), b);
    }
  }

  lemma NoSteps()
    ensures RowOk(None, {})
  {
  }

  lemma SubChain(steps: seq<Step>, s: set<Block>)
    requires Legal(steps) && s <= Met(steps)
    ensures OneChain(s)
  {
  }

  // ---------------------------------------------------------------- against a sync of the whole chain

  function Syncs(chain: seq<Block>): (steps: seq<Step>)
    ensures |steps| == |chain| && forall i :: 0 <= i < |chain| ==> steps[i] == SyncBlock(chain[i])
  {
    seq(|chain|, i requires 0 <= i < |chain| => SyncBlock(chain[i]))
  }

  lemma SyncsLegal(chain: seq<Block>)
    requires Ascending(chain)
    ensures Met(Syncs(chain)) == SetOf(chain) && Legal(Syncs(chain))
  {
    AscendingIsChain(chain);
    forall b | b in SetOf(chain) ensures b in Met(Syncs(chain)) {
      var i :| 0 <= i < |chain| && chain[i] == b;
      assert Syncs(chain)[i].b == b;
    }
  }

  ghost predicate HasCreation(s: set<Block>) { exists b :: b in s && Creates(b.events) }

  lemma {:induction false} CreationsCount(steps: seq<Step>)
    ensures forall b :: b in Met(steps) && Creates(b.events) ==> b in Counted(steps)
  {
    if steps != [] {
      MetNext(steps);
      CreationsCount(steps[..|steps| - 1]);
    }
  }

  /** Without a row there was no creation. */
  lemma NoRowNoCreation(steps: seq<Step>)
    requires Legal(steps) && Row(steps).None?
    ensures !HasCreation(Met(steps))
  {
    RowIsOutcome(steps);
    CreationsCount(steps);
  }

  /** What a sync in order drops comes before every creation. */
  lemma {:induction false} DroppedFirst(steps: seq<Step>, d: Block, c: Block)
    requires Legal(steps) && forall i :: 0 <= i < |steps| ==> steps[i].SyncBlock?
    requires d in Met(steps) && d !in Counted(steps) && c in Met(steps) && Creates(c.events)
    ensures d.h < c.h
  {
    var n := |steps| - 1;
    MetNext(steps);
    LegalBefore(steps);
    CreationsCount(steps);
    if c in Met(steps[..n]) {
      CreationsCount(steps[..n]);
      if Row(steps[..n]).None? { NoRowNoCreation(steps[..n]); }
      DroppedFirst(steps[..n], d, c);
    }
  }

  lemma {:induction false} OnlyDropped(steps: seq<Step>)
    requires (forall i :: 0 <= i < |steps| ==> steps[i].SyncBlock?) && !HasCreation(Met(steps))
    ensures Row(steps) == None && (Legal(steps) ==> !Eventful(Counted(steps)))
  {
    if steps != [] {
      var n := |steps| - 1;
      MetNext(steps);
      OnlyDropped(steps[..n]);
      assert steps[n].b in Met(steps);
      NothingSynced(steps[n].b.h, steps[n].b.events);
    }
    if Legal(steps) { RowIsOutcome(steps); }
  }

  lemma {:induction false} NothingSynced(h: nat, es: seq<Event>)
    requires !Creates(es)
    ensures SyncEvents(None, h, es) == None
  {
    if es != [] {
      var n := |es| - 1;
      assert es[n] in es;
      NothingSynced(h, es[..n]);
    }
  }

  /** The last block in which something happens. */
  ghost predicate LastEventful(s: set<Block>, b: Block) {
    b in s && b.events != [] && forall x :: x in s && x.events != [] ==> x.h <= b.h
  }

  lemma SameLastCreation(s: set<Block>, part: set<Block>, l: Life, l': Life)
    requires part <= s && forall b :: b in s && Creates(b.events) ==> b in part
    requires Outcome(s, l) && Outcome(part, l')
    ensures l.created == l'.created
  {
  }

  /** With all creations among them, some of the blocks have the outcome of all exactly when the last one counts. */
  lemma PartOutcome(s: set<Block>, part: set<Block>, l: Life, l': Life, b: Block)
    requires OneChain(s) && part <= s && forall x :: x in s && Creates(x.events) ==> x in part
    requires HasCreation(s) && Outcome(s, l) && Outcome(part, l') && LastEventful(s, b)
    ensures l == l' <==> b in part
  {
    SameLastCreation(s, part, l, l');
    var c :| c in s && Creates(c.events);
    assert c.h <= l.created && l.created > 0;
    if b.h > l.created {
      assert l.destructed == b.h;
      if b in part { assert l'.destructed == b.h; }
    } else {
      AtLastCreation(s, part, l, l', b);
    }
  }

  lemma AtLastCreation(s: set<Block>, part: set<Block>, l: Life, l': Life, b: Block)
    requires OneChain(s) && part <= s && forall x :: x in s && Creates(x.events) ==> x in part
    requires Outcome(s, l) && Outcome(part, l') && LastEventful(s, b) && l.created == l'.created > 0 && b.h <= l.created
    ensures b in part && l == l'
  {
    var k :| k in s && k.h == l.created && Creates(k.events);
    assert k == b;
    assert l.destructed == l'.destructed;
  }

  // ---------------------------------------------------------------- the condition, from the steps alone

  /** A step that makes a row, whatever there was before: a healed block with events, or a synced creation. */
  predicate Opens(x: Step) { x.b.events != [] && (x.HealBlock? || Creates(x.b.events)) }

  /** One of the first `n` steps opens. */
  ghost predicate OpenedBy(steps: seq<Step>, n: nat) { exists j :: 0 <= j < n && j < |steps| && Opens(steps[j]) }

  /** Step `i` has its block noted: it opens, or an earlier step did. */
  ghost predicate Noted(steps: seq<Step>, i: nat) { OpenedBy(steps, i + 1) }

  ghost predicate BlockNoted(steps: seq<Step>, b: Block) {
    exists i :: 0 <= i < |steps| && steps[i].b == b && Noted(steps, i)
  }

  lemma OpenedNext(steps: seq<Step>, n: nat)
    requires n < |steps|
    ensures OpenedBy(steps, n + 1) <==> OpenedBy(steps[..n], n) || Opens(steps[n])
  {
    if OpenedBy(steps, n + 1) && !Opens(steps[n]) {
      var j :| 0 <= j < n + 1 && j < |steps| && Opens(steps[j]);
      assert steps[..n][j] == steps[j];
    }
    if OpenedBy(steps[..n], n) {
      var j :| 0 <= j < n && Opens(steps[..n][j]);
      assert steps[j] == steps[..n][j];
    }
  }

  /** There is a row exactly when a step opened. */
  lemma {:induction false} RowIsOpened(steps: seq<Step>)
    requires Legal(steps)
    ensures Row(steps).Some? <==> OpenedBy(steps, |steps|)
  {
    if steps != [] {
      var n := |steps| - 1;
      LegalBefore(steps);
      RowIsOpened(steps[..n]);
      OpenedNext(steps, n);
      RowIsOutcome(steps[..n]);
      StepOpens(Row(steps[..n]), steps[n]);
      assert steps[n].b in Met(steps);
      ChainHeight(Met(steps), steps[n].b);
    }
  }

  lemma StepOpens(row: Option<Life>, x: Step)
    ensures x.b.h > 0 ==> (StepOn(row, x).Some? <==> row.Some? || Opens(x))
  {
    if x.b.h > 0 {
      match x
      case SyncBlock(b) =>
        SyncWithoutRow(b.h, b.events);
        if row.Some? { SyncIsOverwrite(row.value, b.h, b.events); }
      case HealBlock(b) => if row.None? && b.events != [] { SomethingApplies(b.h, b.events); }
    }
  }

  /** A block with events counts exactly when a step has it noted. */
  lemma {:induction false} CountedIsNoted(steps: seq<Step>, b: Block)
    requires Legal(steps) && b.events != []
    ensures b in Counted(steps) <==> BlockNoted(steps, b)
  {
    if steps != [] {
      var n := |steps| - 1;
      LegalBefore(steps);
      CountedIsNoted(steps[..n], b);
      RowIsOpened(steps[..n]);
      OpenedNext(steps, n);
      NotedBefore(steps, b);
      hide Legal, Row, OpenedBy;
      assert steps[n].b == b && Noted(steps, n) ==> BlockNoted(steps, b);
    }
  }

  lemma NotedBefore(steps: seq<Step>, b: Block)
    requires steps != []
    ensures var n := |steps| - 1;
            BlockNoted(steps, b) <==> BlockNoted(steps[..n], b) || (steps[n].b == b && Noted(steps, n))
  {
    var n := |steps| - 1;
    if BlockNoted(steps, b) {
      var i :| 0 <= i < |steps| && steps[i].b == b && Noted(steps, i);
      if i < n {
        SameOpened(steps, i + 1, n);
        assert steps[..n][i].b == b && Noted(steps[..n], i);
      }
    }
    if BlockNoted(steps[..n], b) {
      var i :| 0 <= i < n && steps[..n][i].b == b && Noted(steps[..n], i);
      SameOpened(steps, i + 1, n);
      assert steps[i].b == b && Noted(steps, i);
    }
  }

  lemma SameOpened(steps: seq<Step>, i: nat, n: nat)
    requires i <= n <= |steps|
    ensures OpenedBy(steps[..n], i) <==> OpenedBy(steps, i)
  {
    if OpenedBy(steps, i) {
      var j :| 0 <= j < i && Opens(steps[j]);
      assert steps[..n][j] == steps[j];
    }
    if OpenedBy(steps[..n], i) {
      var j :| 0 <= j < i && Opens(steps[..n][j]);
      assert steps[j] == steps[..n][j];
    }
  }

  /** When the row is what a sync of the whole chain leaves: the last block with events is noted, or no healed block has
      events where no contract was created. */
  ghost predicate Faithful(steps: seq<Step>) {
    if HasCreation(Met(steps)) then forall b :: LastEventful(Met(steps), b) ==> BlockNoted(steps, b)
    else forall i :: 0 <= i < |steps| && steps[i].HealBlock? ==> steps[i].b.events == []
  }

  lemma NothingOpened(steps: seq<Step>)
    requires !HasCreation(Met(steps))
    ensures OpenedBy(steps, |steps|) <==> exists i :: 0 <= i < |steps| && steps[i].HealBlock? && steps[i].b.events != []
  {
    forall i | 0 <= i < |steps| ensures !Creates(steps[i].b.events) { assert steps[i].b in Met(steps); }
  }

  /** Synced blocks mixed with missed blocks healed in any order leave what syncing all of them in order leaves exactly
      when the last block with events is noted: it creates or is healed itself, or a step before it does with events of
      its own. Where there is no creation, it is exactly when no healed block has events. */
  lemma MixedIsSync(steps: seq<Step>, chain: seq<Block>)
    requires Legal(steps) && Ascending(chain) && Met(steps) == SetOf(chain)
    ensures Row(steps) == Row(Syncs(chain)) <==> Faithful(steps)
  {
    hide Outcome, OneChain, Legal, Met, Counted, Row, Ascending, BlockNoted, OpenedBy, Creates;
    var s, syncs := SetOf(chain), Syncs(chain);
    SyncsLegal(chain);
    RowIsOutcome(steps);
    RowIsOutcome(syncs);
    if HasCreation(s) {
      AllRowsSome(steps, s);
      AllRowsSome(syncs, s);
      AscendingIsChain(chain);
      OverwriteOutcome(chain);
      var whole := OverwriteBlocks(Stub, chain);
      CreationIsEvent(s);
      var b := LastOf(chain);
      CreationsCount(steps);
      CreationsCount(syncs);
      PartOutcome(s, Counted(steps), whole, Row(steps).value, b);
      PartOutcome(s, Counted(syncs), whole, Row(syncs).value, b);
      SyncCountsLast(syncs, s, b);
      OneLast(s, b);
      CountedIsNoted(steps, b);
    } else {
      OnlyDropped(syncs);
      RowIsOpened(steps);
      NothingOpened(steps);
    }
  }

  lemma CreationIsEvent(s: set<Block>)
    requires HasCreation(s)
    ensures Eventful(s)
  {
  }

  lemma AllRowsSome(steps: seq<Step>, s: set<Block>)
    requires Legal(steps) && Met(steps) == s && HasCreation(s)
    ensures Row(steps).Some?
  {
    if Row(steps).None? { NoRowNoCreation(steps); }
  }

  lemma SyncCountsLast(steps: seq<Step>, s: set<Block>, b: Block)
    requires Legal(steps) && (forall i :: 0 <= i < |steps| ==> steps[i].SyncBlock?) && Met(steps) == s
    requires HasCreation(s) && LastEventful(s, b)
    ensures b in Counted(steps)
  {
    var c :| c in s && Creates(c.events);
    if b !in Counted(steps) { DroppedFirst(steps, b, c); }
  }

  lemma OneLast(s: set<Block>, b: Block)
    requires OneChain(s) && LastEventful(s, b)
    ensures forall x :: LastEventful(s, x) ==> x == b
  {
  }

  lemma {:induction false} LastOf(chain: seq<Block>) returns (b: Block)
    requires Ascending(chain) && Eventful(SetOf(chain))
    ensures LastEventful(SetOf(chain), b)
    decreases |chain|
  {
    var n := |chain| - 1;
    AscendingIsChain(chain);
    if chain[n].events != [] {
      b := chain[n];
    } else {
      EventfulMore(SetOf(chain[..n]), chain[n]);
      b := LastOf(chain[..n]);
    }
  }

  // ---------------------------------------------------------------- where it fails

  const CREATING := Block(1, [Created])
  const DESTROYING := Block(2, [Destroyed])

  /** A destruction synced while the creation before it is missed is lost: healing the creation leaves the contract
      alive. */
  lemma DestructionLost()
    ensures var steps, chain := [SyncBlock(DESTROYING), HealBlock(CREATING)], [CREATING, DESTROYING];
            && Legal(steps) && Ascending(chain) && Met(steps) == SetOf(chain)
            && Row(steps) == Some(Life(1, 0)) && Row(Syncs(chain)) == Some(Life(1, 2))
  {
    var steps, chain := [SyncBlock(DESTROYING), HealBlock(CREATING)], [CREATING, DESTROYING];
    assert steps[0].b == DESTROYING && steps[1].b == CREATING;
    assert Met(steps) == {CREATING, DESTROYING} && SetOf(chain) == {CREATING, DESTROYING};
    TwoSteps(steps[0], steps[1]);
    TwoSteps(SyncBlock(CREATING), SyncBlock(DESTROYING));
    assert Syncs(chain) == [SyncBlock(CREATING), SyncBlock(DESTROYING)];
    OneEvent();
  }

  lemma TwoSteps(x: Step, y: Step)
    ensures Row([x, y]) == StepOn(StepOn(None, x), y)
  {
    assert [x][..0] == [];
    assert Row([x]) == StepOn(None, x);
    assert [x, y][..1] == [x];
  }

  lemma OneEvent()
    ensures forall row, h, e :: SyncEvents(row, h, [e]) == SyncEvent(row, h, e)
    ensures forall l, h, e :: HealEvents(l, h, [e]) == Heal(l, h, e) && (Applies(l, h, [e]) <==> AppliesTo(l, h, e))
  {
    forall row, h, e ensures SyncEvents(row, h, [e]) == SyncEvent(row, h, e) { assert [e][..0] == []; }
    forall l, h, e ensures HealEvents(l, h, [e]) == Heal(l, h, e) && (Applies(l, h, [e]) <==> AppliesTo(l, h, e)) {
      assert [e][..0] == [];
    }
  }
}
