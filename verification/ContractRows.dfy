// What readers of contract infos may rely on for the contract row itself, which a reader writes back when it learns the
// token standard from context.
module ContractRows {
  import opened Types
  import opened ContractCache
  import opened ContractRace

  /** What a row holds beside its token standard; None when there is no row. */
  function RestOf(s: State, k: AddrDesc): Option<int> {
    if k in s.contracts then Some(s.contracts[k].rest) else None
  }

  /** The rows a step removes or rolls back. */
  function RowsChanged(th: Thread): set<AddrDesc> {
    match th
    case PurgeDelete(k) => {k}
    case DropCommit(_, rollback) => rollback.Keys
    case _ => {}
  }

  /** A reader stands between reading the row of `k` and writing it back. */
  ghost predicate Midway(s: State, k: AddrDesc) {
    exists t :: t in s.threads && s.threads[t].PutRow? && s.threads[t].k == k
  }

  /** The row of `k` is not removed or rolled back while a reader is midway with it. */
  ghost predicate CleanStep(s: State, a: Action, k: AddrDesc) {
    a.Go? && a.t in s.threads && k in RowsChanged(s.threads[a.t]) ==> !Midway(s, k)
  }

  ghost predicate CleanRun(s: State, capacity: nat, acts: seq<Action>, k: AddrDesc) {
    acts != [] ==>
      && CleanRun(s, capacity, acts[..|acts| - 1], k)
      && CleanStep(Run(s, capacity, acts[..|acts| - 1]), acts[|acts| - 1], k)
  }

  // ---------------------------------------------------------------- what holds for one row

  /** While the counters stand at `r`, `p` and nothing is pending for `k`, `rest` is what is stored. */
  ghost predicate RowCurrent(s: State, k: AddrDesc, r: nat, p: nat, rest: Option<int>) {
    Sampled(s, r, p) && (r == s.reorgGen && p == s.protocolGen && !Pending(s.writes, k) ==> RestOf(s, k) == rest)
  }

  /** What a thread has seen of the row of `k`, if anything. */
  ghost predicate RowThreadOk(s: State, th: Thread, k: AddrDesc) {
    match th
    case PutRow(x, r, p, info, at) => x == k ==> Sampled(s, r, p) && RestOf(s, k) == Some(info.rest)
    case ReadProtocol(x, r, p, info, at) => x == k ==> RowCurrent(s, k, r, p, Some(info.rest))
    case AddEntry(x, r, p, v) => x == k ==> RowCurrent(s, k, r, p, Some(v.info.rest))
    case Answer(x, r, p, v, hit) => x == k ==> RowCurrent(s, k, r, p, Shown(v))
    case _ => true
  }

  /** What an answer shows of the row. */
  function Shown(v: Option<Seen>): Option<int> { if v.Some? then Some(v.value.info.rest) else None }

  ghost predicate RowEntryOk(s: State, k: AddrDesc) {
    k in s.cache.items ==>
      var e := s.cache.items[k];
      RowCurrent(s, k, e.reorgGen, e.protocolGen, Some(e.value.info.rest))
  }

  ghost predicate RowOk(s: State, k: AddrDesc) {
    RowEntryOk(s, k) && forall t :: t in s.threads ==> RowThreadOk(s, s.threads[t], k)
  }

  /** What a step does to the row: it does not change unannounced. */
  ghost predicate RowAdvances(s: State, s': State, k: AddrDesc) {
    && s.reorgGen <= s'.reorgGen && s.protocolGen <= s'.protocolGen
    && (s'.reorgGen == s.reorgGen && s'.protocolGen == s.protocolGen && !Pending(s'.writes, k) ==>
          !Pending(s.writes, k) && RestOf(s', k) == RestOf(s, k))
  }

  lemma RowStays(s: State, s': State, k: AddrDesc, r: nat, p: nat, rest: Option<int>)
    requires RowCurrent(s, k, r, p, rest) && RowAdvances(s, s', k)
    ensures RowCurrent(s', k, r, p, rest)
  {
  }

  lemma PendingStays(s: State, s': State, k: AddrDesc)
    requires |s.writes| <= |s'.writes| && (forall i :: 0 <= i < |s.writes| ==> s'.writes[i] == s.writes[i])
    requires Pending(s.writes, k)
    ensures Pending(s'.writes, k)
  {
    var i :| 0 <= i < |s.writes| && s.writes[i].bump.None? && k in s.writes[i].keys;
    assert s'.writes[i] == s.writes[i];
  }

  lemma StepChanges(s: State, capacity: nat, th: Thread, k: AddrDesc)
    requires RowThreadOk(s, th, k) && RestOf(Move(s, capacity, th).0, k) != RestOf(s, k)
    ensures k in RowsChanged(th)
  {
  }

  lemma ChangesPending(s: State, capacity: nat, th: Thread, k: AddrDesc)
    requires k in RowsChanged(th)
    ensures Pending(Move(s, capacity, th).0.writes, k)
  {
    var s' := Move(s, capacity, th).0;
    assert k in s'.writes[|s.writes|].keys && s'.writes[|s.writes|].bump.None?;
  }

  lemma MoveRow(s: State, capacity: nat, th: Thread, k: AddrDesc)
    requires ThreadOk(s, th) && RowThreadOk(s, th, k)
    ensures RowAdvances(s, Move(s, capacity, th).0, k)
  {
    var s' := Move(s, capacity, th).0;
    MoveAdvances(s, capacity, th);
    hide Move, ThreadOk, RowThreadOk, Pending, RestOf, RowsChanged;
    if s'.reorgGen == s.reorgGen && s'.protocolGen == s.protocolGen && !Pending(s'.writes, k) {
      if Pending(s.writes, k) { PendingStays(s, s', k); }
      if RestOf(s', k) != RestOf(s, k) {
        StepChanges(s, capacity, th, k);
        ChangesPending(s, capacity, th, k);
      }
    }
  }

  // ---------------------------------------------------------------- every clean step

  /** A reader that is midway keeps its row; other threads lose nothing. */
  lemma RowThreadStays(s: State, s': State, th: Thread, capacity: nat, mover: Thread, k: AddrDesc)
    requires RowThreadOk(s, th, k) && RowThreadOk(s, mover, k)
    requires s' == Move(s, capacity, mover).0 && RowAdvances(s, s', k)
    requires th.PutRow? && th.k == k ==> k !in RowsChanged(mover)
    ensures RowThreadOk(s', th, k)
  {
    hide Move, RowAdvances, RestOf, RowsChanged, RowCurrent, Shown;
    match th {
      case PutRow(x, r, p, info, at) =>
        CountersGrow(s, s', k);
        if x == k && RestOf(s', k) != RestOf(s, k) { StepChanges(s, capacity, mover, k); }
      case ReadProtocol(x, r, p, info, at) => if x == k { RowStays(s, s', k, r, p, Some(info.rest)); }
      case AddEntry(x, r, p, v) => if x == k { RowStays(s, s', k, r, p, Some(v.info.rest)); }
      case Answer(x, r, p, v, hit) => if x == k { RowStays(s, s', k, r, p, Shown(v)); }
      case _ =>
    }
  }

  lemma CountersGrow(s: State, s': State, k: AddrDesc)
    requires RowAdvances(s, s', k)
    ensures s.reorgGen <= s'.reorgGen && s.protocolGen <= s'.protocolGen
  {
  }

  lemma MovedRowThread(s: State, capacity: nat, th: Thread, k: AddrDesc)
    requires ThreadOk(s, th) && RowThreadOk(s, th, k) && RowEntryOk(s, k) && Ok(s.cache, capacity)
    ensures var (s', th') := Move(s, capacity, th); RowThreadOk(s', th', k)
  {
    var (s', th') := Move(s, capacity, th);
    MoveRow(s, capacity, th, k);
    match th {
      case Look(x, c, r, p) => LookupOk(s.cache, capacity, x, r, p);
      case AddEntry(x, r, p, v) => if x == k { RowStays(s, s', k, r, p, Some(v.info.rest)); }
      case _ =>
    }
  }

  lemma MoveRowEntry(s: State, capacity: nat, th: Thread, k: AddrDesc)
    requires ThreadOk(s, th) && RowThreadOk(s, th, k) && RowEntryOk(s, k) && Ok(s.cache, capacity) && capacity > 0
    ensures RowEntryOk(Move(s, capacity, th).0, k)
  {
    var s' := Move(s, capacity, th).0;
    MoveRow(s, capacity, th, k);
    match th {
      case Look(x, c, r, p) => LookupOk(s.cache, capacity, x, r, p);
      case AddEntry(x, r, p, v) =>
        InsertOk(s.cache, capacity, x, Entry(v, r, p));
        if x == k { RowStays(s, s', k, r, p, Some(v.info.rest)); }
      case _ =>
    }
    if k in s.cache.items && k in s'.cache.items && s.cache.items[k] == s'.cache.items[k] {
      var e := s.cache.items[k];
      RowStays(s, s', k, e.reorgGen, e.protocolGen, Some(e.value.info.rest));
    }
  }

  /** The row does not depend on the clock and the threads. */
  lemma RowReclocked(s: State, s': State, k: AddrDesc)
    requires s' == s.(threads := s'.threads, clock := s'.clock)
    ensures forall th :: RowThreadOk(s, th, k) ==> RowThreadOk(s', th, k)
    ensures RowEntryOk(s, k) ==> RowEntryOk(s', k)
  {
  }

  lemma ActKeepsRow(s: State, capacity: nat, a: Action, k: AddrDesc)
    requires Safe(s, capacity) && capacity > 0 && RowOk(s, k) && CleanStep(s, a, k)
    ensures RowOk(Act(s, capacity, a), k)
  {
    hide RowThreadOk, RowEntryOk, Move, ThreadOk, RowsChanged, EntriesOk, Ok;
    var now := Act(s, capacity, a);
    if a.Go? && a.t in s.threads {
      var th := s.threads[a.t];
      var s', th' := Move(s, capacity, th).0, Move(s, capacity, th).1;
      assert ThreadOk(s, th);
      MoveRow(s, capacity, th, k);
      MoveRowEntry(s, capacity, th, k);
      MovedRowThread(s, capacity, th, k);
      RowReclocked(s', now, k);
      forall t | t in now.threads ensures RowThreadOk(now, now.threads[t], k) {
        if t != a.t {
          assert s.threads[t].PutRow? && s.threads[t].k == k ==> Midway(s, k);
          RowThreadStays(s, s', s.threads[t], capacity, th, k);
        }
      }
    } else {
      RowReclocked(s, now, k);
      StartedRowOk(s, a, k);
    }
  }

  lemma StartedRowOk(s: State, a: Action, k: AddrDesc)
    ensures a.Begin? ==> RowThreadOk(s, Started(a.c), k)
  {
  }

  lemma {:induction false} RunKeepsRow(contracts: map<AddrDesc, Info>, protocols: map<AddrDesc, Payload>, capacity: nat,
                                       acts: seq<Action>, k: AddrDesc)
    requires capacity > 0 && CleanRun(Init(contracts, protocols), capacity, acts, k)
    ensures RowOk(Run(Init(contracts, protocols), capacity, acts), k)
  {
    if acts != [] {
      var n := |acts| - 1;
      RunKeepsRow(contracts, protocols, capacity, acts[..n], k);
      RunIsSafe(contracts, protocols, capacity, acts[..n]);
      hide RowOk, Safe, CleanStep, Act, Owned;
      ActKeepsRow(Run(Init(contracts, protocols), capacity, acts[..n]), capacity, acts[n], k);
    }
  }

  /** When the row of `k` is not removed or rolled back while a reader is midway with it: an answer for `k` shows, but
      for the token standard, the stored row, or that there is none, while its counters stand and no writer is between
      commit and bump. What happens to other rows does not matter. */
  lemma RowsAreFresh(contracts: map<AddrDesc, Info>, protocols: map<AddrDesc, Payload>, capacity: nat,
                     acts: seq<Action>, t: nat)
    requires capacity > 0
    ensures var s := Run(Init(contracts, protocols), capacity, acts);
            t in s.threads && s.threads[t].Answer? ==>
              var a := s.threads[t];
              CleanRun(Init(contracts, protocols), capacity, acts, a.k) ==>
                a.r == s.reorgGen && a.p == s.protocolGen && Quiet(s) ==> RestOf(s, a.k) == Shown(a.result)
  {
    var s := Run(Init(contracts, protocols), capacity, acts);
    hide Run, Init, RestOf, CleanRun, Shown;
    if t in s.threads && s.threads[t].Answer? && CleanRun(Init(contracts, protocols), capacity, acts, s.threads[t].k) {
      var a := s.threads[t];
      RunKeepsRow(contracts, protocols, capacity, acts, a.k);
      RunIsSafe(contracts, protocols, capacity, acts);
      if Quiet(s) { QuietNotPending(s, a.k); }
      assert RowThreadOk(s, a, a.k);
    }
  }

  lemma QuietNotPending(s: State, k: AddrDesc)
    requires Owned(s) && Quiet(s)
    ensures !Pending(s.writes, k)
  {
  }

  // ---------------------------------------------------------------- when a row that is gone comes back

  /** The disconnect a thread is about to commit rolls back `k`. */
  predicate RollsBack(th: Thread, k: AddrDesc) {
    match th
    case DropLock(_, rollback) => k in rollback
    case DropClear(_, rollback, _) => k in rollback
    case DropCommit(_, rollback) => k in rollback
    case _ => false
  }

  ghost predicate NoRollbackRunning(s: State, k: AddrDesc) {
    forall t :: t in s.threads ==> !RollsBack(s.threads[t], k)
  }

  /** No disconnect that would roll back `k` begins. */
  ghost predicate NoRollback(acts: seq<Action>, k: AddrDesc) {
    forall i :: 0 <= i < |acts| && acts[i].Begin? ==> !RollsBack(Started(acts[i].c), k)
  }

  /** There is no row of `k`, and nobody is about to write one. */
  ghost predicate Gone(s: State, k: AddrDesc) { k !in s.contracts && !Midway(s, k) && NoRollbackRunning(s, k) }

  lemma MoveGone(s: State, capacity: nat, th: Thread, k: AddrDesc)
    requires k !in s.contracts && !(th.PutRow? && th.k == k) && !RollsBack(th, k)
    ensures var m := Move(s, capacity, th);
            k !in m.0.contracts && !(m.1.PutRow? && m.1.k == k) && !RollsBack(m.1, k)
  {
  }

  lemma ActKeepsGone(s: State, capacity: nat, a: Action, k: AddrDesc)
    requires Gone(s, k) && (a.Begin? ==> !RollsBack(Started(a.c), k))
    ensures Gone(Act(s, capacity, a), k)
  {
    hide Move, RollsBack;
    var now := Act(s, capacity, a);
    if a.Go? && a.t in s.threads {
      MoveGone(s, capacity, s.threads[a.t], k);
    } else if a.Begin? && a.t !in s.threads {
      StartedNotMidway(a.c);
    }
    forall t | t in now.threads
      ensures !(now.threads[t].PutRow? && now.threads[t].k == k) && !RollsBack(now.threads[t], k)
    {
      if t in s.threads && now.threads[t] == s.threads[t] { assert !RollsBack(s.threads[t], k); }
    }
  }

  lemma StartedNotMidway(c: Call)
    ensures !Started(c).PutRow?
  {
  }

  lemma {:induction false} GoneStaysGone(s: State, capacity: nat, acts: seq<Action>, k: AddrDesc)
    requires Gone(s, k) && NoRollback(acts, k)
    ensures Gone(Run(s, capacity, acts), k)
  {
    if acts != [] {
      var n := |acts| - 1;
      GoneStaysGone(s, capacity, acts[..n], k);
      ActKeepsGone(Run(s, capacity, acts[..n]), capacity, acts[n], k);
    }
  }

  lemma OneStep(s: State, capacity: nat, t: nat)
    ensures Run(s, capacity, [Go(t)]) == Act(s, capacity, Go(t))
  {
    assert [Go(t)][..0] == [];
  }

  /** A step that removes or rolls back a row while a reader is midway with it is undone by the reader's next step. */
  lemma MidwayBringsBack(s: State, capacity: nat, remover: nat, reader: nat)
    requires remover in s.threads && reader in s.threads && s.threads[reader].PutRow?
    requires s.threads[reader].k in RowsChanged(s.threads[remover])
    ensures var k, info := s.threads[reader].k, s.threads[reader].info;
            var changed := Act(s, capacity, Go(remover));
            && (s.threads[remover].PurgeDelete? ==> k !in changed.contracts)
            && RestOf(Act(changed, capacity, Go(reader)), k) == Some(info.rest)
  {
    hide Drop, Lookup, Insert;
    var changed := Act(s, capacity, Go(remover));
    assert changed.threads[reader] == s.threads[reader];
  }

  /** A row that is gone stays gone, whatever is done but a rollback of it, exactly when no reader is midway with it. */
  lemma GoneExactly(s: State, capacity: nat, k: AddrDesc)
    requires k !in s.contracts && NoRollbackRunning(s, k)
    ensures !Midway(s, k) <==> forall acts :: NoRollback(acts, k) ==> k !in Run(s, capacity, acts).contracts
  {
    if Midway(s, k) {
      var t :| t in s.threads && s.threads[t].PutRow? && s.threads[t].k == k;
      OneStep(s, capacity, t);
      assert NoRollback([Go(t)], k);
      assert k in Run(s, capacity, [Go(t)]).contracts;
    } else {
      forall acts | NoRollback(acts, k) ensures k !in Run(s, capacity, acts).contracts {
        GoneStaysGone(s, capacity, acts, k);
      }
    }
  }

  // ---------------------------------------------------------------- when a row stands

  /** Every reader that is midway with `k` holds what is stored. */
  ghost predicate MidwayAgree(s: State, k: AddrDesc) {
    forall t :: t in s.threads && s.threads[t].PutRow? && s.threads[t].k == k ==>
        RestOf(s, k) == Some(s.threads[t].info.rest)
  }

  predicate SameCounters(s: State, s': State) { s'.reorgGen == s.reorgGen && s'.protocolGen == s.protocolGen }

  /** Since `s` nothing was committed and the row stands, or something was and is not counted yet, or the counters
      moved. */
  ghost predicate Stands(s: State, s': State, k: AddrDesc) {
    && s.reorgGen <= s'.reorgGen && s.protocolGen <= s'.protocolGen
    && (SameCounters(s, s') ==>
          || (s'.writes == s.writes && RestOf(s', k) == RestOf(s, k) && MidwayAgree(s', k))
          || exists i :: |s.writes| <= i < |s'.writes| && s'.writes[i].bump.None?)
  }

  /** What a step does to the log and the counters. */
  lemma MoveWrites(s: State, capacity: nat, th: Thread)
    ensures var s' := Move(s, capacity, th).0;
            && s.reorgGen <= s'.reorgGen && s.protocolGen <= s'.protocolGen && |s.writes| <= |s'.writes|
            && (SameCounters(s, s') ==> s.writes == s'.writes[..|s.writes|])
            && (SameCounters(s, s') && |s'.writes| > |s.writes| ==> s'.writes[|s.writes|].bump.None?)
  {
  }

  lemma MoveAgree(s: State, capacity: nat, th: Thread, k: AddrDesc)
    requires th.PutRow? && th.k == k ==> RestOf(s, k) == Some(th.info.rest)
    ensures var m := Move(s, capacity, th);
            m.0.writes == s.writes && SameCounters(s, m.0) ==>
              RestOf(m.0, k) == RestOf(s, k) && (m.1.PutRow? && m.1.k == k ==> RestOf(m.0, k) == Some(m.1.info.rest))
  {
  }

  lemma ActKeepsStands(s: State, mid: State, capacity: nat, a: Action, k: AddrDesc)
    requires Stands(s, mid, k) && |s.writes| <= |mid.writes|
    ensures Stands(s, Act(mid, capacity, a), k) && |s.writes| <= |Act(mid, capacity, a).writes|
  {
    hide Move, RestOf;
    var now := Act(mid, capacity, a);
    if a.Go? && a.t in mid.threads {
      var th := mid.threads[a.t];
      MoveWrites(mid, capacity, th);
      if SameCounters(s, now) {
        if mid.writes == s.writes && RestOf(mid, k) == RestOf(s, k) && MidwayAgree(mid, k) {
          MoveAgree(mid, capacity, th, k);
          RestReclocked(Move(mid, capacity, th).0, now, k);
          if |now.writes| > |mid.writes| {
            assert now.writes[|mid.writes|].bump.None?;
          } else {
            assert now.writes == mid.writes;
          }
        } else {
          var i :| |s.writes| <= i < |mid.writes| && mid.writes[i].bump.None?;
          assert now.writes[i] == mid.writes[i];
        }
      }
    } else {
      RestReclocked(mid, now, k);
      if a.Begin? { StartedNotMidway(a.c); }
    }
  }

  lemma RestReclocked(s: State, s': State, k: AddrDesc)
    requires s'.contracts == s.contracts
    ensures RestOf(s', k) == RestOf(s, k)
  {
  }

  lemma {:induction false} RunKeepsStands(s: State, capacity: nat, acts: seq<Action>, k: AddrDesc)
    requires MidwayAgree(s, k)
    ensures Stands(s, Run(s, capacity, acts), k) && |s.writes| <= |Run(s, capacity, acts).writes|
  {
    if acts != [] {
      var n := |acts| - 1;
      RunKeepsStands(s, capacity, acts[..n], k);
      ActKeepsStands(s, Run(s, capacity, acts[..n]), capacity, acts[n], k);
    }
  }

  lemma {:induction false} RunKeepsOwned(s: State, capacity: nat, acts: seq<Action>)
    requires Safe(s, capacity) && Owned(s) && capacity > 0
    ensures Safe(Run(s, capacity, acts), capacity) && Owned(Run(s, capacity, acts))
  {
    if acts != [] {
      var n := |acts| - 1;
      RunKeepsOwned(s, capacity, acts[..n]);
      hide Safe, Owned, Act;
      ActKeepsSafe(Run(s, capacity, acts[..n]), capacity, acts[n]);
      ActKeepsOwned(Run(s, capacity, acts[..n]), capacity, acts[n]);
    }
  }

  /** In a state with no writer between commit and bump, the row of `k` stands for as long as the counters do, exactly
      when every reader that is midway with `k` holds what is stored. An answer that shows the stored row goes on to
      show it under the same condition. */
  lemma RowStandsExactly(s: State, capacity: nat, k: AddrDesc)
    requires Safe(s, capacity) && Owned(s) && Quiet(s) && capacity > 0
    ensures MidwayAgree(s, k) <==>
            forall acts :: var s' := Run(s, capacity, acts);
                           SameCounters(s, s') && Quiet(s') ==> RestOf(s', k) == RestOf(s, k)
  {
    if MidwayAgree(s, k) {
      forall acts
        ensures var s' := Run(s, capacity, acts); SameCounters(s, s') && Quiet(s') ==> RestOf(s', k) == RestOf(s, k)
      {
        RunKeepsStands(s, capacity, acts, k);
        RunKeepsOwned(s, capacity, acts);
        hide Safe, RestOf;
        assert Owned(Run(s, capacity, acts));
      }
    } else {
      var t :| t in s.threads && s.threads[t].PutRow? && s.threads[t].k == k
          && RestOf(s, k) != Some(s.threads[t].info.rest);
      OneStep(s, capacity, t);
      WriteBack(s, capacity, t);
      var s' := Run(s, capacity, [Go(t)]);
      assert SameCounters(s, s') && Quiet(s') && RestOf(s', k) != RestOf(s, k);
    }
  }

  lemma WriteBack(s: State, capacity: nat, t: nat)
    requires t in s.threads && s.threads[t].PutRow? && Quiet(s)
    ensures var s' := Act(s, capacity, Go(t));
            SameCounters(s, s') && Quiet(s') && RestOf(s', s.threads[t].k) == Some(s.threads[t].info.rest)
  {
  }

  // ---------------------------------------------------------------- runs in which it fails

  lemma RunNext(s: State, capacity: nat, acts: seq<Action>, a: Action)
    ensures Run(s, capacity, acts + [a]) == Act(Run(s, capacity, acts), capacity, a)
  {
    assert (acts + [a])[..|acts|] == acts;
  }

  /** A reader of the one contract there is, that knows its standard from context, gets midway. */
  lemma ReaderMidway(s: State, k: AddrDesc, capacity: nat) returns (acts: seq<Action>)
    requires s == Init(map[k := Info(0, 7)], map[])
    ensures Run(s, capacity, acts) == s.(threads := map[0 := PutRow(k, 0, 0, Info(1, 7), 3)], clock := 4)
  {
    acts := [];
    RunNext(s, capacity, acts, Begin(0, Get(k, 1)));
    acts := acts + [Begin(0, Get(k, 1))];
    assert Run(s, capacity, acts) == s.(threads := map[0 := LoadReorg(k, 1)]);
    RunNext(s, capacity, acts, Go(0));
    acts := acts + [Go(0)];
    assert Run(s, capacity, acts) == s.(threads := map[0 := LoadProtocol(k, 1, 0)], clock := 1);
    RunNext(s, capacity, acts, Go(0));
    acts := acts + [Go(0)];
    assert Run(s, capacity, acts) == s.(threads := map[0 := Look(k, 1, 0, 0)], clock := 2);
    RunNext(s, capacity, acts, Go(0));
    acts := acts + [Go(0)];
    assert Run(s, capacity, acts) == s.(threads := map[0 := ReadRow(k, 1, 0, 0)], clock := 3);
    RunNext(s, capacity, acts, Go(0));
    acts := acts + [Go(0)];
  }

  function FourMore(s: State, capacity: nat, t: nat): State {
    Act(Act(Act(Act(s, capacity, Go(t)), capacity, Go(t)), capacity, Go(t)), capacity, Go(t))
  }

  lemma SecondMoves(s: State, capacity: nat, reader: Thread, th: Thread)
    requires s.threads == map[0 := reader, 1 := th]
    ensures var s', m := Act(s, capacity, Go(1)), Move(s, capacity, th);
            && s'.threads == map[0 := reader, 1 := m.1] && s'.writes == m.0.writes && s'.contracts == m.0.contracts
  {
    hide Move;
  }

  lemma PurgeMoves(s: State, capacity: nat, k: AddrDesc)
    ensures k in s.contracts ==> Move(s, capacity, PurgeRead(k)) == (s, PurgeDelete(k))
    ensures s.writes == [] ==>
              var m := Move(s, capacity, PurgeDelete(k));
              |m.0.writes| == 1 && m.0.writes[0].keys == {k} && m.1 == PurgeBump(k, 0)
    ensures |s.writes| == 1 ==>
              var m := Move(s, capacity, PurgeBump(k, 0));
              |m.0.writes| == 1 && m.0.writes[0].keys == s.writes[0].keys && m.1 == PurgeClear(k)
    ensures Move(s, capacity, PurgeClear(k)).0.writes == s.writes && Move(s, capacity, PurgeClear(k)).1 == Finished
  {
    hide Drop;
  }

  lemma PurgeSteps(s: State, capacity: nat, k: AddrDesc, reader: Thread)
    requires s.threads == map[0 := reader, 1 := PurgeRead(k)] && k in s.contracts && s.writes == []
    ensures var s' := FourMore(s, capacity, 1);
            && s'.threads == map[0 := reader, 1 := Finished] && |s'.writes| == 1 && s'.writes[0].keys == {k}
  {
    hide Act, Move;
    var s1 := Act(s, capacity, Go(1));
    SecondMoves(s, capacity, reader, PurgeRead(k));
    PurgeMoves(s, capacity, k);
    var s2 := Act(s1, capacity, Go(1));
    SecondMoves(s1, capacity, reader, PurgeDelete(k));
    PurgeMoves(s1, capacity, k);
    var s3 := Act(s2, capacity, Go(1));
    SecondMoves(s2, capacity, reader, PurgeBump(k, 0));
    PurgeMoves(s2, capacity, k);
    SecondMoves(s3, capacity, reader, PurgeClear(k));
    PurgeMoves(s3, capacity, k);
  }

  lemma RunFourMore(s: State, capacity: nat, acts: seq<Action>, t: nat)
    ensures Run(s, capacity, acts + [Go(t)] + [Go(t)] + [Go(t)] + [Go(t)])
            == FourMore(Run(s, capacity, acts), capacity, t)
  {
    hide Run, Act;
    RunNext(s, capacity, acts, Go(t));
    RunNext(s, capacity, acts + [Go(t)], Go(t));
    RunNext(s, capacity, acts + [Go(t)] + [Go(t)], Go(t));
    RunNext(s, capacity, acts + [Go(t)] + [Go(t)] + [Go(t)], Go(t));
  }

  lemma WrittenBack(s: State, capacity: nat, k: AddrDesc, info: Info)
    requires s.threads == map[0 := PutRow(k, 0, 0, info, 3), 1 := Finished]
    ensures var s' := Act(s, capacity, Go(0));
            && 1 in s'.threads && s'.threads[1] == Finished && s'.writes == s.writes
            && k in s'.contracts && s'.contracts[k] == info
  {
  }

  /** From the start: a purge that has finished, and the purged row is there again. */
  lemma PurgedRowReturns(k: AddrDesc, capacity: nat) returns (acts: seq<Action>)
    ensures var s := Run(Init(map[k := Info(0, 7)], map[]), capacity, acts);
            && 1 in s.threads && s.threads[1] == Finished && |s.writes| == 1 && s.writes[0].keys == {k}
            && k in s.contracts && s.contracts[k] == Info(1, 7)
  {
    hide Run, FourMore, Move;
    var s := Init(map[k := Info(0, 7)], map[]);
    acts := ReaderMidway(s, k, capacity);
    RunNext(s, capacity, acts, Begin(1, Purge(k)));
    acts := acts + [Begin(1, Purge(k))];
    PurgeSteps(Run(s, capacity, acts), capacity, k, PutRow(k, 0, 0, Info(1, 7), 3));
    RunFourMore(s, capacity, acts, 1);
    acts := acts + [Go(1)] + [Go(1)] + [Go(1)] + [Go(1)];
    WrittenBack(Run(s, capacity, acts), capacity, k, Info(1, 7));
    RunNext(s, capacity, acts, Go(0));
    acts := acts + [Go(0)];
  }

  /** The state after a step of thread `t`. */
  lemma Moved(s: State, capacity: nat, t: nat, s': State, th: Thread)
    requires t in s.threads && Move(s, capacity, s.threads[t]) == (s', th)
    ensures Act(s, capacity, Go(t)) == s'.(threads := s.threads[t := th], clock := s.clock + 1)
  {
    hide Move;
  }

  /** A disconnect that rolls back the one row there is runs while the reader is midway. */
  lemma RollbackSteps(s: State, capacity: nat, k: AddrDesc, rollback: map<AddrDesc, Option<Info>>)
    requires 1 in s.threads && s.threads[1] == DropLock([], rollback) && !s.locked && s.writes == []
    requires rollback == map[k := Some(Info(0, 5))]
    ensures var s' := FourMore(s, capacity, 1);
            && s'.contracts == RollBack(s.contracts, rollback) && s'.protocols == s.protocols && s'.cache == s.cache
            && s'.threads == s.threads[1 := Finished] && s'.reorgGen == s.reorgGen + 1
            && s'.protocolGen == s.protocolGen && s'.clock == s.clock + 4
  {
    hide Act, RollBack, Move;
    RollbackClears(s, capacity, rollback);
    RollbackCommits(Act(Act(s, capacity, Go(1)), capacity, Go(1)), capacity, rollback);
  }

  lemma RollbackClears(s: State, capacity: nat, rollback: map<AddrDesc, Option<Info>>)
    requires 1 in s.threads && s.threads[1] == DropLock([], rollback) && !s.locked && s.writes == []
    ensures Act(Act(s, capacity, Go(1)), capacity, Go(1))
            == s.(locked := true, threads := s.threads[1 := DropCommit([], rollback)], clock := s.clock + 2)
  {
    hide Act, RollBack, Drop;
    Moved(s, capacity, 1, s.(locked := true), DropClear([], rollback, 0));
    var t := Act(s, capacity, Go(1));
    Moved(t, capacity, 1, t, DropCommit([], rollback));
  }

  lemma RollbackCommits(s: State, capacity: nat, rollback: map<AddrDesc, Option<Info>>)
    requires 1 in s.threads && s.threads[1] == DropCommit([], rollback) && s.writes == []
    ensures var s' := Act(Act(s, capacity, Go(1)), capacity, Go(1));
            && s'.contracts == RollBack(s.contracts, rollback) && s'.protocols == s.protocols && s'.cache == s.cache
            && s'.threads == s.threads[1 := Finished] && s'.reorgGen == s.reorgGen + 1
            && s'.protocolGen == s.protocolGen && s'.clock == s.clock + 2
  {
    hide Act, RollBack, Drop;
    var c := Move(s, capacity, DropCommit([], rollback)).0;
    Moved(s, capacity, 1, c, DropBump(0));
    var t := Act(s, capacity, Go(1));
    assert c.protocols == s.protocols - {} && s.protocols - {} == s.protocols;
    Moved(t, capacity, 1, BumpReorg(t.(locked := false), 0), Finished);
  }

  /** A reader of a row whose cache slot is empty, without knowledge of the standard, reads it and answers. */
  lemma ReaderSteps(s: State, capacity: nat, k: AddrDesc, info: Info)
    requires 2 in s.threads && s.threads[2] == LoadReorg(k, 0) && k !in s.cache.items
    requires k in s.contracts && s.contracts[k] == info
    ensures var s' := Act(Act(FourMore(s, capacity, 2), capacity, Go(2)), capacity, Go(2));
            && 2 in s'.threads && s'.threads[2].Answer? && s'.threads[2].k == k
            && s'.threads[2].r == s.reorgGen && s'.threads[2].p == s.protocolGen
                 && Shown(s'.threads[2].result) == Some(info.rest)
            && s'.threads == s.threads[2 := s'.threads[2]] && s'.contracts == s.contracts
            && s'.reorgGen == s.reorgGen && s'.protocolGen == s.protocolGen
  {
    hide Act, Insert;
    var r, p := s.reorgGen, s.protocolGen;
    Moved(s, capacity, 2, s, LoadProtocol(k, 0, r));
    var t1 := Act(s, capacity, Go(2));
    Moved(t1, capacity, 2, t1, Look(k, 0, r, p));
    var t2 := Act(t1, capacity, Go(2));
    Moved(t2, capacity, 2, t2, ReadRow(k, 0, r, p));
    var t3 := Act(t2, capacity, Go(2));
    Moved(t3, capacity, 2, t3, ReadProtocol(k, r, p, info, t3.clock));
    var t4 := Act(t3, capacity, Go(2));
    var v := Seen(info, Find(t4.protocols, k), t3.clock);
    Moved(t4, capacity, 2, t4, AddEntry(k, r, p, v));
    var t5 := Act(t4, capacity, Go(2));
    Moved(t5, capacity, 2, t5.(cache := Insert(t5.cache, capacity, k, Entry(v, r, p))),
        Answer(k, r, p, Some(v), false));
  }

  /** From the start: an answer that shows the row as it was rolled back, and a reader that was midway writes back what
      it had read before. The counters of the answer stand and no writer is between commit and bump. */
  lemma StaleAnswer(k: AddrDesc, capacity: nat) returns (acts: seq<Action>)
    ensures var s := Run(Init(map[k := Info(0, 7)], map[]), capacity, acts);
            && 2 in s.threads && s.threads[2].Answer? && s.threads[2].k == k
            && s.threads[2].r == s.reorgGen && s.threads[2].p == s.protocolGen && Quiet(s)
            && Shown(s.threads[2].result) == Some(5) && RestOf(s, k) == Some(7)
  {
    hide Run, FourMore, Move;
    var s, rollback := Init(map[k := Info(0, 7)], map[]), map[k := Some(Info(0, 5))];
    acts := ReaderMidway(s, k, capacity);
    RunNext(s, capacity, acts, Begin(1, Disconnect([], rollback)));
    acts := acts + [Begin(1, Disconnect([], rollback))];
    RollbackSteps(Run(s, capacity, acts), capacity, k, rollback);
    RunFourMore(s, capacity, acts, 1);
    acts := acts + [Go(1)] + [Go(1)] + [Go(1)] + [Go(1)];
    RunNext(s, capacity, acts, Begin(2, Get(k, 0)));
    acts := acts + [Begin(2, Get(k, 0))];
    ReaderSteps(Run(s, capacity, acts), capacity, k, Info(0, 5));
    RunFourMore(s, capacity, acts, 2);
    acts := acts + [Go(2)] + [Go(2)] + [Go(2)] + [Go(2)];
    RunNext(s, capacity, acts, Go(2));
    acts := acts + [Go(2)];
    RunNext(s, capacity, acts, Go(2));
    acts := acts + [Go(2)];
    var before := Run(s, capacity, acts);
    WriteBack(before, capacity, 0);
    OthersStand(before, capacity, 0, 2);
    RunNext(s, capacity, acts, Go(0));
    acts := acts + [Go(0)];
  }

  lemma OthersStand(s: State, capacity: nat, t: nat, u: nat)
    requires t in s.threads && u in s.threads && u != t
    ensures u in Act(s, capacity, Go(t)).threads && Act(s, capacity, Go(t)).threads[u] == s.threads[u]
  {
    hide Move;
  }
}
