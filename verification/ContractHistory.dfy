// Where what readers answer and what the columns hold comes from, in any interleaving: the token standard an answer
// shows, what changes a contract row, and who writes and removes a vault.
module ContractHistory {
  import opened Types
  import opened ContractCache
  import opened ContractRace

  // ---------------------------------------------------------------- reads of a row

  /** Thread `t` was started as the reader of `k` with the standard `c` from its context. */
  predicate Called(acts: seq<Action>, t: nat, k: AddrDesc, c: nat) { Begin(t, Get(k, c)) in acts }

  /** By step `j`, thread `t`, a reader of `k` with context `c`, took over the stored row: with its standard if it had
      one, and with that of the context if not. */
  ghost predicate Read(s0: State, capacity: nat, acts: seq<Action>, j: nat, t: nat, k: AddrDesc, c: nat, info: Info) {
    && j < |acts| && acts[j] == Go(t) && Called(acts[..j], t, k, c)
    && var rows := Run(s0, capacity, acts[..j]).contracts;
       && k in rows && info.rest == rows[k].rest
       && info.standard == if rows[k].standard != 0 then rows[k].standard else c
  }

  /** The row had no standard then, and the context has one. */
  ghost predicate ReadUnknown(s0: State, capacity: nat, acts: seq<Action>, j: nat, t: nat, k: AddrDesc, c: nat,
                              info: Info)
  {
    && Read(s0, capacity, acts, j, t, k, c, info) && c != 0
    && var rows := Run(s0, capacity, acts[..j]).contracts; k in rows && rows[k].standard == 0
  }

  ghost predicate WasRead(s0: State, capacity: nat, acts: seq<Action>, t: nat, k: AddrDesc, info: Info) {
    exists j, c :: Read(s0, capacity, acts, j, t, k, c, info)
  }

  ghost predicate WasReadUnknown(s0: State, capacity: nat, acts: seq<Action>, t: nat, k: AddrDesc, info: Info) {
    exists j, c :: ReadUnknown(s0, capacity, acts, j, t, k, c, info)
  }

  ghost predicate WasReadBySome(s0: State, capacity: nat, acts: seq<Action>, k: AddrDesc, info: Info) {
    exists t :: WasRead(s0, capacity, acts, t, k, info)
  }

  /** What a thread carries was called for and read. */
  ghost predicate Traced(s0: State, capacity: nat, acts: seq<Action>, t: nat, th: Thread) {
    match th
    case LoadReorg(k, c) => Called(acts, t, k, c)
    case LoadProtocol(k, c, _) => Called(acts, t, k, c)
    case Look(k, c, _, _) => Called(acts, t, k, c)
    case ReadRow(k, c, _, _) => Called(acts, t, k, c)
    case PutRow(k, _, _, info, _) =>
      WasReadUnknown(s0, capacity, acts, t, k, info) && WasRead(s0, capacity, acts, t, k, info)
    case ReadProtocol(k, _, _, info, _) => WasRead(s0, capacity, acts, t, k, info)
    case AddEntry(k, _, _, v) => WasRead(s0, capacity, acts, t, k, v.info)
    case Answer(k, _, _, Some(v), hit) =>
      WasReadBySome(s0, capacity, acts, k, v.info) && (!hit ==> WasRead(s0, capacity, acts, t, k, v.info))
    case _ => true
  }

  ghost predicate CacheTraced(s0: State, capacity: nat, acts: seq<Action>, cache: Lru<Seen>) {
    forall k :: k in cache.items ==> WasReadBySome(s0, capacity, acts, k, cache.items[k].value.info)
  }

  ghost predicate AllTraced(s0: State, capacity: nat, acts: seq<Action>) {
    var s := Run(s0, capacity, acts);
    && (forall t :: t in s.threads ==> Traced(s0, capacity, acts, t, s.threads[t]))
    && CacheTraced(s0, capacity, acts, s.cache)
  }

  lemma ReadStays(s0: State, capacity: nat, acts: seq<Action>, a: Action, t: nat, k: AddrDesc, info: Info)
    ensures WasRead(s0, capacity, acts, t, k, info) ==> WasRead(s0, capacity, acts + [a], t, k, info)
    ensures WasReadUnknown(s0, capacity, acts, t, k, info) ==> WasReadUnknown(s0, capacity, acts + [a], t, k, info)
  {
    var more := acts + [a];
    if WasRead(s0, capacity, acts, t, k, info) {
      var j: nat, c: nat :| Read(s0, capacity, acts, j, t, k, c, info);
      assert more[..j] == acts[..j];
      assert Read(s0, capacity, more, j, t, k, c, info);
    }
    if WasReadUnknown(s0, capacity, acts, t, k, info) {
      var j: nat, c: nat :| ReadUnknown(s0, capacity, acts, j, t, k, c, info);
      assert more[..j] == acts[..j];
      assert ReadUnknown(s0, capacity, more, j, t, k, c, info);
    }
  }

  lemma ReadBySomeStays(s0: State, capacity: nat, acts: seq<Action>, a: Action, k: AddrDesc, info: Info)
    requires WasReadBySome(s0, capacity, acts, k, info)
    ensures WasReadBySome(s0, capacity, acts + [a], k, info)
  {
    hide WasRead;
    var t :| WasRead(s0, capacity, acts, t, k, info);
    ReadStays(s0, capacity, acts, a, t, k, info);
  }

  lemma TracedStays(s0: State, capacity: nat, acts: seq<Action>, a: Action, t: nat, th: Thread)
    requires Traced(s0, capacity, acts, t, th)
    ensures Traced(s0, capacity, acts + [a], t, th)
  {
    hide WasRead, WasReadUnknown, WasReadBySome;
    match th {
      case PutRow(k, _, _, info, _) => ReadStays(s0, capacity, acts, a, t, k, info);
      case ReadProtocol(k, _, _, info, _) => ReadStays(s0, capacity, acts, a, t, k, info);
      case AddEntry(k, _, _, v) => ReadStays(s0, capacity, acts, a, t, k, v.info);
      case Answer(k, _, _, Some(v), hit) =>
        ReadBySomeStays(s0, capacity, acts, a, k, v.info);
        ReadStays(s0, capacity, acts, a, t, k, v.info);
      case _ =>
    }
  }

  /** The step that reads the row. */
  lemma RowIsRead(s0: State, capacity: nat, acts: seq<Action>, t: nat)
    requires var s := Run(s0, capacity, acts);
             && t in s.threads && s.threads[t].ReadRow? && s.threads[t].k in s.contracts
             && Traced(s0, capacity, acts, t, s.threads[t])
    ensures var s := Run(s0, capacity, acts);
            Traced(s0, capacity, acts + [Go(t)], t, Move(s, capacity, s.threads[t]).1)
  {
    var s, more := Run(s0, capacity, acts), acts + [Go(t)];
    var th := s.threads[t];
    var next := Move(s, capacity, th).1;
    assert more[..|acts|] == acts;
    assert Read(s0, capacity, more, |acts|, t, th.k, th.context, next.info);
    if next.PutRow? { assert ReadUnknown(s0, capacity, more, |acts|, t, th.k, th.context, next.info); }
  }

  /** Every other step of a thread carries on what it has. */
  lemma MoveTraced(s0: State, capacity: nat, acts: seq<Action>, t: nat)
    requires AllTraced(s0, capacity, acts) && Safe(Run(s0, capacity, acts), capacity)
    requires t in Run(s0, capacity, acts).threads
    ensures var s := Run(s0, capacity, acts);
            Traced(s0, capacity, acts + [Go(t)], t, Move(s, capacity, s.threads[t]).1)
  {
    hide WasRead, WasReadUnknown, WasReadBySome, Lookup, Insert, Drop, RollBack, Run;
    var s, more := Run(s0, capacity, acts), acts + [Go(t)];
    var th := s.threads[t];
    TracedStays(s0, capacity, acts, Go(t), t, th);
    match th {
      case Look(k, c, r, p) =>
        LookupOk(s.cache, capacity, k, r, p);
        if Lookup(s.cache, k, r, p).1.Some? {
          ReadBySomeStays(s0, capacity, acts, Go(t), k, s.cache.items[k].value.info);
        }
      case ReadRow(k, c, r, p) => if k in s.contracts { RowIsRead(s0, capacity, acts, t); }
      case AddEntry(k, _, _, v) => ReadByOne(s0, capacity, more, t, k, v.info);
      case _ =>
    }
  }

  lemma ReadByOne(s0: State, capacity: nat, acts: seq<Action>, t: nat, k: AddrDesc, info: Info)
    requires WasRead(s0, capacity, acts, t, k, info)
    ensures WasReadBySome(s0, capacity, acts, k, info)
  {
  }

  /** A cached entry was there before, or is what a reader adds. */
  lemma CacheFrom(s: State, capacity: nat, th: Thread, k: AddrDesc)
    requires Ok(s.cache, capacity) && capacity > 0
    ensures var now := Move(s, capacity, th).0.cache;
            k in now.items ==>
              || (k in s.cache.items && now.items[k] == s.cache.items[k])
              || (th.AddEntry? && th.k == k && now.items[k].value == th.v)
  {
    hide Lookup, Insert, Drop, RollBack, Ok;
    match th {
      case Look(x, c, r, p) => LookupOk(s.cache, capacity, x, r, p);
      case AddEntry(x, r, p, v) => InsertOk(s.cache, capacity, x, Entry(v, r, p));
      case SetClear(x) => DropItems(s.cache, x);
      case PurgeClear(x) => DropItems(s.cache, x);
      case DropClear(keys, _, i) => if i < |keys| { DropItems(s.cache, keys[i]); }
      case _ =>
    }
  }

  lemma MoveCacheTraced(s0: State, capacity: nat, acts: seq<Action>, t: nat)
    requires AllTraced(s0, capacity, acts) && Safe(Run(s0, capacity, acts), capacity)
    requires t in Run(s0, capacity, acts).threads
    requires capacity > 0
    ensures var s := Run(s0, capacity, acts);
            CacheTraced(s0, capacity, acts + [Go(t)], Move(s, capacity, s.threads[t]).0.cache)
  {
    hide WasRead, WasReadUnknown, WasReadBySome, Move, Run, EntriesOk, ThreadsOk, Ok;
    var s, more := Run(s0, capacity, acts), acts + [Go(t)];
    var th := s.threads[t];
    assert Traced(s0, capacity, acts, t, th);
    var now := Move(s, capacity, th).0.cache;
    forall k | k in now.items ensures WasReadBySome(s0, capacity, more, k, now.items[k].value.info) {
      CacheFrom(s, capacity, th, k);
      if k in s.cache.items && s.cache.items[k] == now.items[k] {
        ReadBySomeStays(s0, capacity, acts, Go(t), k, s.cache.items[k].value.info);
      } else {
        ReadByOne(s0, capacity, acts, t, k, th.v.info);
        ReadBySomeStays(s0, capacity, acts, Go(t), k, th.v.info);
      }
    }
  }

  lemma DropItems<V>(c: Lru<V>, k: AddrDesc)
    ensures Drop(c, k).items == c.items - {k}
  {
  }

  lemma ActTraced(s0: State, capacity: nat, acts: seq<Action>, a: Action)
    requires AllTraced(s0, capacity, acts) && Safe(Run(s0, capacity, acts), capacity) && capacity > 0
    ensures AllTraced(s0, capacity, acts + [a])
  {
    hide Traced, Move, Safe;
    var s, more := Run(s0, capacity, acts), acts + [a];
    assert more[..|acts|] == acts;
    var now := Run(s0, capacity, more);
    if a.Go? && a.t in s.threads {
      MoveTraced(s0, capacity, acts, a.t);
      MoveCacheTraced(s0, capacity, acts, a.t);
    } else {
      SameCacheTraced(s0, capacity, acts, a, s.cache);
      if a.Begin? { StartTraced(s0, capacity, acts, a); }
    }
    forall t | t in now.threads ensures Traced(s0, capacity, more, t, now.threads[t]) {
      if t in s.threads && now.threads[t] == s.threads[t] { TracedStays(s0, capacity, acts, a, t, s.threads[t]); }
    }
  }

  lemma StartTraced(s0: State, capacity: nat, acts: seq<Action>, a: Action)
    requires a.Begin?
    ensures Traced(s0, capacity, acts + [a], a.t, Started(a.c))
  {
  }

  lemma SameCacheTraced(s0: State, capacity: nat, acts: seq<Action>, a: Action, cache: Lru<Seen>)
    requires CacheTraced(s0, capacity, acts, cache)
    ensures CacheTraced(s0, capacity, acts + [a], cache)
  {
    hide WasReadBySome;
    forall k | k in cache.items ensures WasReadBySome(s0, capacity, acts + [a], k, cache.items[k].value.info) {
      ReadBySomeStays(s0, capacity, acts, a, k, cache.items[k].value.info);
    }
  }

  lemma {:induction false} RunTraced(contracts: map<AddrDesc, Info>, protocols: map<AddrDesc, Payload>, capacity: nat,
                                     acts: seq<Action>)
    requires capacity > 0
    ensures AllTraced(Init(contracts, protocols), capacity, acts)
  {
    if acts != [] {
      hide AllTraced, Safe, Run, Init, Owned;
      var n := |acts| - 1;
      RunTraced(contracts, protocols, capacity, acts[..n]);
      RunIsSafe(contracts, protocols, capacity, acts[..n]);
      ActTraced(Init(contracts, protocols), capacity, acts[..n], acts[n]);
      assert acts[..n] + [acts[n]] == acts;
    }
  }

  /** In every interleaving, an answer shows a row as some reader of the contract took it over: with the standard that
      was stored, or that of the reader's own context where none was. Without a hit the reader is the answering one. */
  lemma AnswersShowReads(contracts: map<AddrDesc, Info>, protocols: map<AddrDesc, Payload>, capacity: nat,
                         acts: seq<Action>, t: nat)
    requires capacity > 0
    ensures var s0 := Init(contracts, protocols);
            var s := Run(s0, capacity, acts);
            t in s.threads && s.threads[t].Answer? && s.threads[t].result.Some? ==>
              var a, info := s.threads[t], s.threads[t].result.value.info;
              && WasReadBySome(s0, capacity, acts, a.k, info) && (!a.hit ==> WasRead(s0, capacity, acts, t, a.k, info))
  {
    hide WasRead, WasReadBySome, WasReadUnknown, Run, Init, CacheTraced;
    RunTraced(contracts, protocols, capacity, acts);
  }

  // ---------------------------------------------------------------- changes of a row

  /** What a step does to the row of `k`. */
  ghost predicate RowChange(s0: State, capacity: nat, acts: seq<Action>, t: nat, th: Thread, k: AddrDesc,
                            now: Option<Info>)
  {
    || (th.PurgeDelete? && th.k == k && now == None)
    || (th.DropCommit? && k in th.rollback && now == th.rollback[k])
    || (now.Some? && WasReadUnknown(s0, capacity, acts, t, k, now.value))
  }

  /** In every interleaving a stored row changes by a purge, which removes it, by a rollback, to what is rolled back
      to, or by a reader that read it while its standard was unknown, to what it read with its context's standard. */
  lemma RowsChangeOnlyBy(contracts: map<AddrDesc, Info>, protocols: map<AddrDesc, Payload>, capacity: nat,
                         acts: seq<Action>, a: Action, k: AddrDesc)
    requires capacity > 0
    ensures var s0 := Init(contracts, protocols);
            var s := Run(s0, capacity, acts);
            var now := Find(Act(s, capacity, a).contracts, k);
            now != Find(s.contracts, k) ==>
              a.Go? && a.t in s.threads && RowChange(s0, capacity, acts, a.t, s.threads[a.t], k, now)
  {
    hide WasReadUnknown, WasRead, WasReadBySome, Run, Init, CacheTraced;
    RunTraced(contracts, protocols, capacity, acts);
    var s := Run(Init(contracts, protocols), capacity, acts);
    if a.Go? && a.t in s.threads { MoveRows(s, capacity, s.threads[a.t], k); }
  }

  lemma MoveRows(s: State, capacity: nat, th: Thread, k: AddrDesc)
    ensures var now := Find(Move(s, capacity, th).0.contracts, k);
            now != Find(s.contracts, k) ==>
              || (th.PurgeDelete? && th.k == k && now == None)
              || (th.DropCommit? && k in th.rollback && now == th.rollback[k])
              || (th.PutRow? && th.k == k && now == Some(th.info))
  {
  }

  // ---------------------------------------------------------------- one writer at a time

  /** The thread holds connectBlockMux. */
  predicate Holds(th: Thread) {
    th.SetCheck? || th.SetCommit? || th.SetBump? || th.SetClear? || th.DropClear? || th.DropCommit? || th.DropBump?
  }

  ghost predicate OneHolder(s: State) {
    && (forall t :: t in s.threads && Holds(s.threads[t]) ==> s.locked)
    && (forall t, u :: t in s.threads && u in s.threads && Holds(s.threads[t]) && Holds(s.threads[u]) ==> t == u)
  }

  /** A writer that is about to write a vault was called for it with a proof of the current generation, and there is
      none yet. */
  ghost predicate SetOk(s: State, acts: seq<Action>, t: nat, th: Thread) {
    match th
    case SetLock(k, payload, observed, sameHash) => Begin(t, Set(k, payload, observed, sameHash)) in acts
    case SetCheck(k, payload) => Begin(t, Set(k, payload, s.reorgGen, true)) in acts
    case SetCommit(k, payload) => Begin(t, Set(k, payload, s.reorgGen, true)) in acts && k !in s.protocols
    case _ => true
  }

  ghost predicate WritersOk(s: State, acts: seq<Action>) {
    OneHolder(s) && forall t :: t in s.threads ==> SetOk(s, acts, t, s.threads[t])
  }

  lemma MoveHolder(s: State, capacity: nat, th: Thread)
    requires Holds(th) ==> s.locked
    ensures var (s', th') := Move(s, capacity, th);
            && (Holds(th') ==> s'.locked && (Holds(th) || !s.locked))
            && (!Holds(th') && s'.locked ==> s.locked && !Holds(th)) && (s.locked && !Holds(th) ==> s'.locked)
            && (!Holds(th) ==> s'.reorgGen == s.reorgGen && s'.protocols == s.protocols)
            && (th'.SetCheck? || th'.SetCommit? ==> s'.reorgGen == s.reorgGen && s'.protocols == s.protocols)
  {
  }

  lemma MoveSetOk(s: State, capacity: nat, acts: seq<Action>, t: nat, th: Thread)
    requires SetOk(s, acts, t, th)
    ensures var (s', th') := Move(s, capacity, th); SetOk(s', acts + [Go(t)], t, th')
  {
  }

  lemma SetOkStays(s: State, s': State, acts: seq<Action>, a: Action, t: nat, th: Thread)
    requires SetOk(s, acts, t, th) && (Holds(th) ==> s'.reorgGen == s.reorgGen && s'.protocols == s.protocols)
    ensures SetOk(s', acts + [a], t, th)
  {
  }

  lemma ActWriters(s: State, capacity: nat, acts: seq<Action>, a: Action)
    requires WritersOk(s, acts)
    ensures WritersOk(Act(s, capacity, a), acts + [a])
  {
    hide SetOk, Move, Holds;
    var now := Act(s, capacity, a);
    if a.Go? && a.t in s.threads {
      var th := s.threads[a.t];
      MoveHolder(s, capacity, th);
      MoveSetOk(s, capacity, acts, a.t, th);
      forall t | t in now.threads ensures SetOk(now, acts + [a], t, now.threads[t]) {
        SetOkSame(Move(s, capacity, th).0, now, acts + [a], t, now.threads[t]);
        if t != a.t { SetOkStays(s, now, acts, a, t, s.threads[t]); }
      }
    } else {
      forall t | t in now.threads ensures SetOk(now, acts + [a], t, now.threads[t]) {
        if t in s.threads {
          SetOkStays(s, now, acts, a, t, s.threads[t]);
        } else {
          StartSetOk(now, acts, a);
        }
      }
      if a.Begin? { StartHolds(a.c); }
    }
  }

  lemma SetOkSame(s: State, s': State, acts: seq<Action>, t: nat, th: Thread)
    requires s'.reorgGen == s.reorgGen && s'.protocols == s.protocols
    ensures SetOk(s, acts, t, th) ==> SetOk(s', acts, t, th)
  {
  }

  lemma StartSetOk(s: State, acts: seq<Action>, a: Action)
    requires a.Begin?
    ensures SetOk(s, acts + [a], a.t, Started(a.c))
  {
  }

  lemma StartHolds(c: Call)
    ensures !Holds(Started(c))
  {
  }

  lemma {:induction false} RunWriters(contracts: map<AddrDesc, Info>, protocols: map<AddrDesc, Payload>, capacity: nat,
                                      acts: seq<Action>)
    ensures WritersOk(Run(Init(contracts, protocols), capacity, acts), acts)
  {
    if acts != [] {
      hide WritersOk, Act, Init;
      var n := |acts| - 1;
      RunWriters(contracts, protocols, capacity, acts[..n]);
      ActWriters(Run(Init(contracts, protocols), capacity, acts[..n]), capacity, acts[..n], acts[n]);
      assert acts[..n] + [acts[n]] == acts;
    }
  }

  /** In every interleaving a vault is written only where there is none, by a writer whose observation is of the
      current generation and of a block that is still the stored one, and is removed by a disconnect only. */
  lemma VaultsChangeOnlyBy(contracts: map<AddrDesc, Info>, protocols: map<AddrDesc, Payload>, capacity: nat,
                           acts: seq<Action>, a: Action, k: AddrDesc)
    ensures var s := Run(Init(contracts, protocols), capacity, acts);
            var was, now := Find(s.protocols, k), Find(Act(s, capacity, a).protocols, k);
            now != was ==>
              && a.Go? && a.t in s.threads
              && if now.Some? then was == None && Begin(a.t, Set(k, now.value, s.reorgGen, true)) in acts
                 else s.threads[a.t].DropCommit? && k in s.threads[a.t].keys
  {
    hide Run, Init;
    RunWriters(contracts, protocols, capacity, acts);
    var s := Run(Init(contracts, protocols), capacity, acts);
    if a.Go? && a.t in s.threads {
      assert SetOk(s, acts, a.t, s.threads[a.t]);
      MoveVaults(s, capacity, s.threads[a.t], k);
    }
  }

  lemma MoveVaults(s: State, capacity: nat, th: Thread, k: AddrDesc)
    ensures var now := Find(Move(s, capacity, th).0.protocols, k);
            now != Find(s.protocols, k) ==>
              || (th.SetCommit? && th.k == k && now == Some(th.payload))
              || (th.DropCommit? && k in th.keys && now == None)
  {
  }
}
