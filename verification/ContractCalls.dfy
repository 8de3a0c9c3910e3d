// The calls on contract infos when nothing comes in between: each runs to its end and has the effect its caller asked
// for.
module ContractCalls {
  import opened Types
  import opened ContractCache
  import opened ContractRace

  /** `n` steps of one thread, and where it is then. */
  function Solo(s: State, capacity: nat, th: Thread, n: nat): (State, Thread)
    decreases n
  {
    if n == 0 then (s, th)
    else
      var (s', th') := Move(s, capacity, th);
      Solo(s'.(clock := s.clock + 1), capacity, th', n - 1)
  }

  predicate Reads(th: Thread) {
    || th.LoadReorg? || th.LoadProtocol? || th.Look? || th.ReadRow? || th.PutRow? || th.ReadProtocol? || th.AddEntry?
    || th.Answer? || th.Finished?
  }

  predicate Sets(th: Thread) { th.SetLock? || th.SetCheck? || th.SetCommit? || th.SetBump? || th.SetClear? }

  /** The step neither looks at the threads nor changes them. */
  ghost predicate Blind(s: State, capacity: nat, th: Thread, threads: map<nat, Thread>) {
    var (s', th') := Move(s, capacity, th);
    Move(s.(threads := threads), capacity, th) == (s'.(threads := threads), th') && s'.threads == s.threads
  }

  lemma ReaderIsBlind(s: State, capacity: nat, th: Thread, threads: map<nat, Thread>)
    requires Reads(th)
    ensures Blind(s, capacity, th, threads)
  {
    hide Lookup, Insert;
  }

  lemma SetterIsBlind(s: State, capacity: nat, th: Thread, threads: map<nat, Thread>)
    requires Sets(th)
    ensures Blind(s, capacity, th, threads)
  {
    hide Drop;
  }

  lemma OtherIsBlind(s: State, capacity: nat, th: Thread, threads: map<nat, Thread>)
    requires !Reads(th) && !Sets(th)
    ensures Blind(s, capacity, th, threads)
  {
    hide Drop, RollBack;
  }

  lemma MoveIgnoresThreads(s: State, capacity: nat, th: Thread, threads: map<nat, Thread>)
    ensures Blind(s, capacity, th, threads)
  {
    hide Blind, Reads, Sets;
    if Reads(th) {
      ReaderIsBlind(s, capacity, th, threads);
    } else if Sets(th) {
      SetterIsBlind(s, capacity, th, threads);
    } else {
      OtherIsBlind(s, capacity, th, threads);
    }
  }

  /** The same steps as actions of a run. */
  lemma {:induction false} SoloIsRun(s: State, capacity: nat, t: nat, n: nat)
    requires t in s.threads
    ensures var (s', th) := Solo(s, capacity, s.threads[t], n);
            Run(s, capacity, seq(n, _ => Go(t))) == s'.(threads := s.threads[t := th])
  {
    hide Move;
    if n == 0 {
      assert s.threads[t := s.threads[t]] == s.threads;
      SoloNone(s, capacity, s.threads[t]);
    } else {
      SoloIsRun(s, capacity, t, n - 1);
      SoloLast(s, capacity, s.threads[t], n - 1);
      var acts := seq(n, _ => Go(t));
      assert acts[..n - 1] == seq(n - 1, _ => Go(t));
      var (m, th) := Solo(s, capacity, s.threads[t], n - 1);
      MoveIgnoresThreads(m, capacity, th, s.threads[t := th]);
    }
  }

  lemma SoloNone(s: State, capacity: nat, th: Thread)
    ensures Solo(s, capacity, th, 0) == (s, th) && (Solo(s, capacity, th, 0).0).threads == s.threads
  {
  }

  lemma {:induction false} SoloLast(s: State, capacity: nat, th: Thread, n: nat)
    ensures var (m, mid) := Solo(s, capacity, th, n);
            var (s', th') := Move(m, capacity, mid);
            Solo(s, capacity, th, n + 1) == (s'.(clock := m.clock + 1), th') && m.threads == s.threads
    decreases n
  {
    hide Move;
    if n > 0 {
      var (s', th') := Move(s, capacity, th);
      SoloLast(s'.(clock := s.clock + 1), capacity, th', n - 1);
      MoveIgnoresThreads(s, capacity, th, s.threads);
    } else {
      var (s', th') := Move(s, capacity, th);
      SoloNone(s'.(clock := s.clock + 1), capacity, th');
    }
  }

  lemma SoloNext(s: State, capacity: nat, th: Thread, n: nat)
    requires n > 0
    ensures var (s', th') := Move(s, capacity, th);
            Solo(s, capacity, th, n) == Solo(s'.(clock := s.clock + 1), capacity, th', n - 1)
  {
  }

  /** A thread at its end stays there. */
  lemma {:induction false} Done(s: State, capacity: nat, th: Thread, n: nat)
    requires th.Finished? || th.Answer?
    ensures Solo(s, capacity, th, n) == (s.(clock := s.clock + n), th)
    decreases n
  {
    if n > 0 { Done(s.(clock := s.clock + 1), capacity, th, n - 1); }
  }

  // ---------------------------------------------------------------- a vault is set

  /** SetErcProtocol on its own: the vault is written exactly when there is none and nothing changed since it was
      observed. */
  lemma SetAlone(s: State, capacity: nat, k: AddrDesc, payload: Payload, observed: nat, sameHash: bool)
    requires !s.locked
    ensures var (s', th) := Solo(s, capacity, Started(Set(k, payload, observed, sameHash)), 5);
            var writes := s.reorgGen == observed && sameHash && k !in s.protocols;
            && th == Finished && !s'.locked && s'.contracts == s.contracts && s'.reorgGen == s.reorgGen
            && s'.protocols == (if writes then s.protocols[k := payload] else s.protocols)
            && s'.protocolGen == s.protocolGen + if writes then 1 else 0
  {
    hide Solo, Drop;
    var th0 := SetLock(k, payload, observed, sameHash);
    SoloNext(s, capacity, th0, 5);
    var s1 := Move(s, capacity, th0).0.(clock := s.clock + 1);
    if s.reorgGen != observed || !sameHash {
      Done(s1, capacity, Finished, 4);
    } else {
      SoloNext(s1, capacity, SetCheck(k, payload), 4);
      var s2 := s1.(clock := s1.clock + 1);
      if k in s.protocols {
        SoloNext(s2, capacity, SetClear(k), 3);
        Done(Move(s2, capacity, SetClear(k)).0.(clock := s2.clock + 1), capacity, Finished, 2);
      } else {
        Written(s2, capacity, k, payload);
      }
    }
  }

  lemma Written(s: State, capacity: nat, k: AddrDesc, payload: Payload)
    ensures var (s', th) := Solo(s, capacity, SetCommit(k, payload), 3);
            && th == Finished && !s'.locked && s'.contracts == s.contracts && s'.reorgGen == s.reorgGen
            && s'.protocols == s.protocols[k := payload] && s'.protocolGen == s.protocolGen + 1
  {
    hide Solo, Drop;
    SoloNext(s, capacity, SetCommit(k, payload), 3);
    var s1 := Move(s, capacity, SetCommit(k, payload)).0.(clock := s.clock + 1);
    SoloNext(s1, capacity, SetBump(k, |s.writes|), 2);
    var s2 := Move(s1, capacity, SetBump(k, |s.writes|)).0.(clock := s1.clock + 1);
    SoloNext(s2, capacity, SetClear(k), 1);
    Done(Move(s2, capacity, SetClear(k)).0.(clock := s2.clock + 1), capacity, Finished, 0);
  }

  // ---------------------------------------------------------------- a row is purged

  /** DeleteContractInfoForAddress on its own: a stored row goes, is counted and leaves the cache. */
  lemma PurgeAlone(s: State, capacity: nat, k: AddrDesc)
    ensures var (s', th) := Solo(s, capacity, Started(Purge(k)), 4);
            && th == Finished && s'.contracts == s.contracts - {k} && s'.protocols == s.protocols
            && s'.reorgGen == s.reorgGen && s'.protocolGen == s.protocolGen + (if k in s.contracts then 1 else 0)
            && (k in s.contracts ==> k !in s'.cache.items)
  {
    hide Solo, Drop;
    SoloNext(s, capacity, PurgeRead(k), 4);
    var s1 := s.(clock := s.clock + 1);
    if k in s.contracts {
      Purged(s1, capacity, k);
    } else {
      assert s.contracts - {k} == s.contracts;
      Done(s1, capacity, Finished, 3);
    }
  }

  lemma Purged(s: State, capacity: nat, k: AddrDesc)
    ensures var (s', th) := Solo(s, capacity, PurgeDelete(k), 3);
            && th == Finished && s'.contracts == s.contracts - {k} && s'.protocols == s.protocols
            && s'.reorgGen == s.reorgGen && s'.protocolGen == s.protocolGen + 1 && k !in s'.cache.items
  {
    hide Solo, Drop;
    SoloNext(s, capacity, PurgeDelete(k), 3);
    var s1 := Move(s, capacity, PurgeDelete(k)).0.(clock := s.clock + 1);
    SoloNext(s1, capacity, PurgeBump(k, |s.writes|), 2);
    var s2 := Move(s1, capacity, PurgeBump(k, |s.writes|)).0.(clock := s1.clock + 1);
    SoloNext(s2, capacity, PurgeClear(k), 1);
    Done(Move(s2, capacity, PurgeClear(k)).0.(clock := s2.clock + 1), capacity, Finished, 0);
    Dropped(s2.cache, k);
  }

  lemma Dropped(c: Lru<Seen>, k: AddrDesc)
    ensures k !in Drop(c, k).items
  {
  }

  // ---------------------------------------------------------------- blocks are disconnected

  /** Only the cache and the clock may differ. */
  predicate SameButCache(s: State, s': State) { s' == s.(cache := s'.cache, clock := s'.clock) }

  lemma {:induction false} SlotsCleared(s: State, capacity: nat, keys: seq<AddrDesc>,
                                        rollback: map<AddrDesc, Option<Info>>, i: nat) returns (s': State)
    requires i <= |keys|
    ensures Solo(s, capacity, DropClear(keys, rollback, i), |keys| - i + 3)
            == Solo(s', capacity, DropCommit(keys, rollback), 2)
    ensures SameButCache(s, s')
    decreases |keys| - i
  {
    hide Solo, Drop;
    SoloNext(s, capacity, DropClear(keys, rollback, i), |keys| - i + 3);
    var s1 := Move(s, capacity, DropClear(keys, rollback, i)).0.(clock := s.clock + 1);
    if i < |keys| {
      s' := SlotsCleared(s1, capacity, keys, rollback, i + 1);
    } else {
      s' := s1;
    }
  }

  /** The part of a disconnect that touches contracts, on its own: the vaults of the keys are removed, the rows are
      those rolled back to, and the reorg is counted. */
  lemma DisconnectAlone(s: State, capacity: nat, keys: seq<AddrDesc>, rollback: map<AddrDesc, Option<Info>>,
                        k: AddrDesc)
    requires !s.locked
    ensures var (s', th) := Solo(s, capacity, Started(Disconnect(keys, rollback)), |keys| + 4);
            && th == Finished && !s'.locked && s'.reorgGen == s.reorgGen + 1 && s'.protocolGen == s.protocolGen
            && Find(s'.protocols, k) == (if k in keys then None else Find(s.protocols, k))
            && Find(s'.contracts, k) == if k in rollback then rollback[k] else Find(s.contracts, k)
  {
    hide Solo;
    SoloNext(s, capacity, DropLock(keys, rollback), |keys| + 4);
    var s1 := Move(s, capacity, DropLock(keys, rollback)).0.(clock := s.clock + 1);
    var s2 := SlotsCleared(s1, capacity, keys, rollback, 0);
    SoloNext(s2, capacity, DropCommit(keys, rollback), 2);
    var s3 := Move(s2, capacity, DropCommit(keys, rollback)).0.(clock := s2.clock + 1);
    SoloNext(s3, capacity, DropBump(|s2.writes|), 1);
    Done(Move(s3, capacity, DropBump(|s2.writes|)).0.(clock := s3.clock + 1), capacity, Finished, 0);
  }

  // ---------------------------------------------------------------- an info is read

  /** The cache has an entry under the current counters. */
  predicate Cached(s: State, k: AddrDesc) {
    k in s.cache.items && s.cache.items[k].reorgGen == s.reorgGen && s.cache.items[k].protocolGen == s.protocolGen
  }

  /** The row with the standard of the context where it has none. */
  function WithStandard(info: Info, c: nat): Info { if info.standard == 0 then Info(c, info.rest) else info }

  lemma Looked(s: State, capacity: nat, k: AddrDesc, c: nat) returns (s': State)
    requires Ok(s.cache, capacity)
    ensures SameButCache(s, s') && Ok(s'.cache, capacity)
    ensures Solo(s, capacity, Started(Get(k, c)), 7)
            == if Cached(s, k)
               then Solo(s', capacity, Answer(k, s.reorgGen, s.protocolGen, Some(s.cache.items[k].value), true), 4)
               else Solo(s', capacity, ReadRow(k, c, s.reorgGen, s.protocolGen), 4)
  {
    hide Solo, Lookup, Ok;
    var r, p := s.reorgGen, s.protocolGen;
    SoloNext(s, capacity, LoadReorg(k, c), 7);
    var s1 := s.(clock := s.clock + 1);
    SoloNext(s1, capacity, LoadProtocol(k, c, r), 6);
    var s2 := s1.(clock := s1.clock + 1);
    SoloNext(s2, capacity, Look(k, c, r, p), 5);
    LookupOk(s.cache, capacity, k, r, p);
    s' := Move(s2, capacity, Look(k, c, r, p)).0.(clock := s2.clock + 1);
  }

  lemma Fetched(s: State, capacity: nat, k: AddrDesc, info: Info, at: nat, n: nat)
    requires Ok(s.cache, capacity) && capacity > 0 && n >= 2
    ensures var (s', th) := Solo(s, capacity, ReadProtocol(k, s.reorgGen, s.protocolGen, info, at), n);
            && th.Answer? && th.k == k && th.result.Some? && th.result.value.info == info
            && th.result.value.vault == Find(s.protocols, k)
            && s'.contracts == s.contracts && s'.protocols == s.protocols
            && k in s'.cache.items && s'.cache.items[k] == Entry(th.result.value, s.reorgGen, s.protocolGen)
            && s'.reorgGen == s.reorgGen && s'.protocolGen == s.protocolGen
  {
    hide Solo, Insert, Ok;
    var r, p := s.reorgGen, s.protocolGen;
    SoloNext(s, capacity, ReadProtocol(k, r, p, info, at), n);
    var s1, v := s.(clock := s.clock + 1), Seen(info, Find(s.protocols, k), at);
    SoloNext(s1, capacity, AddEntry(k, r, p, v), n - 1);
    InsertOk(s.cache, capacity, k, Entry(v, r, p));
    Done(Move(s1, capacity, AddEntry(k, r, p, v)).0.(clock := s1.clock + 1), capacity,
        Answer(k, r, p, Some(v), false), n - 2);
  }

  /** What a call of GetContractInfo gives and leaves. */
  ghost predicate Answers(s: State, s': State, k: AddrDesc, c: nat, result: Option<Seen>) {
    && s'.protocols == s.protocols && s'.reorgGen == s.reorgGen && s'.protocolGen == s.protocolGen
    && if Cached(s, k) then result == Some(s.cache.items[k].value) && s'.contracts == s.contracts
       else if k !in s.contracts then result == None && s'.contracts == s.contracts
       else
         && result.Some? && result.value.info == WithStandard(s.contracts[k], c)
         && result.value.vault == Find(s.protocols, k)
         && s'.contracts == s.contracts[k := WithStandard(s.contracts[k], c)]
         && Cached(s', k) && s'.cache.items[k].value == result.value
  }

  /** GetContractInfo on its own: a cached info under the current counters, or the stored row with its vault; a standard
      that was unknown is taken from the context and stored, and what was read is cached. */
  lemma GetAlone(s: State, capacity: nat, k: AddrDesc, c: nat)
    requires Ok(s.cache, capacity) && capacity > 0
    ensures var (s', th) := Solo(s, capacity, Started(Get(k, c)), 7);
            th.Answer? && th.k == k && Answers(s, s', k, c, th.result)
  {
    hide Solo, Ok;
    var r, p := s.reorgGen, s.protocolGen;
    var s3 := Looked(s, capacity, k, c);
    if Cached(s, k) {
      Done(s3, capacity, Answer(k, r, p, Some(s.cache.items[k].value), true), 4);
    } else {
      SoloNext(s3, capacity, ReadRow(k, c, r, p), 4);
      var s4 := s3.(clock := s3.clock + 1);
      if k !in s.contracts {
        Done(s4, capacity, Answer(k, r, p, None, false), 3);
      } else {
        RowFetched(s, s3, s4, capacity, k, c);
      }
    }
  }

  lemma RowFetched(s: State, s3: State, s4: State, capacity: nat, k: AddrDesc, c: nat)
    requires SameButCache(s, s3) && s4 == s3.(clock := s3.clock + 1) && Ok(s3.cache, capacity) && capacity > 0
    requires !Cached(s, k) && k in s.contracts
    ensures var th4 := Move(s3, capacity, ReadRow(k, c, s.reorgGen, s.protocolGen)).1;
            var (s', th) := Solo(s4, capacity, th4, 3);
            th.Answer? && th.k == k && Answers(s, s', k, c, th.result)
  {
    hide Solo, Ok;
    var r, p, info := s.reorgGen, s.protocolGen, s.contracts[k];
    if c != 0 && info.standard == 0 {
      var put := PutRow(k, r, p, info.(standard := c), s3.clock);
      SoloNext(s4, capacity, put, 3);
      var s5 := Move(s4, capacity, put).0.(clock := s4.clock + 1);
      Fetched(s5, capacity, k, info.(standard := c), s3.clock, 2);
    } else {
      Fetched(s4, capacity, k, info, s3.clock, 3);
      assert s.contracts[k := WithStandard(info, c)] == s.contracts;
    }
  }
}
