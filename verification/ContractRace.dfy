// Readers of contract infos running against protocol writes, purges and disconnects. Every load
// of a counter, lookup, column access, counter bump and cache update is one atomic step; threads
// interleave in any order.
module ContractRace {
  import opened Types
  import opened ContractCache

  type Payload = seq<byte>

  /** A contract row: its token standard, 0 while unknown, and whatever else it holds. */
  datatype Info = Info(standard: nat, rest: int)

  /** What a reader puts together: the contract row and the vault detected for it. `at` is the step at which the first
      column was read; it is kept only to state what was read when. */
  datatype Seen = Seen(info: Info, vault: Option<Payload>, at: nat)

  /** A committed change of rows, and the counter value that announced it once it was counted. */
  datatype Write = Write(keys: set<AddrDesc>, at: nat, reorg: bool, bump: Option<nat>)

  datatype Thread =
    // GetContractInfo of `k`, called with the standard known from context or 0
    | LoadReorg(k: AddrDesc, context: nat)
    | LoadProtocol(k: AddrDesc, context: nat, r: nat)
    | Look(k: AddrDesc, context: nat, r: nat, p: nat)
    | ReadRow(k: AddrDesc, context: nat, r: nat, p: nat)
    | PutRow(k: AddrDesc, r: nat, p: nat, info: Info, at: nat)
    | ReadProtocol(k: AddrDesc, r: nat, p: nat, info: Info, at: nat)
    | AddEntry(k: AddrDesc, r: nat, p: nat, v: Seen)
    | Answer(k: AddrDesc, r: nat, p: nat, result: Option<Seen>, hit: bool)
    // SetErcProtocol
    | SetLock(k: AddrDesc, payload: Payload, observed: nat, sameHash: bool)
    | SetCheck(k: AddrDesc, payload: Payload)
    | SetCommit(k: AddrDesc, payload: Payload)
    | SetBump(k: AddrDesc, w: nat)
    | SetClear(k: AddrDesc)
    // DeleteContractInfoForAddress
    | PurgeRead(k: AddrDesc)
    | PurgeDelete(k: AddrDesc)
    | PurgeBump(k: AddrDesc, w: nat)
    | PurgeClear(k: AddrDesc)
    // DisconnectBlockRangeEthereumType: vaults of `keys` and the rows in `rollback` are reverted
    | DropLock(keys: seq<AddrDesc>, rollback: map<AddrDesc, Option<Info>>)
    | DropClear(keys: seq<AddrDesc>, rollback: map<AddrDesc, Option<Info>>, i: nat)
    | DropCommit(keys: seq<AddrDesc>, rollback: map<AddrDesc, Option<Info>>)
    | DropBump(w: nat)
    | Finished

  datatype State = State(
    contracts: map<AddrDesc, Info>,
    protocols: map<AddrDesc, Payload>,
    reorgGen: nat,
    protocolGen: nat,
    cache: Lru<Seen>,
    threads: map<nat, Thread>,
    locked: bool,            // connectBlockMux
    clock: nat,
    writes: seq<Write>)

  function Find<V>(m: map<AddrDesc, V>, k: AddrDesc): Option<V> { if k in m then Some(m[k]) else None }

  function RollBack(rows: map<AddrDesc, Info>, rollback: map<AddrDesc, Option<Info>>): map<AddrDesc, Info> {
    map k | k in rows.Keys + rollback.Keys && (k in rollback ==> rollback[k].Some?) ::
      if k in rollback then rollback[k].value else rows[k]
  }

  // ---------------------------------------------------------------- steps

  datatype Call = Get(k: AddrDesc, context: nat) | Set(k: AddrDesc, payload: Payload, observed: nat, sameHash: bool)
                | Purge(k: AddrDesc) | Disconnect(keys: seq<AddrDesc>, rollback: map<AddrDesc, Option<Info>>)

  function Started(c: Call): Thread {
    match c
    case Get(k, context) => LoadReorg(k, context)
    case Set(k, payload, observed, sameHash) => SetLock(k, payload, observed, sameHash)
    case Purge(k) => PurgeRead(k)
    case Disconnect(keys, rollback) => DropLock(keys, rollback)
  }

  function Commit(s: State, keys: set<AddrDesc>, reorg: bool): State {
    s.(writes := s.writes + [Write(keys, s.clock, reorg, None)])
  }

  function BumpProtocol(s: State, w: nat): State {
    s.(protocolGen := s.protocolGen + 1,
       writes := if w < |s.writes| then s.writes[w := s.writes[w].(bump := Some(s.protocolGen + 1))] else s.writes)
  }

  function BumpReorg(s: State, w: nat): State {
    s.(reorgGen := s.reorgGen + 1,
       writes := if w < |s.writes| then s.writes[w := s.writes[w].(bump := Some(s.reorgGen + 1))] else s.writes)
  }

  function ClearKey(s: State, k: AddrDesc): State { s.(cache := Drop(s.cache, k)) }

  /** One step of a thread and the thread's next place; a thread that waits for the lock stays. */
  function Move(s: State, capacity: nat, th: Thread): (State, Thread) {
    match th
    case LoadReorg(k, c) => (s, LoadProtocol(k, c, s.reorgGen))
    case LoadProtocol(k, c, r) => (s, Look(k, c, r, s.protocolGen))
    case Look(k, c, r, p) =>
      var (cache, v) := Lookup(s.cache, k, r, p);
      (s.(cache := cache), if v.Some? then Answer(k, r, p, v, true) else ReadRow(k, c, r, p))
    case ReadRow(k, c, r, p) =>
      if k !in s.contracts then (s, Answer(k, r, p, None, false))
      else
        var info := s.contracts[k];
        (s, if c != 0 && info.standard == 0 then PutRow(k, r, p, info.(standard := c), s.clock)
            else ReadProtocol(k, r, p, info, s.clock))
    case PutRow(k, r, p, info, at) => (s.(contracts := s.contracts[k := info]), ReadProtocol(k, r, p, info, at))
    case ReadProtocol(k, r, p, info, at) => (s, AddEntry(k, r, p, Seen(info, Find(s.protocols, k), at)))
    case AddEntry(k, r, p, v) => (s.(cache := Insert(s.cache, capacity, k, Entry(v, r, p))),
        Answer(k, r, p, Some(v), false))
    case SetLock(k, payload, observed, sameHash) =>
      if s.locked then (s, th)
      else if s.reorgGen != observed || !sameHash then (s, Finished)
      else (s.(locked := true), SetCheck(k, payload))
    case SetCheck(k, payload) => (s, if k in s.protocols then SetClear(k) else SetCommit(k, payload))
    case SetCommit(k, payload) => (Commit(s.(protocols := s.protocols[k := payload]), {k}, false),
        SetBump(k, |s.writes|))
    case SetBump(k, w) => (BumpProtocol(s, w), SetClear(k))
    case SetClear(k) => (ClearKey(s.(locked := false), k), Finished)
    case PurgeRead(k) => (s, if k in s.contracts then PurgeDelete(k) else Finished)
    case PurgeDelete(k) => (Commit(s.(contracts := s.contracts - {k}), {k}, false), PurgeBump(k, |s.writes|))
    case PurgeBump(k, w) => (BumpProtocol(s, w), PurgeClear(k))
    case PurgeClear(k) => (ClearKey(s, k), Finished)
    case DropLock(keys, rollback) => if s.locked then (s, th) else (s.(locked := true), DropClear(keys, rollback, 0))
    case DropClear(keys, rollback, i) =>
      if i < |keys| then (ClearKey(s, keys[i]), DropClear(keys, rollback, i + 1)) else (s, DropCommit(keys, rollback))
    case DropCommit(keys, rollback) =>
      var gone := set k | k in keys;
      (Commit(s.(protocols := s.protocols - gone, contracts := RollBack(s.contracts, rollback)),
          gone + rollback.Keys, true), DropBump(|s.writes|))
    case DropBump(w) => (BumpReorg(s.(locked := false), w), Finished)
    case Answer(_, _, _, _, _) => (s, th)
    case Finished => (s, th)
  }

  datatype Action = Begin(t: nat, c: Call) | Go(t: nat)

  function Act(s: State, capacity: nat, a: Action): State {
    match a
    case Begin(t, c) => if t in s.threads then s else s.(threads := s.threads[t := Started(c)])
    case Go(t) =>
      if t !in s.threads then s
      else
        var (s', th) := Move(s, capacity, s.threads[t]);
        s'.(threads := s.threads[t := th], clock := s.clock + 1)
  }

  function Run(s: State, capacity: nat, acts: seq<Action>): State {
    if acts == [] then s else Act(Run(s, capacity, acts[..|acts| - 1]), capacity, acts[|acts| - 1])
  }

  function Init(contracts: map<AddrDesc, Info>, protocols: map<AddrDesc, Payload>): State {
    State(contracts, protocols, 0, 0, Lru([], map[]), map[], false, 0, [])
  }

  // ---------------------------------------------------------------- what holds

  predicate Announced(w: Write, r: nat, p: nat) { w.bump.Some? && w.bump.value <= (if w.reorg then r else p) }

  /** Every write announced by the counters `r`, `p` was committed before step `at`. */
  ghost predicate Covered(writes: seq<Write>, at: nat, r: nat, p: nat) {
    forall i :: 0 <= i < |writes| && Announced(writes[i], r, p) ==> writes[i].at < at
  }

  /** Some change of rows of `k` is committed and not yet announced. */
  ghost predicate Pending(writes: seq<Write>, k: AddrDesc) {
    exists i :: 0 <= i < |writes| && writes[i].bump.None? && k in writes[i].keys
  }

  /** While the counters stand at `r`, `p` and nothing is pending for `k`, `vault` is what is stored. */
  ghost predicate Current(s: State, k: AddrDesc, r: nat, p: nat, vault: Option<Payload>) {
    r == s.reorgGen && p == s.protocolGen && !Pending(s.writes, k) ==> vault == Find(s.protocols, k)
  }

  ghost predicate Sampled(s: State, r: nat, p: nat) { r <= s.reorgGen && p <= s.protocolGen }

  ghost predicate SeenOk(s: State, k: AddrDesc, r: nat, p: nat, v: Seen) {
    Sampled(s, r, p) && Covered(s.writes, v.at, r, p) && Current(s, k, r, p, v.vault)
  }

  ghost predicate ThreadOk(s: State, th: Thread) {
    match th
    case LoadProtocol(k, c, r) => r <= s.reorgGen
    case Look(k, c, r, p) => Sampled(s, r, p)
    case ReadRow(k, c, r, p) => Sampled(s, r, p)
    case PutRow(k, r, p, info, at) => Sampled(s, r, p) && Covered(s.writes, at, r, p)
    case ReadProtocol(k, r, p, info, at) => Sampled(s, r, p) && Covered(s.writes, at, r, p)
    case AddEntry(k, r, p, v) => SeenOk(s, k, r, p, v)
    case Answer(k, r, p, v, hit) => v.Some? ==> SeenOk(s, k, r, p, v.value)
    case SetBump(k, w) => w < |s.writes| && !s.writes[w].reorg
    case PurgeBump(k, w) => w < |s.writes| && !s.writes[w].reorg
    case DropBump(w) => w < |s.writes| && s.writes[w].reorg
    case _ => true
  }

  ghost predicate EntriesOk(s: State) {
    forall k :: k in s.cache.items ==>
        SeenOk(s, k, s.cache.items[k].reorgGen, s.cache.items[k].protocolGen, s.cache.items[k].value)
  }

  ghost predicate ThreadsOk(s: State) { forall t :: t in s.threads ==> ThreadOk(s, s.threads[t]) }

  ghost predicate Safe(s: State, capacity: nat) {
    && Ok(s.cache, capacity) && EntriesOk(s) && ThreadsOk(s)
    && forall i :: 0 <= i < |s.writes| ==> s.writes[i].at < s.clock
  }

  /** What every step does to the counters, the log of writes and the vaults. */
  ghost predicate Advances(s: State, s': State) {
    && s.reorgGen <= s'.reorgGen && s.protocolGen <= s'.protocolGen
    && |s.writes| <= |s'.writes| && (forall i :: 0 <= i < |s.writes| ==> s'.writes[i].reorg == s.writes[i].reorg)
    && (forall i :: 0 <= i < |s'.writes| && s'.writes[i].bump.Some? ==>
          || (i < |s.writes| && s.writes[i] == s'.writes[i])
          || s'.writes[i].bump.value > (if s'.writes[i].reorg then s.reorgGen else s.protocolGen))
    && (s'.reorgGen == s.reorgGen && s'.protocolGen == s.protocolGen ==>
          && (forall i :: 0 <= i < |s.writes| ==> s'.writes[i] == s.writes[i])
          && (forall k :: !Pending(s'.writes, k) ==> Find(s'.protocols, k) == Find(s.protocols, k)))
  }

  lemma SeenStays(s: State, s': State, k: AddrDesc, r: nat, p: nat, v: Seen)
    requires SeenOk(s, k, r, p, v) && Advances(s, s')
    ensures SeenOk(s', k, r, p, v)
  {
    CoveredStays(s, s', v.at, r, p);
    if Pending(s.writes, k) && s'.reorgGen == s.reorgGen && s'.protocolGen == s.protocolGen {
      var i :| 0 <= i < |s.writes| && s.writes[i].bump.None? && k in s.writes[i].keys;
      assert s'.writes[i] == s.writes[i];
    }
  }

  lemma CoveredStays(s: State, s': State, at: nat, r: nat, p: nat)
    requires Sampled(s, r, p) && Covered(s.writes, at, r, p) && Advances(s, s')
    ensures Sampled(s', r, p) && Covered(s'.writes, at, r, p)
  {
  }

  lemma ThreadStays(s: State, s': State, th: Thread)
    requires ThreadOk(s, th) && Advances(s, s')
    ensures ThreadOk(s', th)
  {
    match th {
      case PutRow(k, r, p, info, at) => CoveredStays(s, s', at, r, p);
      case ReadProtocol(k, r, p, info, at) => CoveredStays(s, s', at, r, p);
      case AddEntry(k, r, p, v) => SeenStays(s, s', k, r, p, v);
      case Answer(k, r, p, v, hit) => if v.Some? { SeenStays(s, s', k, r, p, v.value); }
      case _ =>
    }
  }

  lemma CommitAdvances(s: State, s': State, keys: set<AddrDesc>, reorg: bool)
    requires s'.writes == s.writes + [Write(keys, s.clock, reorg, None)] && s'.reorgGen == s.reorgGen
             && s'.protocolGen == s.protocolGen
    requires forall k :: k !in keys ==> Find(s'.protocols, k) == Find(s.protocols, k)
    ensures Advances(s, s')
  {
    forall k | !Pending(s'.writes, k) ensures Find(s'.protocols, k) == Find(s.protocols, k) {
      assert s'.writes[|s.writes|] == Write(keys, s.clock, reorg, None);
    }
  }

  lemma MoveAdvances(s: State, capacity: nat, th: Thread)
    requires ThreadOk(s, th)
    ensures Advances(s, Move(s, capacity, th).0)
  {
    var s' := Move(s, capacity, th).0;
    match th {
      case SetCommit(k, payload) => CommitAdvances(s, s', {k}, false);
      case PurgeDelete(k) => CommitAdvances(s, s', {k}, false);
      case DropCommit(keys, rollback) => CommitAdvances(s, s', (set k | k in keys) + rollback.Keys, true);
      case _ =>
    }
  }

  /** Entries after a step were there before, or were just added by a reader. */
  lemma MoveEntries(s: State, capacity: nat, th: Thread)
    requires Safe(s, capacity) && capacity > 0 && ThreadOk(s, th)
    ensures var s' := Move(s, capacity, th).0; Ok(s'.cache, capacity) && EntriesOk(s')
  {
    var s' := Move(s, capacity, th).0;
    MoveAdvances(s, capacity, th);
    match th {
      case Look(k, c, r, p) => LookupOk(s.cache, capacity, k, r, p);
      case AddEntry(k, r, p, v) =>
        InsertOk(s.cache, capacity, k, Entry(v, r, p));
        SeenStays(s, s', k, r, p, v);
      case SetClear(k) => DropOk(s.cache, capacity, k);
      case PurgeClear(k) => DropOk(s.cache, capacity, k);
      case DropClear(keys, rollback, i) => if i < |keys| { DropOk(s.cache, capacity, keys[i]); }
      case _ =>
    }
    forall k | k in s'.cache.items
      ensures SeenOk(s', k, s'.cache.items[k].reorgGen, s'.cache.items[k].protocolGen, s'.cache.items[k].value)
    {
      if k in s.cache.items && s.cache.items[k] == s'.cache.items[k] {
        SeenStays(s, s', k, s.cache.items[k].reorgGen, s.cache.items[k].protocolGen, s.cache.items[k].value);
      }
    }
  }

  /** The moved thread is where it may be. */
  lemma MoveThread(s: State, capacity: nat, th: Thread)
    requires Safe(s, capacity) && ThreadOk(s, th)
    ensures var (s', th') := Move(s, capacity, th); ThreadOk(s', th')
  {
    var (s', th') := Move(s, capacity, th);
    MoveAdvances(s, capacity, th);
    match th {
      case Look(k, c, r, p) =>
        LookupOk(s.cache, capacity, k, r, p);
        if th'.Answer? { SeenStays(s, s', k, r, p, s.cache.items[k].value); }
      case AddEntry(k, r, p, v) => SeenStays(s, s', k, r, p, v);
      case _ => ThreadStays(s, s', th);
    }
  }

  lemma ActKeepsSafe(s: State, capacity: nat, a: Action)
    requires Safe(s, capacity) && capacity > 0
    ensures Safe(Act(s, capacity, a), capacity)
  {
    hide SeenOk, Advances, ThreadOk, Move;
    if a.Go? && a.t in s.threads {
      var th := s.threads[a.t];
      var s', th' := Move(s, capacity, th).0, Move(s, capacity, th).1;
      MoveAdvances(s, capacity, th);
      MoveEntries(s, capacity, th);
      MoveThread(s, capacity, th);
      MoveLog(s, capacity, th);
      var now := Act(s, capacity, a);
      forall t | t in now.threads ensures ThreadOk(now, now.threads[t]) {
        if t != a.t { ThreadStays(s, s', s.threads[t]); }
        Reclocked(s', now);
      }
      Reclocked(s', now);
    } else {
      Reclocked(s, Act(s, capacity, a));
      StartedOk(s, a);
    }
  }

  lemma StartedOk(s: State, a: Action)
    ensures a.Begin? ==> ThreadOk(s, Started(a.c))
  {
  }

  lemma MoveLog(s: State, capacity: nat, th: Thread)
    requires forall i :: 0 <= i < |s.writes| ==> s.writes[i].at < s.clock
    ensures var s' := Move(s, capacity, th).0; forall i :: 0 <= i < |s'.writes| ==> s'.writes[i].at < s.clock + 1
  {
  }

  /** The invariant on what was seen does not depend on the clock and the threads. */
  lemma Reclocked(s: State, s': State)
    requires s' == s.(threads := s'.threads, clock := s'.clock)
    ensures forall k, r, p, v :: SeenOk(s, k, r, p, v) ==> SeenOk(s', k, r, p, v)
    ensures forall th :: ThreadOk(s, th) ==> ThreadOk(s', th)
    ensures EntriesOk(s) ==> EntriesOk(s')
  {
  }

  lemma {:induction false} RunIsSafe(contracts: map<AddrDesc, Info>, protocols: map<AddrDesc, Payload>, capacity: nat,
                                     acts: seq<Action>)
    requires capacity > 0
    ensures var s := Run(Init(contracts, protocols), capacity, acts); Safe(s, capacity) && Owned(s)
  {
    if acts != [] {
      var n := |acts| - 1;
      RunIsSafe(contracts, protocols, capacity, acts[..n]);
      hide Safe, Owned;
      ActKeepsSafe(Run(Init(contracts, protocols), capacity, acts[..n]), capacity, acts[n]);
      ActKeepsOwned(Run(Init(contracts, protocols), capacity, acts[..n]), capacity, acts[n]);
    }
  }

  // ---------------------------------------------------------------- pending writes belong to threads

  /** The write a thread has committed and is about to announce. */
  function Announcing(th: Thread): Option<nat> {
    match th
    case SetBump(_, w) => Some(w)
    case PurgeBump(_, w) => Some(w)
    case DropBump(w) => Some(w)
    case _ => None
  }

  ghost predicate Owned(s: State) {
    forall i :: 0 <= i < |s.writes| && s.writes[i].bump.None? ==>
        exists t :: t in s.threads && Announcing(s.threads[t]) == Some(i)
  }

  lemma MoveOwned(s: State, capacity: nat, th: Thread)
    requires ThreadOk(s, th)
    ensures var (s', th') := Move(s, capacity, th);
            forall i :: 0 <= i < |s'.writes| && s'.writes[i].bump.None? ==>
              (i < |s.writes| && s.writes[i].bump.None? && Announcing(th) != Some(i)) || Announcing(th') == Some(i)
  {
  }

  lemma ActKeepsOwned(s: State, capacity: nat, a: Action)
    requires Safe(s, capacity) && Owned(s)
    ensures Owned(Act(s, capacity, a))
  {
    hide Move, ThreadOk, SeenOk;
    var now := Act(s, capacity, a);
    if a.Go? && a.t in s.threads {
      MoveOwned(s, capacity, s.threads[a.t]);
    }
    forall i | 0 <= i < |now.writes| && now.writes[i].bump.None?
      ensures exists t :: t in now.threads && Announcing(now.threads[t]) == Some(i)
    {
      if a.Go? && a.t in s.threads && Announcing(now.threads[a.t]) == Some(i) {
      } else {
        var t :| t in s.threads && Announcing(s.threads[t]) == Some(i);
        assert t in now.threads && now.threads[t] == s.threads[t];
      }
    }
  }

  // ---------------------------------------------------------------- what a reader may rely on

  /** No thread stands between committing a change and counting it. */
  ghost predicate Quiet(s: State) { forall t :: t in s.threads ==> Announcing(s.threads[t]) == None }

  /** In every interleaving, an answer given under counters that include the bump of a write, purge or
      disconnect was read after that write was committed. While these counters stand and no writer is
      between commit and bump, the answer shows the stored vault. */
  lemma AnswersAreFresh(contracts: map<AddrDesc, Info>, protocols: map<AddrDesc, Payload>, capacity: nat,
                        acts: seq<Action>, t: nat)
    requires capacity > 0
    ensures var s := Run(Init(contracts, protocols), capacity, acts);
            t in s.threads && s.threads[t].Answer? && s.threads[t].result.Some? ==>
              var a, v := s.threads[t], s.threads[t].result.value;
              && (forall i :: 0 <= i < |s.writes| && Announced(s.writes[i], a.r, a.p) ==> s.writes[i].at < v.at)
              && (a.r == s.reorgGen && a.p == s.protocolGen && Quiet(s) ==> v.vault == Find(s.protocols, a.k))
  {
    RunIsSafe(contracts, protocols, capacity, acts);
    var s := Run(Init(contracts, protocols), capacity, acts);
    if t in s.threads {
      assert ThreadOk(s, s.threads[t]);
    }
  }

  lemma DropOk(c: Lru<Seen>, capacity: nat, k: AddrDesc)
    requires Ok(c, capacity)
    ensures Ok(Drop(c, k), capacity)
  {
    WithoutDistinct(c.order, k);
  }
}
