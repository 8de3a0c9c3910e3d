// The cache of contract infos over any run of calls: what is in it, and which entry goes when it is full, stated on the
// history of calls alone.
module CacheHistory {
  import opened Types
  import opened ContractCache

  datatype CacheCall<V> =
    | Get(k: AddrDesc, reorgGen: nat, protocolGen: nat)
    | Add(k: AddrDesc, value: V, reorgGen: nat, protocolGen: nat)
    | Delete(k: AddrDesc)

  function Do<V>(c: Lru<V>, capacity: nat, x: CacheCall<V>): Lru<V> {
    match x
    case Get(k, r, p) => Lookup(c, k, r, p).0
    case Add(k, v, r, p) => Insert(c, capacity, k, Entry(v, r, p))
    case Delete(k) => Drop(c, k)
  }

  function Play<V>(capacity: nat, calls: seq<CacheCall<V>>): Lru<V> {
    if calls == [] then Lru([], map[])
    else Do(Play(capacity, calls[..|calls| - 1]), capacity, calls[|calls| - 1])
  }

  /** The call adds the key, or finds it. */
  predicate Uses<V>(items: map<AddrDesc, Entry<V>>, x: CacheCall<V>, k: AddrDesc) {
    && x.k == k
    && match x
       case Get(_, r, p) => k in items && items[k].reorgGen == r && items[k].protocolGen == p
       case Add(_, _, _, _) => true
       case Delete(_) => false
  }

  /** The number of the last call that used the key, -1 if none did. */
  function LastUse<V>(capacity: nat, calls: seq<CacheCall<V>>, k: AddrDesc): int {
    if calls == [] then -1
    else
      var n := |calls| - 1;
      if Uses(Play(capacity, calls[..n]).items, calls[n], k) then n else LastUse(capacity, calls[..n], k)
  }

  lemma {:induction false} LastUseBefore<V>(capacity: nat, calls: seq<CacheCall<V>>, k: AddrDesc)
    ensures -1 <= LastUse(capacity, calls, k) < |calls|
  {
    if calls != [] { LastUseBefore(capacity, calls[..|calls| - 1], k); }
  }

  // ---------------------------------------------------------------- the order is that of use

  /** Keys are listed by their numbers, highest first. */
  ghost predicate Falling(s: seq<AddrDesc>, use: AddrDesc -> int) {
    forall i, j :: 0 <= i < j < |s| ==> use(s[i]) > use(s[j])
  }

  lemma {:induction false} WithoutPlaces(s: seq<AddrDesc>, k: AddrDesc, i: nat, j: nat) returns (x: nat, y: nat)
    requires i < j < |Without(s, k)|
    ensures x < y < |s| && s[x] == Without(s, k)[i] && s[y] == Without(s, k)[j]
  {
    if s[0] == k {
      x, y := WithoutPlaces(s[1..], k, i, j);
      x, y := x + 1, y + 1;
    } else if i == 0 {
      assert Without(s, k)[j] == Without(s[1..], k)[j - 1];
      assert Without(s[1..], k)[j - 1] in Without(s[1..], k);
      assert Without(s[1..], k)[j - 1] in s[1..];
      var z :| 0 <= z < |s[1..]| && s[1..][z] == Without(s[1..], k)[j - 1];
      x, y := 0, z + 1;
    } else {
      x, y := WithoutPlaces(s[1..], k, i - 1, j - 1);
      x, y := x + 1, y + 1;
    }
  }

  lemma WithoutFalls(s: seq<AddrDesc>, k: AddrDesc, use: AddrDesc -> int)
    requires Falling(s, use)
    ensures Falling(Without(s, k), use)
  {
    var r := Without(s, k);
    forall i, j | 0 <= i < j < |r| ensures use(r[i]) > use(r[j]) {
      var x, y := WithoutPlaces(s, k, i, j);
    }
  }

  lemma FrontFalls(s: seq<AddrDesc>, k: AddrDesc, use: AddrDesc -> int)
    requires Falling(s, use) && forall x :: x in s ==> use(x) < use(k)
    ensures Falling([k] + s, use)
  {
  }

  lemma SameFalls(s: seq<AddrDesc>, use: AddrDesc -> int, use': AddrDesc -> int)
    requires Falling(s, use) && forall x :: x in s ==> use(x) == use'(x)
    ensures Falling(s, use')
  {
    forall i, j | 0 <= i < j < |s| ensures use'(s[i]) > use'(s[j]) {
      assert s[i] in s && s[j] in s;
    }
  }

  ghost predicate Kept<V>(capacity: nat, calls: seq<CacheCall<V>>) {
    Ok(Play(capacity, calls), capacity) && Falling(Play(capacity, calls).order, k => LastUse(capacity, calls, k))
  }

  /** What a call does to the order: a used key comes to the front, others keep their order, and at most one goes. */
  lemma OrderAfter<V>(c: Lru<V>, capacity: nat, x: CacheCall<V>)
    requires Ok(c, capacity) && capacity > 0
    ensures Ok(Do(c, capacity, x), capacity)
    ensures var full := if Uses(c.items, x, x.k) then [x.k] + Without(c.order, x.k) else Without(c.order, x.k);
            var order := Do(c, capacity, x).order;
            |order| <= |full| && order == full[..|order|]
  {
    match x
    case Get(k, r, p) =>
      LookupOk(c, capacity, k, r, p);
      if k !in c.items { NotThere(c.order, k); }
    case Add(k, v, r, p) => InsertOk(c, capacity, k, Entry(v, r, p));
    case Delete(k) => WithoutDistinct(c.order, k);
  }

  lemma DoKeeps<V>(capacity: nat, calls: seq<CacheCall<V>>, x: CacheCall<V>)
    requires Kept(capacity, calls) && capacity > 0
    ensures Kept(capacity, calls + [x])
  {
    var c, more := Play(capacity, calls), calls + [x];
    assert more[..|calls|] == calls;
    var use, use' := k => LastUse(capacity, calls, k), k => LastUse(capacity, more, k);
    hide Ok, Without, Do;
    OrderAfter(c, capacity, x);
    var rest := Without(c.order, x.k);
    WithoutFalls(c.order, x.k, use);
    SameFalls(rest, use, use');
    if Uses(c.items, x, x.k) {
      forall y | y in rest ensures use'(y) < use'(x.k) { LastUseBefore(capacity, calls, y); }
      FrontFalls(rest, x.k, use');
    }
    assert Play(capacity, more) == Do(c, capacity, x);
  }

  /** In every run the cache lists its keys by their last use, latest first. */
  lemma {:induction false} OrderIsByUse<V>(capacity: nat, calls: seq<CacheCall<V>>)
    requires capacity > 0
    ensures Kept(capacity, calls)
  {
    if calls != [] {
      var n := |calls| - 1;
      OrderIsByUse(capacity, calls[..n]);
      DoKeeps(capacity, calls[..n], calls[n]);
      assert calls[..n] + [calls[n]] == calls;
    }
  }

  // ---------------------------------------------------------------- what is in the cache

  lemma {:induction false} KeysCounted(s: seq<AddrDesc>, keys: set<AddrDesc>)
    requires Distinct(s) && forall k :: k in s <==> k in keys
    ensures |keys| == |s|
  {
    if s != [] {
      var n := |s| - 1;
      forall k ensures k in s[..n] <==> k in keys - {s[n]} {
        if k in s && k != s[n] {
          var i :| 0 <= i < |s| && s[i] == k;
          assert s[..n][i] == k;
        }
      }
      KeysCounted(s[..n], keys - {s[n]});
    } else {
      assert keys == {};
    }
  }

  /** The key that was not used for longest. */
  ghost predicate LeastRecent<V>(capacity: nat, calls: seq<CacheCall<V>>, items: map<AddrDesc, Entry<V>>, k: AddrDesc) {
    k in items && forall x :: x in items && x != k ==> LastUse(capacity, calls, k) < LastUse(capacity, calls, x)
  }

  /** What a call leaves in the cache. Only an add to a full cache takes out another key: the one that was not used for
      longest. A get takes out its own key if the counters differ, and nothing else. */
  ghost predicate Outcome<V>(capacity: nat, calls: seq<CacheCall<V>>, x: CacheCall<V>, was: map<AddrDesc, Entry<V>>,
                             now: map<AddrDesc, Entry<V>>)
  {
    match x
    case Get(k, r, p) => now == if Uses(was, x, k) then was else was - {k}
    case Add(k, v, r, p) =>
      if k !in was && |was| == capacity
      then exists y :: LeastRecent(capacity, calls, was, y) && now == was[k := Entry(v, r, p)] - {y}
      else now == was[k := Entry(v, r, p)]
    case Delete(k) => now == was - {k}
  }

  /** The value and the counters of the last add of the key. */
  ghost predicate LastAdded<V>(calls: seq<CacheCall<V>>, k: AddrDesc, e: Entry<V>) {
    exists i :: 0 <= i < |calls| && calls[i] == Add(k, e.value, e.reorgGen, e.protocolGen)
      && forall j :: i < j < |calls| && calls[j].Add? ==> calls[j].k != k
  }

  lemma LastIsLeast<V>(capacity: nat, calls: seq<CacheCall<V>>)
    requires Kept(capacity, calls) && Play(capacity, calls).order != []
    ensures var c := Play(capacity, calls); LeastRecent(capacity, calls, c.items, c.order[|c.order| - 1])
  {
    hide Play, LastUse;
    var c := Play(capacity, calls);
    var n := |c.order| - 1;
    assert c.order[n] in c.order;
    forall x | x in c.items && x != c.order[n]
      ensures LastUse(capacity, calls, c.order[n]) < LastUse(capacity, calls, x)
    {
      assert x in c.order;
      LastFalls(c.order, k => LastUse(capacity, calls, k), x);
    }
  }

  lemma LastFalls(s: seq<AddrDesc>, use: AddrDesc -> int, x: AddrDesc)
    requires Falling(s, use) && x in s && x != s[|s| - 1]
    ensures use(x) > use(s[|s| - 1])
  {
    var i :| 0 <= i < |s| && s[i] == x;
    assert i < |s| - 1;
  }

  /** In every run of gets, adds and deletes, each call has exactly that outcome. */
  lemma CallOutcome<V>(capacity: nat, calls: seq<CacheCall<V>>, x: CacheCall<V>)
    requires capacity > 0
    ensures Outcome(capacity, calls, x, Play(capacity, calls).items, Play(capacity, calls + [x]).items)
  {
    var c := Play(capacity, calls);
    assert (calls + [x])[..|calls|] == calls;
    OrderIsByUse(capacity, calls);
    KeysCounted(c.order, c.items.Keys);
    hide Without;
    match x
    case Get(k, r, p) => LookupOk(c, capacity, k, r, p);
    case Add(k, v, r, p) =>
      AddOutcome(capacity, calls, x);
    case Delete(k) =>
  }

  lemma AddOutcome<V>(capacity: nat, calls: seq<CacheCall<V>>, x: CacheCall<V>)
    requires capacity > 0 && Kept(capacity, calls) && x.Add?
    requires |Play(capacity, calls).items| == |Play(capacity, calls).order|
    ensures var c := Play(capacity, calls); Outcome(capacity, calls, x, c.items, Do(c, capacity, x).items)
  {
    var c, e := Play(capacity, calls), Entry(x.value, x.reorgGen, x.protocolGen);
    var now := Do(c, capacity, x).items;
    InsertOk(c, capacity, x.k, e);
    if x.k !in c.items && |c.items| == capacity {
      LastIsLeast(capacity, calls);
      var y := c.order[|c.order| - 1];
      assert y in c.order;
      assert now == c.items[x.k := e] - {y};
    } else {
      assert now == c.items[x.k := e];
    }
  }

  /** In every run a cached entry is that of the last add of its key. */
  lemma {:induction false} EntriesAreLastAdded<V>(capacity: nat, calls: seq<CacheCall<V>>, k: AddrDesc)
    requires capacity > 0 && k in Play(capacity, calls).items
    ensures LastAdded(calls, k, Play(capacity, calls).items[k])
  {
    var n := |calls| - 1;
    var was, now := Play(capacity, calls[..n]).items, Play(capacity, calls).items;
    CallOutcome(capacity, calls[..n], calls[n]);
    assert calls[..n] + [calls[n]] == calls;
    if calls[n].Add? && calls[n].k == k {
      assert calls[n] == Add(k, now[k].value, now[k].reorgGen, now[k].protocolGen);
    } else {
      assert k in was && now[k] == was[k];
      EntriesAreLastAdded(capacity, calls[..n], k);
      var i :| 0 <= i < n && calls[..n][i] == Add(k, now[k].value, now[k].reorgGen, now[k].protocolGen)
          && forall j :: i < j < n && calls[..n][j].Add? ==> calls[..n][j].k != k;
      assert calls[i] == Add(k, now[k].value, now[k].reorgGen, now[k].protocolGen);
      forall j | i < j < |calls| && calls[j].Add? ensures calls[j].k != k {
        if j < n { assert calls[..n][j].k != k; }
      }
    }
  }
}
