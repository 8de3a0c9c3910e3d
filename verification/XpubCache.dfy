// The cache of xpub data: entries are charged by their estimated size, and the least recently
// accessed ones go when there are too many or they take too much.
module XpubCache {
  import opened Types
  import opened Totals
  import opened Keys

  type Key = seq<byte>

  datatype Data = Data(accessed: int, bytes: nat)
  type Entries = map<Key, Data>

  /** Less recently accessed, by key among equals. */
  predicate Earlier(a: Data, k: Key, b: Data, j: Key) {
    a.accessed < b.accessed || (a.accessed == b.accessed && Less(k, j))
  }

  ghost function BytesOf(m: Entries): int { Total(map k | k in m :: m[k].bytes as int) }

  lemma BytesUpdate(m: Entries, k: Key, d: Data)
    ensures BytesOf(m[k := d]) == BytesOf(m) - (if k in m then m[k].bytes else 0) + d.bytes
  {
    var f, now := map x | x in m :: m[x].bytes as int, m[k := d];
    TotalUpdate(f, k, d.bytes);
    assert (map x | x in now :: now[x].bytes as int) == f[k := d.bytes];
  }

  lemma BytesRemove(m: Entries, k: Key)
    requires k in m
    ensures BytesOf(m - {k}) == BytesOf(m) - m[k].bytes
  {
    BytesUpdate(m - {k}, k, m[k]);
    assert (m - {k})[k := m[k]] == m;
  }

  // ---------------------------------------------------------------- the reference: remove the oldest one by one

  predicate IsOldest(m: Entries, k: Key) { k in m && forall j :: j in m && j != k ==> Earlier(m[k], k, m[j], j) }

  lemma EarlierTotal(a: Data, k: Key, b: Data, j: Key)
    ensures k != j ==> Earlier(a, k, b, j) || Earlier(b, j, a, k)
    ensures !(Earlier(a, k, b, j) && Earlier(b, j, a, k))
  {
    LessTotal(k, j);
  }

  lemma EarlierTrans(a: Data, k: Key, b: Data, j: Key, c: Data, i: Key)
    requires Earlier(a, k, b, j) && Earlier(b, j, c, i)
    ensures Earlier(a, k, c, i)
  {
    if a.accessed == b.accessed == c.accessed { LessTrans(k, j, i); }
  }

  lemma {:induction false} OldestExists(m: Entries)
    requires m != map[]
    ensures exists k :: IsOldest(m, k)
    decreases |m|
  {
    hide Earlier;
    assert m.Keys != {};
    var k :| k in m.Keys;
    var rest := m - {k};
    assert forall j :: j in m && j != k ==> j in rest && rest[j] == m[j];
    if rest == map[] {
      assert IsOldest(m, k);
    } else {
      OldestExists(rest);
      var o :| IsOldest(rest, o);
      EarlierTotal(m[k], k, m[o], o);
      if Earlier(m[k], k, m[o], o) {
        forall j | j in m && j != k ensures Earlier(m[k], k, m[j], j) {
          assert j in rest;
          if j != o { EarlierTrans(m[k], k, m[o], o, m[j], j); }
        }
        assert IsOldest(m, k);
      } else {
        assert IsOldest(m, o);
      }
    }
  }

  ghost function Oldest(m: Entries): (k: Key)
    requires m != map[]
    ensures IsOldest(m, k)
  {
    OldestExists(m);
    var k :| IsOldest(m, k);
    k
  }

  lemma OldestUnique(m: Entries, k: Key)
    requires IsOldest(m, k)
    ensures m != map[] && Oldest(m) == k
  {
    if Oldest(m) != k { EarlierTotal(m[k], k, m[Oldest(m)], Oldest(m)); }
  }

  datatype Caps = Caps(entries: int, bytes: int)

  ghost predicate Over(m: Entries, caps: Caps) { |m| > caps.entries || (|m| > 0 && BytesOf(m) > caps.bytes) }

  ghost function Trimmed(m: Entries, caps: Caps): Entries
    decreases |m|
  {
    if m == map[] || !Over(m, caps) then m else Trimmed(m - {Oldest(m)}, caps)
  }

  /** A set of entries that holds all that are older than one of its own. */
  ghost predicate OldestFirst(m: Entries, s: set<Key>) {
    s <= m.Keys && forall k, j :: k in s && j in m && j !in s ==> Earlier(m[k], k, m[j], j)
  }

  /** A prefix that brings an overfull cache within the caps holds the oldest entry and brings the rest within them. */
  lemma PrefixOfRest(m: Entries, s: set<Key>, k: Key, caps: Caps)
    requires Over(m, caps) && IsOldest(m, k) && OldestFirst(m, s) && !Over(m - s, caps)
    ensures k in s && OldestFirst(m - {k}, s - {k}) && (m - {k}) - (s - {k}) == m - s
  {
    hide Earlier, Over;
    assert m - {} == m;
    if k !in s {
      if s != {} {
        var x :| x in s;
        EarlierTotal(m[x], x, m[k], k);
      }
      assert false;
    }
  }

  lemma PrefixExtends(m: Entries, s: set<Key>, k: Key)
    requires IsOldest(m, k) && OldestFirst(m - {k}, s)
    ensures OldestFirst(m, s + {k}) && m - (s + {k}) == (m - {k}) - s
  {
    hide Earlier;
    var rest := m - {k};
    forall x, j | x in s + {k} && j in m && j !in s + {k} ensures Earlier(m[x], x, m[j], j) {
      assert j in rest;
      if x in s { assert x in rest; }
    }
  }

  /** Trimming removes the shortest prefix, oldest first, after which both caps hold. */
  ghost predicate ShortestTrim(m: Entries, t: Entries, caps: Caps) {
    var gone := m.Keys - t.Keys;
    && t == m - gone && !Over(t, caps) && OldestFirst(m, gone)
    && forall s :: OldestFirst(m, s) && !Over(m - s, caps) ==> gone <= s
  }

  lemma {:induction false} TrimIsShortest(m: Entries, caps: Caps)
    requires caps.entries >= 0
    ensures ShortestTrim(m, Trimmed(m, caps), caps)
    decreases |m|
  {
    hide Earlier, Over, OldestFirst;
    var t := Trimmed(m, caps);
    if m == map[] || !Over(m, caps) {
      NothingGone(m, caps);
    } else {
      var k := Oldest(m);
      var rest := m - {k};
      TrimIsShortest(rest, caps);
      var gone := rest.Keys - t.Keys;
      assert m.Keys - t.Keys == gone + {k};
      PrefixExtends(m, gone, k);
      forall s | OldestFirst(m, s) && !Over(m - s, caps) ensures gone + {k} <= s {
        PrefixOfRest(m, s, k, caps);
      }
    }
  }

  lemma NothingGone(m: Entries, caps: Caps)
    requires caps.entries >= 0 && (m == map[] || !Over(m, caps))
    ensures ShortestTrim(m, m, caps)
  {
    assert m.Keys - m.Keys == {} && m - {} == m;
  }

  // ---------------------------------------------------------------- the cache

  datatype Access = Access(key: Key, accessed: int)

  predicate Before(x: Access, y: Access) { x.accessed < y.accessed || (x.accessed == y.accessed && Less(x.key, y.key)) }

  ghost predicate InOrder(s: seq<Access>) { forall i, j :: 0 <= i < j < |s| ==> Before(s[i], s[j]) }

  /** `lru` lists the entries of `m` from `i` on, the oldest first. */
  ghost predicate Listed(m: Entries, lru: seq<Access>, i: nat) {
    && i <= |lru| && InOrder(lru)
    && (forall x :: i <= x < |lru| ==> lru[x].key in m && m[lru[x].key].accessed == lru[x].accessed)
    && (forall k :: k in m ==> exists x :: i <= x < |lru| && lru[x].key == k)
  }

  lemma ListedOldest(m: Entries, lru: seq<Access>, i: nat)
    requires Listed(m, lru, i) && i < |lru|
    ensures IsOldest(m, lru[i].key) && Listed(m - {lru[i].key}, lru, i + 1)
  {
    var k := lru[i].key;
    hide Less;
    forall j | j in m && j != k ensures Earlier(m[k], k, m[j], j) {
      var x :| i <= x < |lru| && lru[x].key == j;
      assert Before(lru[i], lru[x]);
    }
    forall x | i + 1 <= x < |lru| ensures lru[x].key in m - {k} {
      assert Before(lru[i], lru[x]);
      LessTotal(k, k);
    }
    forall j | j in m - {k} ensures exists x :: i + 1 <= x < |lru| && lru[x].key == j {
      var x :| i <= x < |lru| && lru[x].key == j;
      assert x != i;
    }
  }

  class Cache {
    var cachedXpubs: Entries
    var cachedXpubsBytes: int

    /** The byte total is what the entries were charged. */
    ghost predicate Valid()
      reads this
    {
      cachedXpubsBytes == BytesOf(cachedXpubs)
    }

    constructor ()
      ensures Valid() && cachedXpubs == map[]
    {
      cachedXpubs, cachedXpubsBytes := map[], 0;
      new;
      TotalZeros<Key>(map[]);
    }

    method Delete(key: Key)
      requires Valid()
      modifies this
      ensures Valid() && cachedXpubs == old(cachedXpubs) - {key}
    {
      if key in cachedXpubs {
        BytesRemove(cachedXpubs, key);
        cachedXpubsBytes := cachedXpubsBytes - cachedXpubs[key].bytes;
        cachedXpubs := cachedXpubs - {key};
      } else {
        assert cachedXpubs - {key} == cachedXpubs;
      }
    }

    /** putCachedXpubLocked with the estimated size of the entry. */
    method Put(key: Key, accessed: int, bytes: nat)
      requires Valid()
      modifies this
      ensures Valid() && cachedXpubs == old(cachedXpubs)[key := Data(accessed, bytes)]
    {
      Delete(key);
      BytesUpdate(cachedXpubs, key, Data(accessed, bytes));
      cachedXpubs := cachedXpubs[key := Data(accessed, bytes)];
      cachedXpubsBytes := cachedXpubsBytes + bytes;
    }

    /** A hit makes the entry the most recent without changing what it was charged. */
    method Touch(key: Key, now: int)
      requires Valid()
      modifies this
      ensures Valid()
      ensures cachedXpubs == if key in old(cachedXpubs)
              then old(cachedXpubs)[key := old(cachedXpubs)[key].(accessed := now)] else old(cachedXpubs)
    {
      if key in cachedXpubs {
        var d := cachedXpubs[key].(accessed := now);
        BytesUpdate(cachedXpubs, key, d);
        cachedXpubs := cachedXpubs[key := d];
      }
    }

    method IsOver(caps: Caps) returns (r: bool)
      requires Valid()
      ensures r == Over(cachedXpubs, caps)
    {
      return |cachedXpubs| > caps.entries || (|cachedXpubs| > 0 && cachedXpubsBytes > caps.bytes);
    }

    /** The scan for the one oldest entry. */
    method FindOldest() returns (k: Key)
      requires cachedXpubs != map[]
      ensures IsOldest(cachedXpubs, k)
    {
      hide Less;
      var todo := cachedXpubs.Keys;
      assert todo != {};
      k :| k in todo;
      todo := todo - {k};
      while todo != {}
        invariant k in cachedXpubs && k !in todo && todo <= cachedXpubs.Keys
        invariant forall j :: j in cachedXpubs && j !in todo && j != k ==> Earlier(cachedXpubs[k], k, cachedXpubs[j], j)
      {
        var j :| j in todo;
        todo := todo - {j};
        var x, y := cachedXpubs[j], cachedXpubs[k];
        EarlierTotal(x, j, y, k);
        if x.accessed < y.accessed || (x.accessed == y.accessed && Less(j, k)) {
          forall i | i in cachedXpubs && i !in todo && i != j && i != k ensures Earlier(x, j, cachedXpubs[i], i) {
            EarlierTrans(x, j, y, k, cachedXpubs[i], i);
          }
          k := j;
        }
      }
    }

    /** All entries, sorted once. */
    method ListByAge() returns (lru: seq<Access>)
      ensures Listed(cachedXpubs, lru, 0)
    {
      hide Less;
      lru := [];
      var todo := cachedXpubs.Keys;
      while todo != {}
        invariant todo <= cachedXpubs.Keys && InOrder(lru)
        invariant forall y :: y in lru ==>
                  y.key in cachedXpubs && y.key !in todo && cachedXpubs[y.key].accessed == y.accessed
        invariant forall k :: k in cachedXpubs && k !in todo ==> HasKey(lru, k)
      {
        var k :| k in todo;
        todo := todo - {k};
        lru := InsertAccess(lru, Access(k, cachedXpubs[k].accessed));
      }
    }

    /** trimXpubCacheItemsLocked: one scan, then one sort, gives what removing the oldest entry again and again gives.
        The count is that of the entries removed; with a negative cap an empty cache still counts one. */
    method Trim(caps: Caps) returns (count: nat)
      requires Valid()
      modifies this
      ensures Valid() && cachedXpubs == Trimmed(old(cachedXpubs), caps)
      ensures count == |old(cachedXpubs)| - |cachedXpubs| + if old(cachedXpubs) == map[]
              && caps.entries < 0 then 1 else 0
    {
      var over := IsOver(caps);
      if !over {
        return 0;
      }
      if |cachedXpubs| == 0 {
        return 1;
      }
      var oldest := FindOldest();
      OldestUnique(cachedXpubs, oldest);
      hide Over, IsOldest;
      Delete(oldest);
      count := 1;
      over := IsOver(caps);
      if !over {
        return;
      }
      var lru := ListByAge();
      var i := 0;
      while i < |lru| && over
        invariant i <= |lru| && Valid() && Listed(cachedXpubs, lru, i) && over == Over(cachedXpubs, caps)
        invariant Trimmed(old(cachedXpubs), caps) == Trimmed(cachedXpubs, caps)
        invariant count == |old(cachedXpubs)| - |cachedXpubs|
      {
        ListedOldest(cachedXpubs, lru, i);
        OldestUnique(cachedXpubs, lru[i].key);
        Delete(lru[i].key);
        count := count + 1;
        i := i + 1;
        over := IsOver(caps);
      }
      if over { NoneListed(cachedXpubs, lru, i); }
    }

    /** evictXpubCacheItemsLocked: what was not accessed lately goes first, then the caps are enforced. The count is
        that of the entries removed, with the one more that Trim counts for an empty cache and a negative cap. */
    method Evict(now: int, expiration: int, caps: Caps) returns (count: nat)
      requires Valid()
      modifies this
      ensures Valid() && cachedXpubs == Trimmed(Recent(old(cachedXpubs), now - expiration), caps)
      ensures count == |old(cachedXpubs)| - |cachedXpubs|
                       + if Recent(old(cachedXpubs), now - expiration) == map[] && caps.entries < 0 then 1 else 0
    {
      hide Trimmed, Recent;
      count := Expire(now - expiration);
      var trimmed := Trim(caps);
      count := count + trimmed;
    }

    /** The first loop of Evict. */
    method Expire(threshold: int) returns (count: nat)
      requires Valid()
      modifies this
      ensures Valid() && cachedXpubs == Recent(old(cachedXpubs), threshold)
              && count == |old(cachedXpubs)| - |cachedXpubs|
    {
      hide Recent;
      var todo := set k | k in cachedXpubs && cachedXpubs[k].accessed < threshold;
      count := 0;
      while todo != {}
        invariant todo == ExpiredKeys(cachedXpubs, threshold) && Valid()
        invariant Recent(cachedXpubs, threshold) == Recent(old(cachedXpubs), threshold)
        invariant count == |old(cachedXpubs)| - |cachedXpubs|
      {
        var k :| k in todo;
        OneLess(cachedXpubs, k);
        OneExpired(cachedXpubs, k, threshold);
        Delete(k);
        todo := todo - {k};
        count := count + 1;
      }
      NoneExpired(cachedXpubs, threshold);
    }
  }

  function ExpiredKeys(m: Entries, threshold: int): set<Key> { set k | k in m && m[k].accessed < threshold }

  lemma OneExpired(m: Entries, k: Key, threshold: int)
    requires k in ExpiredKeys(m, threshold)
    ensures ExpiredKeys(m - {k}, threshold) == ExpiredKeys(m, threshold) - {k}
    ensures Recent(m - {k}, threshold) == Recent(m, threshold)
  {
  }

  lemma NoneExpired(m: Entries, threshold: int)
    requires ExpiredKeys(m, threshold) == {}
    ensures Recent(m, threshold) == m
  {
    forall k | k in m ensures m[k].accessed >= threshold { assert k !in ExpiredKeys(m, threshold); }
  }

  /** The entries accessed at `threshold` or later. */
  function Recent(m: Entries, threshold: int): Entries { map k | k in m && m[k].accessed >= threshold :: m[k] }

  lemma OneLess(m: Entries, k: Key)
    requires k in m
    ensures |m - {k}| == |m| - 1
  {
    assert m == (m - {k})[k := m[k]];
  }

  predicate HasKey(lru: seq<Access>, k: Key) { exists x :: 0 <= x < |lru| && lru[x].key == k }

  lemma NoneListed(m: Entries, lru: seq<Access>, i: nat)
    requires Listed(m, lru, i) && i == |lru|
    ensures m == map[]
  {
    assert m.Keys == {};
  }

  method InsertAccess(lru: seq<Access>, x: Access) returns (r: seq<Access>)
    requires InOrder(lru) && forall i :: 0 <= i < |lru| ==> lru[i].key != x.key
    ensures InOrder(r) && |r| == |lru| + 1
    ensures forall y :: y in r <==> y in lru || y == x
    ensures forall k :: HasKey(r, k) <==> HasKey(lru, k) || k == x.key
  {
    hide Less;
    var i := |lru|;
    while i > 0 && Before(x, lru[i - 1])
      invariant 0 <= i <= |lru| && forall k :: i <= k < |lru| ==> Before(x, lru[k])
    {
      i := i - 1;
    }
    forall k | 0 <= k < i ensures Before(lru[k], x) {
      LessTotal(x.key, lru[i - 1].key);
      if k < i - 1 { BeforeTrans(lru[k], lru[i - 1], x); }
    }
    r := lru[..i] + [x] + lru[i..];
    assert forall y :: y in lru <==> y in lru[..i] || y in lru[i..];
    KeysOf(lru, r, x);
  }

  lemma KeysOf(lru: seq<Access>, r: seq<Access>, x: Access)
    requires forall y :: y in r <==> y in lru || y == x
    ensures forall k :: HasKey(r, k) <==> HasKey(lru, k) || k == x.key
  {
    forall k ensures HasKey(r, k) <==> HasKey(lru, k) || k == x.key {
      if HasKey(r, k) { var i :| 0 <= i < |r| && r[i].key == k; assert r[i] in r; }
      if HasKey(lru, k) { var i :| 0 <= i < |lru| && lru[i].key == k; assert lru[i] in r; }
      assert x in r;
    }
  }

  lemma BeforeTrans(x: Access, y: Access, z: Access)
    requires Before(x, y) && Before(y, z)
    ensures Before(x, z)
  {
    if x.accessed == y.accessed == z.accessed { LessTrans(x.key, y.key, z.key); }
  }
}
