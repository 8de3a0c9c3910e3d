// The bounded cache of contract infos: least recently used entries go first, and an entry is
// only handed out under the generation counters it was filled under.
module ContractCache {
  import opened Types

  /** A cached value with the counters sampled before it was read. */
  datatype Entry<V> = Entry(value: V, reorgGen: nat, protocolGen: nat)

  /** Keys with the most recently used one first, and their entries. */
  datatype Lru<V> = Lru(order: seq<AddrDesc>, items: map<AddrDesc, Entry<V>>)

  ghost predicate Distinct(s: seq<AddrDesc>) { forall i, j :: 0 <= i < j < |s| ==> s[i] != s[j] }

  ghost predicate Ok<V>(c: Lru<V>, capacity: nat) {
    Distinct(c.order) && (forall k :: k in c.order <==> k in c.items) && |c.order| <= capacity
  }

  function Without(s: seq<AddrDesc>, k: AddrDesc): (r: seq<AddrDesc>)
    ensures forall x :: x in r <==> x in s && x != k
  {
    if s == [] then [] else (if s[0] == k then [] else [s[0]]) + Without(s[1..], k)
  }

  lemma {:induction false} WithoutDistinct(s: seq<AddrDesc>, k: AddrDesc)
    requires Distinct(s)
    ensures Distinct(Without(s, k)) && |Without(s, k)| == |s| - (if k in s then 1 else 0)
  {
    if s != [] {
      WithoutDistinct(s[1..], k);
      assert s[0] !in s[1..];
    }
  }

  function Drop<V>(c: Lru<V>, k: AddrDesc): Lru<V> { Lru(Without(c.order, k), c.items - {k}) }

  /** A hit needs both counters to match; an entry under other counters is dropped. */
  function Lookup<V>(c: Lru<V>, k: AddrDesc, reorgGen: nat, protocolGen: nat): (Lru<V>, Option<V>) {
    if k !in c.items then (c, None)
    else
      var e := c.items[k];
      if e.reorgGen != reorgGen || e.protocolGen != protocolGen then (Drop(c, k), None)
      else (Lru([k] + Without(c.order, k), c.items), Some(e.value))
  }

  function Evict<V>(c: Lru<V>, capacity: nat): Lru<V> {
    var n := |c.order| - 1;
    if n < capacity then c else Lru(c.order[..n], c.items - {c.order[n]})
  }

  function Insert<V>(c: Lru<V>, capacity: nat, k: AddrDesc, e: Entry<V>): Lru<V> {
    Evict(Lru([k] + Without(c.order, k), c.items[k := e]), capacity)
  }

  // ---------------------------------------------------------------- what holds of them

  lemma FrontDistinct(s: seq<AddrDesc>, k: AddrDesc)
    requires Distinct(s)
    ensures Distinct([k] + Without(s, k)) && |[k] + Without(s, k)| == |s| + (if k in s then 0 else 1)
  {
    WithoutDistinct(s, k);
  }

  lemma LookupOk<V>(c: Lru<V>, capacity: nat, k: AddrDesc, r: nat, p: nat)
    requires Ok(c, capacity)
    ensures var (c', v) := Lookup(c, k, r, p);
            && Ok(c', capacity)
            && (v.Some? <==> k in c.items && c.items[k].reorgGen == r && c.items[k].protocolGen == p)
            && (v.Some? ==> v.value == c.items[k].value)
            && c'.items == if v.Some? then c.items else c.items - {k}
  {
    WithoutDistinct(c.order, k);
    FrontDistinct(c.order, k);
  }

  lemma EvictOk<V>(c: Lru<V>, capacity: nat)
    requires Ok(c, capacity + 1)
    ensures Ok(Evict(c, capacity), capacity)
  {
    var n := |c.order| - 1;
    if n >= capacity {
      var last, front := c.order[n], c.order[..n];
      forall x ensures x in front <==> x in c.order && x != last {
        if x in c.order && x != last {
          var i :| 0 <= i < |c.order| && c.order[i] == x;
          assert front[i] == x;
        }
      }
    }
  }

  /** Inserting evicts one entry, the last one, exactly when the cache is full and the key is not in it. */
  lemma InsertOk<V>(c: Lru<V>, capacity: nat, k: AddrDesc, e: Entry<V>)
    requires Ok(c, capacity) && capacity > 0
    ensures var c' := Insert(c, capacity, k, e);
            && Ok(c', capacity) && k in c'.items && c'.items[k] == e
            && (forall x :: x in c'.items && x != k ==> x in c.items && c'.items[x] == c.items[x])
            && (forall x :: x in c.items ==>
                  (x !in c'.items <==> k !in c.items && |c.order| == capacity && x == c.order[|c.order| - 1]))
  {
    hide Ok, Distinct, Without;
    var mid := Lru([k] + Without(c.order, k), c.items[k := e]);
    FrontOk(c, capacity, k, e);
    EvictOk(mid, capacity);
    if k !in c.items {
      NotThere(c.order, k);
      LastStays(c.order, k, capacity);
    }
  }

  lemma LastStays(s: seq<AddrDesc>, k: AddrDesc, capacity: nat)
    requires capacity > 0 && k !in s
    ensures |[k] + s| > capacity ==> s != [] && ([k] + s)[|s|] == s[|s| - 1] && s[|s| - 1] != k
  {
  }

  lemma FrontOk<V>(c: Lru<V>, capacity: nat, k: AddrDesc, e: Entry<V>)
    requires Ok(c, capacity)
    ensures Ok(Lru([k] + Without(c.order, k), c.items[k := e]), capacity + 1)
    ensures |c.order| <= capacity && |[k] + Without(c.order, k)| == |c.order| + (if k in c.order then 0 else 1)
    ensures k in c.order <==> k in c.items
  {
    FrontDistinct(c.order, k);
  }

  lemma {:induction false} NotThere(s: seq<AddrDesc>, k: AddrDesc)
    requires k !in s
    ensures Without(s, k) == s
  {
    if s != [] { NotThere(s[1..], k); }
  }

  // ---------------------------------------------------------------- the cache

  class ContractInfoLru<V> {
    const capacity: nat
    var order: seq<AddrDesc>
    var items: map<AddrDesc, Entry<V>>

    ghost function Contents(): Lru<V>
      reads this
    {
      Lru(order, items)
    }

    ghost predicate Valid()
      reads this
    {
      capacity > 0 && Ok(Contents(), capacity)
    }

    constructor (capacity: nat)
      requires capacity > 0
      ensures Valid() && Contents() == Lru([], map[]) && this.capacity == capacity
    {
      this.capacity := capacity;
      order, items := [], map[];
    }

    method Remove(k: AddrDesc)
      modifies this`order
      ensures order == Without(old(order), k)
    {
      var kept, i := [], 0;
      while i < |order|
        invariant 0 <= i <= |order|
        invariant kept + Without(order[i..], k) == Without(order, k)
      {
        assert order[i..][0] == order[i] && order[i..][1..] == order[i + 1..];
        if order[i] != k { kept := kept + [order[i]]; }
        i := i + 1;
      }
      assert order[i..] == [];
      order := kept;
    }

    method Get(k: AddrDesc, reorgGen: nat, protocolGen: nat) returns (v: Option<V>)
      requires Valid()
      modifies this`order, this`items
      ensures Valid() && (Contents(), v) == Lookup(old(Contents()), k, reorgGen, protocolGen)
    {
      LookupOk(Contents(), capacity, k, reorgGen, protocolGen);
      if k !in items {
        return None;
      }
      var e := items[k];
      Remove(k);
      if e.reorgGen != reorgGen || e.protocolGen != protocolGen {
        items := items - {k};
        return None;
      }
      order := [k] + order;
      return Some(e.value);
    }

    method Add(k: AddrDesc, v: V, reorgGen: nat, protocolGen: nat)
      requires Valid()
      modifies this`order, this`items
      ensures Valid() && Contents() == Insert(old(Contents()), capacity, k, Entry(v, reorgGen, protocolGen))
    {
      hide Ok, Distinct, Without;
      InsertOk(Contents(), capacity, k, Entry(v, reorgGen, protocolGen));
      FrontOk(Contents(), capacity, k, Entry(v, reorgGen, protocolGen));
      if k in items {
        items := items[k := Entry(v, reorgGen, protocolGen)];
        Remove(k);
        order := [k] + order;
        return;
      }
      NotThere(order, k);
      order := [k] + order;
      items := items[k := Entry(v, reorgGen, protocolGen)];
      if |order| <= capacity {
        return;
      }
      var oldest := order[|order| - 1];
      order := order[..|order| - 1];
      items := items - {oldest};
    }

    method Delete(k: AddrDesc)
      requires Valid()
      modifies this`order, this`items
      ensures Valid() && Contents() == Drop(old(Contents()), k)
    {
      WithoutDistinct(order, k);
      if k in items {
        Remove(k);
        items := items - {k};
      } else {
        NotThere(order, k);
      }
    }
  }
}
