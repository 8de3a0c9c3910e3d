// Columns on disk overlaid by what is cached or pending in memory.
module Overlay {
  import opened Types
  import opened LedgerModel

  /** The history rows of one block that are not written yet. */
  datatype Pending = Pending(height: nat, hash: string, addresses: map<AddrDesc, seq<TxIndexes>>)

  function BlockRows(addresses: map<AddrDesc, seq<TxIndexes>>, h: nat): map<AddrRow, seq<TxIndexes>> {
    map a | a in addresses :: AddrRow(a, h) := addresses[a]
  }

  function PendingRows(ps: seq<Pending>): map<AddrRow, seq<TxIndexes>> {
    if ps == [] then map[]
    else PendingRows(ps[..|ps| - 1]) + BlockRows(ps[|ps| - 1].addresses, ps[|ps| - 1].height)
  }

  function PendingHeights(ps: seq<Pending>): map<nat, string> {
    if ps == [] then map[] else PendingHeights(ps[..|ps| - 1])[ps[|ps| - 1].height := ps[|ps| - 1].hash]
  }

  lemma OverlayPut<K, V>(m: map<K, V>, cache: map<K, V>, k: K, v: V)
    ensures m + cache[k := v] == (m + cache)[k := v]
  {
  }

  lemma MergeAssoc<K, V>(x: map<K, V>, y: map<K, V>, z: map<K, V>)
    ensures x + (y + z) == x + y + z
  {
  }

  /** Writing some entries out and dropping them from the cache changes nothing of the overlay. */
  lemma OverlayFlush<K, V>(m: map<K, V>, cache: map<K, V>, out: map<K, V>, rest: map<K, V>)
    requires out.Keys !! rest.Keys && cache == out + rest
    ensures m + out + rest == m + cache
  {
  }

  lemma BlockRowsPut(addresses: map<AddrDesc, seq<TxIndexes>>, h: nat, a: AddrDesc, row: seq<TxIndexes>)
    ensures BlockRows(addresses[a := row], h) == BlockRows(addresses, h)[AddrRow(a, h) := row]
  {
    var x, y := BlockRows(addresses[a := row], h), BlockRows(addresses, h)[AddrRow(a, h) := row];
    forall k ensures k in x <==> k in y { }
    forall k | k in x ensures x[k] == y[k] { }
  }
}
