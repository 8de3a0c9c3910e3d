// The UTXO list as the indexer changes it in place: loops over the slots, the
// index filled entry by entry, slots shifted for an insertion.
module AddrUtxos {
  import opened Types
  import opened UtxoIndex

  /** In a valid list marking is a step of the scanning list, and finds what there is. */
  lemma MarkedList(l: UtxoList, t: TxId, v: int)
    ensures Valid(l) ==>
              && Valid(MarkSpent(l, t, v))
              && MarkSpent(l, t, v).slots == ScanStep(l.slots, SpendOp(t, v))
              && (SpendSlot(l, t, v) < |l.slots| <==> exists i ::
                   0 <= i < |l.slots| && l.slots[i].txid == t && l.slots[i].vout == v)
  {
    if Valid(l) {
      IndexedSearchIsLinear(l, t, v);
      TombstoneKeepsValid(l, SpendSlot(l, t, v));
    }
  }

  lemma BuildStart()
    ensures BuildIndex([]) == map[]
  {
  }

  lemma BuildNext(s: seq<Utxo>, i: nat)
    requires i < |s|
    ensures var m := BuildIndex(s[..i]);
            BuildIndex(s[..i + 1]) == if s[i].txid in m then m else m[s[i].txid := i]
  {
    hide IndexMatches;
    assert s[..i + 1][..i] == s[..i];
  }

  class AddrUtxos {
    var slots: seq<Utxo>
    var index: map<TxId, nat>

    ghost function List(): UtxoList
      reads this
    {
      UtxoList(slots, index)
    }

    constructor ()
      ensures List() == Empty && Valid(List())
    {
      slots, index := [], map[];
    }

    method AddUtxo(u: Utxo)
      modifies this
      ensures List() == Append(old(List()), u)
      ensures old(Valid(List())) && CanAppend(old(slots), u) ==> Valid(List())
    {
      slots := slots + [u];
      ManageUtxoMap(u);
      if old(Valid(List())) && CanAppend(old(slots), u) {
        AppendKeepsValid(old(List()), u);
      }
    }

    method ManageUtxoMap(u: Utxo)
      requires |slots| > 0
      modifies this`index
      ensures index == ManageIndex(slots, old(index), u.txid)
    {
      hide BuildIndex, IndexMatches;
      var l := |slots|;
      BuildStart();
      if l >= INDEX_THRESHOLD {
        if |index| == 0 {
          assert index == map[];
          var m: map<TxId, nat> := map[];
          for i := 0 to l
            invariant m == BuildIndex(slots[..i])
          {
            var s := slots[i].txid;
            BuildNext(slots, i);
            if s !in m {
              m := m[s := i];
            }
          }
          assert slots[..l] == slots;
          index := m;
        } else {
          if u.txid !in index {
            index := index[u.txid := l - 1];
          }
        }
      }
    }

    method AddUtxoInDisconnect(u: Utxo)
      requires IndexInRange(List())
      modifies this
      ensures List() == Restore(old(List()), u)
      ensures old(Valid(List())) && CanRestore(old(slots), u) ==> Valid(List())
    {
      if Valid(List()) && CanRestore(slots, u) {
        RestoreKeepsValid(List(), u);
      }
      var insert := -1;
      if |index| > 0 {
        if u.txid in index {
          insert := index[u.txid];
        }
      } else {
        assert index == map[];
        var i := 0;
        while i < |slots|
          invariant 0 <= i <= |slots| && insert == -1
          invariant FindTxid(slots, u.txid, 0) == FindTxid(slots, u.txid, i)
        {
          if slots[i].txid == u.txid {
            insert := i;
            break;
          }
          i := i + 1;
        }
      }
      if insert > -1 {
        // its place within the group of its transaction
        var i := insert;
        while i < |slots|
          invariant insert <= i <= |slots|
          invariant FindInsert(slots, u, insert) == FindInsert(slots, u, i)
        {
          if slots[i].vout > u.vout || slots[i].txid != u.txid {
            slots := slots[..i] + [u] + slots[i..];
            // slots behind it have moved
            index := map[];
            return;
          }
          i := i + 1;
        }
      }
      slots := slots + [u];
      ManageUtxoMap(u);
    }

    /** `found` is false where the source logs an error. */
    method MarkUtxoAsSpent(t: TxId, v: int) returns (found: bool)
      requires IndexInRange(List())
      modifies this`slots
      ensures List() == MarkSpent(old(List()), t, v)
      ensures found <==> SpendSlot(old(List()), t, v) < |old(slots)|
      ensures old(Valid(List())) ==>
                && Valid(List())
                && slots == ScanStep(old(slots), SpendOp(t, v))
                && (found <==> exists i :: 0 <= i < |old(slots)| && old(slots)[i].txid == t && old(slots)[i].vout == v)
    {
      hide Valid, ScanStep;
      MarkedList(List(), t, v);
      found := false;
      if |index| == 0 {
        assert index == map[];
        var i := 0;
        while i < |slots|
          invariant 0 <= i <= |slots|
          invariant FindOutpoint(slots, t, v, 0) == FindOutpoint(slots, t, v, i)
        {
          if slots[i].vout == v && slots[i].txid == t {
            slots := slots[i := slots[i].(vout := -1)];
            return true;
          }
          i := i + 1;
        }
      } else if t in index {
        var i := index[t];
        while i < |slots|
          invariant index[t] <= i <= |slots|
          invariant FindVout(slots, v, index[t]) == FindVout(slots, v, i)
        {
          if slots[i].vout == v {
            if slots[i].txid == t {
              slots := slots[i := slots[i].(vout := -1)];
              return true;
            }
            break;
          }
          i := i + 1;
        }
      }
    }
  }
}
