// The mempool: entries by txid and, for each address, the places in which it occurs.
module Mempool {
  import opened Types

  datatype AddrIndex = AddrIndex(addr: string, n: int)

  /** `from` is empty when the sender is not known. */
  datatype Entry = Entry(io: seq<AddrIndex>, time: nat, from: string, nonce: nat)

  datatype Outpoint = Outpoint(txid: string, n: int)

  type Entries = map<string, Entry>
  type Lists = map<string, seq<Outpoint>>

  function List(lists: Lists, a: string): seq<Outpoint> { if a in lists then lists[a] else [] }

  predicate Names(entries: Entries, a: string, o: Outpoint) {
    o.txid in entries && AddrIndex(a, o.n) in entries[o.txid].io
  }

  /** (txid, n) is under an address exactly when the entry of txid lists the address with n; no list is empty. */
  ghost predicate Mirror(entries: Entries, lists: Lists) {
    && (forall a, o :: o in List(lists, a) <==> Names(entries, a, o))
    && (forall a :: a in lists ==> lists[a] != [])
  }

  /** A known sender is among the addresses of its entry. */
  ghost predicate SendersListed(entries: Entries) {
    forall t :: t in entries && entries[t].from != "" ==> exists n :: AddrIndex(entries[t].from, n) in entries[t].io
  }

  // ---------------------------------------------------------------- the steps

  /** One more place at the end of the list of its address. */
  function Append(lists: Lists, a: string, o: Outpoint): Lists { lists[a := List(lists, a) + [o]] }

  function AppendAll(lists: Lists, txid: string, io: seq<AddrIndex>): Lists {
    if io == [] then lists
    else Append(AppendAll(lists, txid, io[..|io| - 1]), io[|io| - 1].addr, Outpoint(txid, io[|io| - 1].n))
  }

  function Without(l: seq<Outpoint>, txid: string): (r: seq<Outpoint>)
    ensures forall o :: o in r <==> o in l && o.txid != txid
  {
    if l == [] then []
    else Without(l[..|l| - 1], txid) + if l[|l| - 1].txid != txid then [l[|l| - 1]] else []
  }

  predicate Occurs(io: seq<AddrIndex>, a: string) { exists i :: 0 <= i < |io| && io[i].addr == a }

  /** Takes a transaction out of the lists of the addresses in `io`. */
  function Cleared(lists: Lists, txid: string, io: seq<AddrIndex>): Lists {
    map a | a in lists && (Occurs(io, a) ==> Without(lists[a], txid) != []) ::
        if Occurs(io, a) then Without(lists[a], txid) else lists[a]
  }

  lemma {:induction false} AppendAllLists(lists: Lists, txid: string, io: seq<AddrIndex>, a: string, o: Outpoint)
    ensures o in List(AppendAll(lists, txid, io), a)
            <==> o in List(lists, a) || (o.txid == txid && AddrIndex(a, o.n) in io)
    ensures a in AppendAll(lists, txid, io) && (a in lists ==> lists[a] != []) ==> AppendAll(lists, txid, io)[a] != []
  {
    if io != [] {
      var k := |io| - 1;
      AppendAllLists(lists, txid, io[..k], a, o);
      assert io == io[..k] + [io[k]];
    }
  }

  /** Every place of the old entry is one of the new. */
  ghost predicate Covers(e: Entry, was: Entry) { forall x :: x in was.io ==> x in e.io }

  /** Inserting keeps the mirror exactly when it loses no place of an entry of the same transaction. */
  lemma InsertKeepsMirror(entries: Entries, lists: Lists, txid: string, e: Entry)
    requires Mirror(entries, lists)
    ensures Mirror(entries[txid := e], AppendAll(lists, txid, e.io)) <==> (txid in entries ==> Covers(e, entries[txid]))
  {
    var now, lists' := entries[txid := e], AppendAll(lists, txid, e.io);
    forall a, o
      ensures o in List(lists', a) <==> Names(now, a, o) || (o.txid == txid && Names(entries, a, o))
    {
      AppendAllLists(lists, txid, e.io, a, o);
      assert o in List(lists, a) <==> Names(entries, a, o);
    }
    forall a | a in lists' ensures lists'[a] != [] {
      AppendAllLists(lists, txid, e.io, a, Outpoint(txid, 0));
    }
    if txid in entries && Mirror(now, lists') {
      forall x | x in entries[txid].io ensures x in e.io {
        var o := Outpoint(txid, x.n);
        assert Names(entries, x.addr, o) && o in List(lists', x.addr) && x == AddrIndex(x.addr, x.n);
        assert Names(now, x.addr, o);
      }
    }
    if txid in entries ==> Covers(e, entries[txid]) {
      forall a, o ensures o in List(lists', a) <==> Names(now, a, o) { }
    }
  }

  lemma RemoveKeepsMirror(entries: Entries, lists: Lists, txid: string)
    requires Mirror(entries, lists) && txid in entries
    ensures Mirror(entries - {txid}, Cleared(lists, txid, entries[txid].io))
  {
    var io, now := entries[txid].io, Cleared(lists, txid, entries[txid].io);
    forall a, o ensures o in List(now, a) <==> Names(entries - {txid}, a, o) {
      assert o in List(lists, a) <==> Names(entries, a, o);
      if o.txid == txid && AddrIndex(a, o.n) in io { assert Occurs(io, a); }
    }
  }

  // ---------------------------------------------------------------- any interleaving

  datatype Action =
    | Check(txid: string)                          // AddTransactionToMempool looks whether the entry exists
    | Insert(txid: string, e: Entry)               // and, if it did not, puts it in when the backend has answered
    | Refresh(txid: string, time: nat)
    | Remove(txid: string)

  /** `adding` holds the transactions of adds that have looked and not inserted yet, one for each add. */
  datatype Pool = Pool(entries: Entries, lists: Lists, adding: multiset<string>)

  function Step(p: Pool, a: Action): Pool {
    match a
    case Check(t) => if t in p.entries then p else p.(adding := p.adding + multiset{t})
    case Insert(t, e) =>
      if t !in p.adding then p
      else Pool(p.entries[t := e], AppendAll(p.lists, t, e.io), p.adding - multiset{t})
    case Refresh(t, time) => if t in p.entries then p.(entries := p.entries[t := p.entries[t].(time := time)]) else p
    case Remove(t) => if t in p.entries
        then p.(entries := p.entries - {t}, lists := Cleared(p.lists, t, p.entries[t].io)) else p
  }

  function Run(acts: seq<Action>): Pool {
    if acts == [] then Pool(map[], map[], multiset{}) else Step(Run(acts[..|acts| - 1]), acts[|acts| - 1])
  }

  /** What a transaction lists depends on its txid alone. */
  ghost predicate Deterministic(acts: seq<Action>, io: string -> seq<AddrIndex>) {
    forall i :: 0 <= i < |acts| && acts[i].Insert? ==> acts[i].e.io == io(acts[i].txid)
  }

  /** However checks, inserts, refreshes and removals interleave, the two maps mirror each other. */
  lemma {:induction false} RunKeepsMirror(acts: seq<Action>, io: string -> seq<AddrIndex>)
    requires Deterministic(acts, io)
    ensures var p := Run(acts); Mirror(p.entries, p.lists) && forall t :: t in p.entries ==> p.entries[t].io == io(t)
  {
    if acts != [] {
      var n := |acts| - 1;
      RunKeepsMirror(acts[..n], io);
      StepKeepsMirror(Run(acts[..n]), acts[n], io);
    }
  }

  lemma StepKeepsMirror(p: Pool, a: Action, io: string -> seq<AddrIndex>)
    requires Mirror(p.entries, p.lists) && (forall t :: t in p.entries ==> p.entries[t].io == io(t))
    requires a.Insert? ==> a.e.io == io(a.txid)
    ensures var q := Step(p, a); Mirror(q.entries, q.lists) && forall t :: t in q.entries ==> q.entries[t].io == io(t)
  {
    match a {
      case Check(t) =>
      case Insert(t, e) => InsertKeepsMirror(p.entries, p.lists, t, e);
      case Refresh(t, time) => if t in p.entries { RestampKeepsMirror(p.entries, p.lists, t, time); }
      case Remove(t) => if t in p.entries { RemoveKeepsMirror(p.entries, p.lists, t); }
    }
  }

  lemma RestampKeepsMirror(entries: Entries, lists: Lists, t: string, time: nat)
    requires Mirror(entries, lists) && t in entries
    ensures Mirror(entries[t := entries[t].(time := time)], lists)
  {
    var now := entries[t := entries[t].(time := time)];
    forall a, o ensures Names(now, a, o) <==> Names(entries, a, o) { }
  }

  // ---------------------------------------------------------------- the order of the lists

  /** The places of an address in one transaction, in order. */
  function PlacesOf(io: seq<AddrIndex>, t: string, a: string): seq<Outpoint> {
    if io == [] then []
    else PlacesOf(io[..|io| - 1], t, a) + if io[|io| - 1].addr == a then [Outpoint(t, io[|io| - 1].n)] else []
  }

  /** Action `i` puts an entry in, and no later one takes it out. */
  ghost predicate Lasts(acts: seq<Action>, i: nat)
    requires i < |acts|
  {
    && acts[i].Insert? && acts[i].txid in Run(acts[..i]).adding
    && forall j :: i < j < |acts| ==> acts[j] != Remove(acts[i].txid)
  }

  /** What the first `n` actions have put under the address and is still there, in the order it was put in. */
  ghost function Arrived(acts: seq<Action>, a: string, n: nat): seq<Outpoint>
    requires n <= |acts|
  {
    if n == 0 then []
    else Arrived(acts, a, n - 1) + if Lasts(acts, n - 1) then PlacesOf(acts[n - 1].e.io, acts[n - 1].txid, a) else []
  }

  lemma {:induction false} AppendAllList(lists: Lists, t: string, io: seq<AddrIndex>, a: string)
    ensures List(AppendAll(lists, t, io), a) == List(lists, a) + PlacesOf(io, t, a)
  {
    if io != [] { AppendAllList(lists, t, io[..|io| - 1], a); }
  }

  lemma WithoutOne(l: seq<Outpoint>, o: Outpoint, t: string)
    ensures Without([], t) == [] && Without(l + [o], t) == Without(l, t) + if o.txid != t then [o] else []
  {
    assert (l + [o])[..|l|] == l;
  }

  lemma Regroup(x: seq<Outpoint>, y: seq<Outpoint>, z: seq<Outpoint>)
    ensures x + y + z == x + (y + z) && x + [] == x && [] + z == z
  {
  }

  lemma {:induction false} WithoutConcat(l: seq<Outpoint>, m: seq<Outpoint>, t: string)
    ensures Without(l + m, t) == Without(l, t) + Without(m, t)
  {
    hide Without;
    if m == [] {
      WithoutOne([], Outpoint("", 0), t);
      Regroup(l, [], []);
      Regroup(Without(l, t), [], []);
    } else {
      var n := |m| - 1;
      var o := m[n];
      WithoutConcat(l, m[..n], t);
      assert l + m == l + m[..n] + [o] && m == m[..n] + [o];
      WithoutOne(l + m[..n], o, t);
      WithoutOne(m[..n], o, t);
      Regroup(Without(l, t), Without(m[..n], t), if o.txid != t then [o] else []);
    }
  }

  lemma {:induction false} WithoutPlaces(io: seq<AddrIndex>, x: string, a: string, t: string)
    ensures Without(PlacesOf(io, x, a), t) == if x == t then [] else PlacesOf(io, x, a)
  {
    hide Without;
    if io == [] {
      WithoutOne([], Outpoint("", 0), t);
    } else {
      var n := |io| - 1;
      WithoutPlaces(io[..n], x, a, t);
      WithoutOne(PlacesOf(io[..n], x, a), Outpoint(x, io[n].n), t);
      Regroup(PlacesOf(io[..n], x, a), [], []);
      Regroup([], [], []);
    }
  }

  lemma LastsNext(acts: seq<Action>, x: Action, i: nat)
    requires i < |acts|
    ensures Lasts(acts + [x], i) <==> Lasts(acts, i) && x != Remove(acts[i].txid)
  {
    var more := acts + [x];
    assert more[..i] == acts[..i];
    if Lasts(more, i) {
      forall j | i < j < |acts| ensures acts[j] != Remove(acts[i].txid) { assert more[j] == acts[j]; }
      assert more[|acts|] == x;
    }
  }

  lemma {:induction false} ArrivedNext(acts: seq<Action>, x: Action, a: string, n: nat)
    requires n <= |acts|
    ensures Arrived(acts + [x], a, n) == if x.Remove? then Without(Arrived(acts, a, n), x.txid) else Arrived(acts, a, n)
  {
    hide Lasts, Without, Arrived, PlacesOf, Run;
    if n == 0 {
      WithoutOne([], Outpoint("", 0), if x.Remove? then x.txid else "");
      ArrivedNone(acts, a);
      ArrivedNone(acts + [x], a);
    } else {
      var y, was := acts[n - 1], Arrived(acts, a, n - 1);
      ArrivedNext(acts, x, a, n - 1);
      LastsNext(acts, x, n - 1);
      ArrivedOne(acts, a, n);
      ArrivedOne(acts + [x], a, n);
      LastsInserts(acts, n - 1);
      Regroup(was, [], []);
      if x.Remove? && Lasts(acts, n - 1) {
        WithoutConcat(was, PlacesOf(y.e.io, y.txid, a), x.txid);
        WithoutPlaces(y.e.io, y.txid, a, x.txid);
        Regroup(Without(was, x.txid), [], []);
      }
    }
  }

  lemma ArrivedNone(acts: seq<Action>, a: string)
    ensures Arrived(acts, a, 0) == []
  {
  }

  lemma ArrivedOne(acts: seq<Action>, a: string, n: nat)
    requires 0 < n <= |acts|
    ensures Arrived(acts, a, n)
            == Arrived(acts, a, n - 1)
               + if Lasts(acts, n - 1) then PlacesOf(acts[n - 1].e.io, acts[n - 1].txid, a) else []
  {
  }

  lemma LastsInserts(acts: seq<Action>, i: nat)
    requires i < |acts|
    ensures Lasts(acts, i) ==> acts[i].Insert?
  {
  }

  /** A removal takes a transaction out of every list, also out of those it is not in. */
  lemma ClearedList(entries: Entries, lists: Lists, t: string, a: string)
    requires Mirror(entries, lists) && t in entries
    ensures List(Cleared(lists, t, entries[t].io), a) == Without(List(lists, a), t)
  {
    if !Occurs(entries[t].io, a) { NotListed(entries, lists, t, a); }
  }

  lemma NotListed(entries: Entries, lists: Lists, t: string, a: string)
    requires Mirror(entries, lists) && (t in entries ==> !Occurs(entries[t].io, a))
    ensures Without(List(lists, a), t) == List(lists, a)
  {
    var l := List(lists, a);
    forall i | 0 <= i < |l| ensures l[i].txid != t {
      assert l[i] in List(lists, a);
      assert Names(entries, a, l[i]);
    }
    NothingOut(l, t);
  }

  lemma {:induction false} NothingOut(l: seq<Outpoint>, t: string)
    requires forall i :: 0 <= i < |l| ==> l[i].txid != t
    ensures Without(l, t) == l
  {
    hide Without;
    if l == [] {
      WithoutOne([], Outpoint("", 0), t);
    } else {
      var n := |l| - 1;
      NothingOut(l[..n], t);
      WithoutOne(l[..n], l[n], t);
      assert l[..n] + [l[n]] == l;
    }
  }

  lemma StepList(acts: seq<Action>, x: Action, a: string)
    requires Mirror(Run(acts).entries, Run(acts).lists) && List(Run(acts).lists, a) == Arrived(acts, a, |acts|)
    ensures List(Run(acts + [x]).lists, a) == Arrived(acts + [x], a, |acts| + 1)
  {
    var p, more := Run(acts), acts + [x];
    assert more[..|acts|] == acts;
    hide Mirror, Cleared, AppendAll, Without, Arrived;
    ArrivedOne(more, a, |acts| + 1);
    ArrivedNext(acts, x, a, |acts|);
    match x {
      case Insert(t, e) => AppendAllList(p.lists, t, e.io, a);
      case Remove(t) =>
        if t in p.entries {
          ClearedList(p.entries, p.lists, t, a);
        } else {
          NotListed(p.entries, p.lists, t, a);
        }
      case _ =>
    }
  }

  /** In every interleaving the list of an address holds the places of the transactions that were put in and not taken
      out since, in the order they were put in. */
  lemma {:induction false} ListsInOrder(acts: seq<Action>, io: string -> seq<AddrIndex>, a: string)
    requires Deterministic(acts, io)
    ensures List(Run(acts).lists, a) == Arrived(acts, a, |acts|)
  {
    if acts != [] {
      hide Run, Step, Arrived, Mirror, List;
      var n := |acts| - 1;
      ListsInOrder(acts[..n], io, a);
      RunKeepsMirror(acts[..n], io);
      StepList(acts[..n], acts[n], a);
      assert acts[..n] + [acts[n]] == acts;
    }
  }

  /** The time of what action `i` put in, after the first `n` actions: that of the last refresh since. */
  function Stamped(acts: seq<Action>, i: nat, n: nat): nat
    requires i < |acts| && acts[i].Insert? && n <= |acts|
  {
    if n <= i + 1 then acts[i].e.time
    else if acts[n - 1].Refresh? && acts[n - 1].txid == acts[i].txid then acts[n - 1].time
    else Stamped(acts, i, n - 1)
  }

  lemma {:induction false} StampedNext(acts: seq<Action>, x: Action, i: nat, n: nat)
    requires i < |acts| && acts[i].Insert? && n <= |acts|
    ensures Stamped(acts + [x], i, n) == Stamped(acts, i, n)
  {
    if n > i + 1 { StampedNext(acts, x, i, n - 1); }
  }

  /** The entry of `t` was put in by action `i`, and by no later one. */
  ghost predicate LastInsert(acts: seq<Action>, t: string, i: nat) {
    && i < |acts| && Lasts(acts, i) && acts[i].txid == t
    && forall j :: i < j < |acts| ==> !(Lasts(acts, j) && acts[j].txid == t)
  }

  lemma LastInsertNext(acts: seq<Action>, x: Action, t: string, i: nat)
    requires LastInsert(acts, t, i) && x != Remove(t) && (x.Insert? && x.txid == t ==> t !in Run(acts).adding)
    ensures LastInsert(acts + [x], t, i)
  {
    hide Run;
    var more := acts + [x];
    LastsNext(acts, x, i);
    assert more[..|acts|] == acts;
    forall j | i < j < |more| ensures !(Lasts(more, j) && more[j].txid == t) {
      if j < |acts| { LastsNext(acts, x, j); }
    }
  }

  /** In every interleaving an entry is the one put in last, with the time of the last refresh since. */
  lemma {:induction false} EntryIsLast(acts: seq<Action>, t: string) returns (i: nat)
    requires t in Run(acts).entries
    ensures LastInsert(acts, t, i) && Run(acts).entries[t] == acts[i].e.(time := Stamped(acts, i, |acts|))
  {
    hide Lasts, Stamped, Step;
    var n := |acts| - 1;
    var was, x := acts[..n], acts[n];
    assert was + [x] == acts;
    if x.Insert? && x.txid == t && t in Run(was).adding {
      i := n;
      JustInserted(was, x);
    } else {
      StepEntry(Run(was), x, t);
      i := EntryIsLast(was, t);
      LastsInserts(was, i);
      LastInsertNext(was, x, t, i);
      StampedNext(was, x, i, n);
      StampedOne(acts, i);
    }
  }

  lemma JustInserted(acts: seq<Action>, x: Action)
    requires x.Insert? && x.txid in Run(acts).adding
    ensures var more := acts + [x];
            && LastInsert(more, x.txid, |acts|) && Stamped(more, |acts|, |more|) == x.e.time
            && x.txid in Run(more).entries && Run(more).entries[x.txid] == x.e
  {
    assert (acts + [x])[..|acts|] == acts;
  }

  lemma StepEntry(p: Pool, x: Action, t: string)
    requires t in Step(p, x).entries && !(x.Insert? && x.txid == t && t in p.adding)
    ensures t in p.entries && x != Remove(t)
    ensures Step(p, x).entries[t] == if x.Refresh? && x.txid == t then p.entries[t].(time := x.time) else p.entries[t]
  {
  }

  lemma StampedOne(acts: seq<Action>, i: nat)
    requires i < |acts| - 1 && acts[i].Insert?
    ensures var n := |acts| - 1;
            Stamped(acts, i, |acts|)
            == if acts[n].Refresh? && acts[n].txid == acts[i].txid then acts[n].time else Stamped(acts, i, n)
  {
  }

  /** With no add under way, an entry is not put in again: until it is removed it changes by refreshes only. */
  lemma {:induction false} PresentStays(acts: seq<Action>, more: seq<Action>, t: string)
    requires t in Run(acts).entries && t !in Run(acts).adding && Remove(t) !in more
    ensures var p, q := Run(acts), Run(acts + more);
            && t in q.entries && t !in q.adding && q.entries[t] == p.entries[t].(time := q.entries[t].time)
            && ((forall time :: Refresh(t, time) !in more) ==> q.entries[t] == p.entries[t])
  {
    hide Run, Step;
    if more == [] {
      assert acts + more == acts;
    } else {
      var n := |more| - 1;
      assert more[n] in more && forall x :: x in more[..n] ==> x in more;
      PresentStays(acts, more[..n], t);
      RunOn(acts, more);
      StepPresent(Run(acts + more[..n]), more[n], t);
    }
  }

  lemma RunOn(acts: seq<Action>, more: seq<Action>)
    requires more != []
    ensures var n := |more| - 1; Run(acts + more) == Step(Run(acts + more[..n]), more[n])
  {
    hide Run, Step;
    Appended(acts, more);
    RunLast(acts + more);
  }

  lemma RunLast(acts: seq<Action>)
    requires acts != []
    ensures Run(acts) == Step(Run(acts[..|acts| - 1]), acts[|acts| - 1])
  {
    hide Step;
  }

  lemma Appended(acts: seq<Action>, more: seq<Action>)
    requires more != []
    ensures var all, n := acts + more, |more| - 1;
            |all| == |acts| + n + 1 && all[..|acts| + n] == acts + more[..n] && all[|acts| + n] == more[n]
  {
  }

  lemma StepPresent(p: Pool, x: Action, t: string)
    requires t in p.entries && t !in p.adding && x != Remove(t)
    ensures var q := Step(p, x);
            && t in q.entries && t !in q.adding && q.entries[t] == p.entries[t].(time := q.entries[t].time)
            && (!(x.Refresh? && x.txid == t) ==> q.entries[t] == p.entries[t])
  {
  }

  /** Two adds of one transaction that see different addresses leave a place without entry. */
  lemma MirrorNeedsSameAddresses()
    ensures var x, y := Entry([AddrIndex("a", 0)], 0, "", 0), Entry([AddrIndex("b", 0)], 0, "", 0);
            var p := Step(Step(Step(Step(Run([]), Check("t")), Check("t")), Insert("t", x)), Insert("t", y));
            !Mirror(p.entries, p.lists)
  {
    var x, y := Entry([AddrIndex("a", 0)], 0, "", 0), Entry([AddrIndex("b", 0)], 0, "", 0);
    var q := Step(Step(Step(Run([]), Check("t")), Check("t")), Insert("t", x));
    var o := Outpoint("t", 0);
    AppendAllLists(map[], "t", x.io, "a", o);
    AppendAllLists(q.lists, "t", y.io, "a", o);
    assert AddrIndex("a", 0) in x.io && AddrIndex("a", 0) !in y.io;
    assert q.lists == AppendAll(map[], "t", x.io);
    assert !Names(map["t" := y], "a", o);
  }

  // ---------------------------------------------------------------- the maps

  lemma ClearedNext(lists: Lists, txid: string, io: seq<AddrIndex>, i: nat)
    requires i < |io|
    ensures var was, now, a := Cleared(lists, txid, io[..i]), Cleared(lists, txid, io[..i + 1]), io[i].addr;
            if Occurs(io[..i], a) || a !in lists then now == was
            else a in was && was[a] == lists[a]
                 && now == if Without(lists[a], txid) != [] then was[a := Without(lists[a], txid)] else was - {a}
  {
    var was, now, a := Cleared(lists, txid, io[..i]), Cleared(lists, txid, io[..i + 1]), io[i].addr;
    hide Without;
    forall x ensures Occurs(io[..i + 1], x) <==> Occurs(io[..i], x) || x == a {
      if Occurs(io[..i], x) {
        var k :| 0 <= k < i && io[..i][k].addr == x;
        assert io[..i + 1][k].addr == x;
      }
      assert io[..i + 1][i].addr == a;
    }
  }

  /** Keeps what is not of the transaction, moving it forward in place. */
  method Compact(l: seq<Outpoint>, txid: string) returns (r: seq<Outpoint>)
    ensures r == Without(l, txid)
  {
    hide Without;
    var outpoints := new Outpoint[|l|](i requires 0 <= i < |l| => l[i]);
    var j := 0;
    WithoutEnds(l, txid);
    for i := 0 to |l|
      invariant 0 <= j <= i && outpoints[..j] == Without(l[..i], txid)
      invariant forall k :: i <= k < |l| ==> outpoints[k] == l[k]
    {
      WithoutNext(l, i, txid);
      if outpoints[i].txid != txid {
        ghost var kept := outpoints[..j];
        outpoints[j] := outpoints[i];
        assert outpoints[..j + 1] == kept + [l[i]];
        j := j + 1;
      }
    }
    return outpoints[..j];
  }

  lemma WithoutEnds(l: seq<Outpoint>, txid: string)
    ensures Without(l[..0], txid) == [] && l[..|l|] == l
  {
  }

  lemma WithoutNext(l: seq<Outpoint>, i: nat, txid: string)
    requires i < |l|
    ensures Without(l[..i + 1], txid) == Without(l[..i], txid) + if l[i].txid != txid then [l[i]] else []
  {
    assert l[..i + 1][..i] == l[..i];
  }

  ghost predicate OneOfEach(s: seq<string>) { forall i, j :: 0 <= i < j < |s| ==> s[i] != s[j] }

  class BaseMempool {
    var txEntries: Entries
    var addrDescToTx: Lists

    ghost predicate Valid()
      reads this
    {
      Mirror(txEntries, addrDescToTx) && SendersListed(txEntries)
    }

    constructor ()
      ensures Valid() && txEntries == map[] && addrDescToTx == map[]
    {
      txEntries, addrDescToTx := map[], map[];
    }

    /** The places of an address, the latest first. */
    method GetAddrDescTransactions(a: string) returns (rv: seq<Outpoint>)
      ensures |rv| == |List(addrDescToTx, a)| && forall i ::
              0 <= i < |rv| ==> rv[i] == List(addrDescToTx, a)[|rv| - 1 - i]
    {
      var outpoints := List(addrDescToTx, a);
      rv := [];
      var i := |outpoints|;
      while i > 0
        invariant 0 <= i <= |outpoints| && |rv| == |outpoints| - i
        invariant forall k :: 0 <= k < |rv| ==> rv[k] == outpoints[|outpoints| - 1 - k]
      {
        i := i - 1;
        rv := rv + [outpoints[i]];
      }
    }

    /** Inserts what an add has built; between its look and this step anything may have happened, and the mirror
        is kept exactly when the entry loses no place of one that came in between. */
    method InsertEntry(txid: string, e: Entry)
      requires Valid()
      requires e.from != "" ==> exists n :: AddrIndex(e.from, n) in e.io
      modifies this
      ensures txEntries == old(txEntries)[txid := e] && addrDescToTx == AppendAll(old(addrDescToTx), txid, e.io)
      ensures Valid() <==> (txid in old(txEntries) ==> Covers(e, old(txEntries)[txid]))
    {
      InsertKeepsMirror(txEntries, addrDescToTx, txid, e);
      txEntries := txEntries[txid := e];
      assert e.io[..0] == [];
      for i := 0 to |e.io|
        invariant addrDescToTx == AppendAll(old(addrDescToTx), txid, e.io[..i])
                  && txEntries == old(txEntries)[txid := e]
      {
        assert e.io[..i + 1][..i] == e.io[..i];
        addrDescToTx := Append(addrDescToTx, e.io[i].addr, Outpoint(txid, e.io[i].n));
      }
      assert e.io[..|e.io|] == e.io;
    }

    method RemoveEntry(txid: string)
      requires Valid() && txid in txEntries
      modifies this
      ensures Valid() && txEntries == old(txEntries) - {txid}
              && addrDescToTx == Cleared(old(addrDescToTx), txid, old(txEntries)[txid].io)
    {
      ghost var lists := addrDescToTx;
      var io := txEntries[txid].io;
      RemoveKeepsMirror(txEntries, addrDescToTx, txid);
      ClearLists(txid, io);
      txEntries := txEntries - {txid};
    }

    method ClearLists(txid: string, io: seq<AddrIndex>)
      modifies this`addrDescToTx
      ensures addrDescToTx == Cleared(old(addrDescToTx), txid, io)
    {
      hide Without;
      ghost var lists := addrDescToTx;
      var processed: set<string> := {};
      assert io[..0] == [] && Cleared(lists, txid, []) == lists;
      for i := 0 to |io|
        invariant addrDescToTx == Cleared(lists, txid, io[..i])
        invariant forall a :: a in processed ==> Occurs(io[..i], a)
        invariant forall a :: Occurs(io[..i], a) && a in lists ==> a in processed
      {
        ClearedNext(lists, txid, io, i);
        OccursNext(io, i);
        hide Cleared, Occurs;
        var a := io[i].addr;
        if a in addrDescToTx && a !in processed {
          processed := processed + {a};
          var outpoints := Compact(addrDescToTx[a], txid);
          if |outpoints| > 0 {
            addrDescToTx := addrDescToTx[a := outpoints];
          } else {
            addrDescToTx := addrDescToTx - {a};
          }
        }
      }
      assert io[..|io|] == io;
    }

    /** RemoveSenderTransactionsUpToNonce: exactly the sender's entries up to the nonce go, each reported once. */
    method RemoveSenderTransactionsUpToNonce(from: string, nonce: nat) returns (removed: seq<string>)
      requires Valid()
      modifies this
      ensures Valid() && txEntries == old(txEntries) - SentUpTo(old(txEntries), from, nonce)
      ensures OneOfEach(removed) && (set t | t in removed) == SentUpTo(old(txEntries), from, nonce)
    {
      var candidates := Candidates(from, nonce);
      ghost var entries, all := txEntries, SentUpTo(txEntries, from, nonce);
      hide Mirror, SendersListed, SentUpTo, Cleared;
      removed := [];
      for i := 0 to |candidates|
        invariant Valid() && OneOfEach(removed)
        invariant forall t :: t in removed <==> t in candidates[..i]
        invariant txEntries == entries - set t | t in removed
      {
        assert candidates[..i + 1] == candidates[..i] + [candidates[i]];
        var txid := candidates[i];
        if txid in txEntries {
          RemoveEntry(txid);
          removed := removed + [txid];
        }
      }
      assert candidates[..|candidates|] == candidates;
    }

    /** The sender's transactions up to the nonce as listed under the sender, perhaps more than once. */
    method Candidates(from: string, nonce: nat) returns (candidates: seq<string>)
      requires Valid()
      ensures (set t | t in candidates) == SentUpTo(txEntries, from, nonce)
      ensures forall t :: t in candidates ==> t in txEntries
    {
      candidates := [];
      var outpoints := List(addrDescToTx, from);
      for i := 0 to |outpoints|
        invariant forall t :: t in candidates <==> t in SentUpTo(txEntries, from, nonce) && TxidIn(outpoints[..i], t)
      {
        assert outpoints[..i + 1] == outpoints[..i] + [outpoints[i]];
        TxidInNext(outpoints, i);
        var t := outpoints[i].txid;
        if t in txEntries && txEntries[t].from != "" && txEntries[t].from == from && txEntries[t].nonce <= nonce {
          candidates := candidates + [t];
        }
      }
      assert outpoints[..|outpoints|] == outpoints;
      forall t | t in SentUpTo(txEntries, from, nonce) ensures TxidIn(outpoints, t) {
        var n :| AddrIndex(from, n) in txEntries[t].io;
        assert Outpoint(t, n) in outpoints;
      }
    }

    /** Removes the chosen entries one by one. */
    method RemoveChosen(chosen: set<string>)
      requires Valid() && chosen <= txEntries.Keys
      modifies this
      ensures Valid() && txEntries == old(txEntries) - chosen
    {
      hide Mirror, SendersListed, Cleared;
      var todo := chosen;
      while todo != {}
        invariant todo <= chosen && Valid() && txEntries == old(txEntries) - (chosen - todo)
      {
        var t :| t in todo;
        RemoveEntry(t);
        todo := todo - {t};
      }
    }

    /** removeTransactionsMissingFromBackend: what the backend no longer has and was there before it was asked. */
    method RemoveMissing(backend: set<string>, snapshotTime: nat)
      requires Valid()
      modifies this
      ensures Valid() && txEntries == map t | t in old(txEntries)
              && (t in backend || old(txEntries)[t].time >= snapshotTime) :: old(txEntries)[t]
    {
      RemoveChosen(set t | t in txEntries && !(t in backend || txEntries[t].time >= snapshotTime));
    }

    /** The sweep at the end of a resync of a Bitcoin-type mempool. */
    method RemoveNotListed(txs: set<string>)
      requires Valid()
      modifies this
      ensures Valid() && txEntries == map t | t in old(txEntries) && t in txs :: old(txEntries)[t]
    {
      RemoveChosen(set t | t in txEntries && t !in txs);
    }
  }

  /** The entries a mined nonce of the sender retires. */
  ghost function SentUpTo(entries: Entries, from: string, nonce: nat): set<string> {
    set t | t in entries && entries[t].from != "" && entries[t].from == from && entries[t].nonce <= nonce
  }

  predicate TxidIn(l: seq<Outpoint>, t: string) { exists i :: 0 <= i < |l| && l[i].txid == t }

  lemma TxidInNext(l: seq<Outpoint>, i: nat)
    requires i < |l|
    ensures forall t :: TxidIn(l[..i + 1], t) <==> TxidIn(l[..i], t) || t == l[i].txid
  {
    forall t ensures TxidIn(l[..i + 1], t) <==> TxidIn(l[..i], t) || t == l[i].txid {
      if TxidIn(l[..i], t) {
        var k :| 0 <= k < i && l[..i][k].txid == t;
        assert l[..i + 1][k].txid == t;
      }
      assert l[..i + 1][i].txid == l[i].txid;
    }
  }

  lemma OccursNext(io: seq<AddrIndex>, i: nat)
    requires i < |io|
    ensures forall x :: Occurs(io[..i + 1], x) <==> Occurs(io[..i], x) || x == io[i].addr
  {
    forall x ensures Occurs(io[..i + 1], x) <==> Occurs(io[..i], x) || x == io[i].addr {
      if Occurs(io[..i], x) {
        var k :| 0 <= k < i && io[..i][k].addr == x;
        assert io[..i + 1][k].addr == x;
      }
      assert io[..i + 1][i].addr == io[i].addr;
    }
  }

  // ---------------------------------------------------------------- building an entry

  /** A transaction as the backend gives it; "" stands for an address that is missing or cannot be parsed.
      Transfers are None when they cannot be extracted, the nonce is None when it is missing or unreadable. */
  datatype RawTx = RawTx(outputs: seq<AddrIndex>, inputs: seq<seq<string>>, transfers: Option<seq<(string, string)>>,
      nonce: Option<nat>)

  /** The places that name an address. */
  function NonEmpty(s: seq<AddrIndex>): seq<AddrIndex> {
    if s == [] then []
    else NonEmpty(s[..|s| - 1]) + if s[|s| - 1].addr == "" then [] else [s[|s| - 1]]
  }

  lemma {:induction false} NonEmptySum(s: seq<AddrIndex>, t: seq<AddrIndex>)
    ensures NonEmpty(s + t) == NonEmpty(s) + NonEmpty(t)
  {
    if t == [] {
      assert s + t == s;
    } else {
      var n := |t| - 1;
      assert (s + t)[..|s| + n] == s + t[..n];
      NonEmptySum(s, t[..n]);
    }
  }

  lemma {:induction false} NonEmptyHas(s: seq<AddrIndex>, x: AddrIndex)
    ensures x in NonEmpty(s) <==> x.addr != "" && x in s
  {
    if s != [] {
      NonEmptyHas(s[..|s| - 1], x);
      assert s == s[..|s| - 1] + [s[|s| - 1]];
    }
  }

  /** The addresses of one input, numbered downwards from -1. */
  function Numbered(addrs: seq<string>): seq<AddrIndex> {
    seq(|addrs|, i requires 0 <= i < |addrs| => AddrIndex(addrs[i], -i - 1))
  }

  function InputList(ins: seq<seq<string>>): seq<AddrIndex> {
    if ins == [] then [] else InputList(ins[..|ins| - 1]) + Numbered(ins[|ins| - 1])
  }

  /** Sender and recipient of every transfer. */
  function TransferList(ts: seq<(string, string)>): seq<AddrIndex> {
    seq(2 * |ts|, i requires 0 <= i < 2 * |ts| =>
      if i % 2 == 0 then AddrIndex(ts[i / 2].0, -(i / 2) - 2) else AddrIndex(ts[i / 2].1, i / 2 + 1))
  }

  predicate FromOutput(raw: RawTx, x: AddrIndex) { x in raw.outputs }

  predicate FromInput(raw: RawTx, x: AddrIndex) {
    exists j, i ::
      0 <= j < |raw.inputs| && 0 <= i < |raw.inputs[j]| && raw.inputs[j][i] == x.addr && x.n == -i - 1
  }

  predicate FromTransfer(raw: RawTx, x: AddrIndex) {
    raw.transfers.Some? && exists i :: 0 <= i < |raw.transfers.value| && InTransfer(raw.transfers.value[i], i, x)
  }

  predicate InTransfer(t: (string, string), i: int, x: AddrIndex) {
    (x.addr == t.0 && x.n == -i - 2) || (x.addr == t.1 && x.n == i + 1)
  }

  /** All places of the transaction, outputs before inputs and inputs before transfers. */
  function AllPlaces(raw: RawTx): seq<AddrIndex> {
    raw.outputs + InputList(raw.inputs) + if raw.transfers.Some? then TransferList(raw.transfers.value) else []
  }

  lemma {:induction false} InputListHas(ins: seq<seq<string>>, x: AddrIndex)
    ensures x in InputList(ins) <==>
              exists j, i :: 0 <= j < |ins| && 0 <= i < |ins[j]| && ins[j][i] == x.addr && x.n == -i - 1
  {
    if ins != [] {
      var n := |ins| - 1;
      InputListHas(ins[..n], x);
      if x in InputList(ins[..n]) {
        var j, i :| 0 <= j < n && 0 <= i < |ins[..n][j]| && ins[..n][j][i] == x.addr && x.n == -i - 1;
        assert ins[j][i] == x.addr;
      }
      if x in Numbered(ins[n]) {
        var i :| 0 <= i < |ins[n]| && Numbered(ins[n])[i] == x;
        assert ins[n][i] == x.addr;
      }
      if j, i :| 0 <= j < |ins| && 0 <= i < |ins[j]| && ins[j][i] == x.addr && x.n == -i - 1 {
        if j < n { assert ins[..n][j][i] == x.addr; } else { assert Numbered(ins[n])[i] == x; }
      }
    }
  }

  lemma TransferListHas(ts: seq<(string, string)>, x: AddrIndex)
    ensures x in TransferList(ts) <==> exists i :: 0 <= i < |ts| && InTransfer(ts[i], i, x)
  {
    var l := TransferList(ts);
    if x in l {
      var m :| 0 <= m < |l| && l[m] == x;
      assert InTransfer(ts[m / 2], m / 2, x);
    }
    if i :| 0 <= i < |ts| && InTransfer(ts[i], i, x) {
      assert l[2 * i] == AddrIndex(ts[i].0, -i - 2) && l[2 * i + 1] == AddrIndex(ts[i].1, i + 1);
    }
  }

  /** Which places a transaction has. */
  lemma AllPlacesHas(raw: RawTx, x: AddrIndex)
    ensures x in AllPlaces(raw) <==> FromOutput(raw, x) || FromInput(raw, x) || FromTransfer(raw, x)
  {
    InputListHas(raw.inputs, x);
    if raw.transfers.Some? { TransferListHas(raw.transfers.value, x); }
  }

  /** The address the first input ends up with. */
  function Sender(raw: RawTx): string {
    if raw.nonce.None? || raw.inputs == [] || raw.inputs[0] == [] then "" else raw.inputs[0][|raw.inputs[0]| - 1]
  }

  lemma SenderListed(raw: RawTx)
    requires Sender(raw) != ""
    ensures FromInput(raw, AddrIndex(Sender(raw), -|raw.inputs[0]|))
  {
    assert raw.inputs[0][|raw.inputs[0]| - 1] == Sender(raw);
  }

  lemma PlacesHave(raw: RawTx)
    ensures forall x :: x in NonEmpty(AllPlaces(raw)) <==>
              x.addr != "" && (FromOutput(raw, x) || FromInput(raw, x) || FromTransfer(raw, x))
    ensures Sender(raw) != "" ==> AddrIndex(Sender(raw), -|raw.inputs[0]|) in NonEmpty(AllPlaces(raw))
  {
    hide FromOutput, FromInput, FromTransfer, NonEmpty, AllPlaces;
    forall x ensures x in NonEmpty(AllPlaces(raw)) <==>
                       x.addr != "" && (FromOutput(raw, x) || FromInput(raw, x) || FromTransfer(raw, x))
    {
      NonEmptyHas(AllPlaces(raw), x);
      AllPlacesHas(raw, x);
    }
    if Sender(raw) != "" { SenderListed(raw); }
  }

  /** Empty places are dropped part by part. */
  lemma PlacesParts(raw: RawTx)
    ensures NonEmpty(AllPlaces(raw))
            == NonEmpty(raw.outputs) + NonEmpty(InputList(raw.inputs))
               + if raw.transfers.Some? then NonEmpty(TransferList(raw.transfers.value)) else []
  {
    hide NonEmpty, InputList, TransferList;
    var io := raw.outputs + InputList(raw.inputs);
    NonEmptySum(raw.outputs, InputList(raw.inputs));
    if raw.transfers.Some? {
      NonEmptySum(io, TransferList(raw.transfers.value));
    } else {
      assert AllPlaces(raw) == io;
    }
  }

  /** createTxEntry: the entry lists every address the transaction names with all its places, outputs first and
      transfers last, and nothing else. The sender is the last address of the first input, known together with the
      nonce, and is itself listed. */
  method CreateTxEntry(raw: RawTx, time: nat) returns (e: Entry)
    ensures e.io == NonEmpty(AllPlaces(raw)) && e.time == time
    ensures forall x ::
              x in e.io <==> x.addr != "" && (FromOutput(raw, x) || FromInput(raw, x) || FromTransfer(raw, x))
    ensures e.from == Sender(raw) && (e.from != "" ==> AddrIndex(e.from, -|raw.inputs[0]|) in e.io)
    ensures e.nonce == if raw.nonce.Some? && raw.inputs != [] then raw.nonce.value else 0
  {
    hide FromOutput, FromInput, FromTransfer, NonEmpty, InputList, TransferList, AllPlaces;
    PlacesHave(raw);
    PlacesParts(raw);
    var io := AppendOutputs(raw.outputs);
    var ins, from := AppendInputs(raw.inputs);
    io := io + ins;
    if raw.transfers.Some? {
      var ts := AppendTransfers(raw.transfers.value);
      io := io + ts;
    }
    if raw.nonce.Some? && |raw.inputs| > 0 {
      return Entry(io, time, from, raw.nonce.value);
    }
    return Entry(io, time, "", 0);
  }

  method AppendOutputs(outs: seq<AddrIndex>) returns (io: seq<AddrIndex>)
    ensures io == NonEmpty(outs)
  {
    io := [];
    assert outs[..0] == [] && outs[..|outs|] == outs;
    for i := 0 to |outs|
      invariant io == NonEmpty(outs[..i])
    {
      assert outs[..i + 1][..i] == outs[..i];
      if outs[i].addr != "" { io := io + [AddrIndex(outs[i].addr, outs[i].n)]; }
    }
  }

  method AppendInput(addrs: seq<string>) returns (io: seq<AddrIndex>, desc: string)
    ensures io == NonEmpty(Numbered(addrs)) && desc == if addrs == [] then "" else addrs[|addrs| - 1]
  {
    io, desc := [], "";
    assert addrs[..0] == [] && addrs[..|addrs|] == addrs;
    for i := 0 to |addrs|
      invariant io == NonEmpty(Numbered(addrs[..i])) && desc == if i == 0 then "" else addrs[i - 1]
    {
      assert Numbered(addrs[..i + 1])[..i] == Numbered(addrs[..i]);
      if addrs[i] != "" { io := io + [AddrIndex(addrs[i], -1 - i)]; }
      desc := addrs[i];
    }
  }

  method AppendInputs(ins: seq<seq<string>>) returns (io: seq<AddrIndex>, first: string)
    ensures io == NonEmpty(InputList(ins)) && first == if ins == [] || ins[0] == [] then "" else ins[0][|ins[0]| - 1]
  {
    hide Numbered;
    io, first := [], "";
    assert ins[..0] == [] && ins[..|ins|] == ins;
    for j := 0 to |ins|
      invariant io == NonEmpty(InputList(ins[..j]))
      invariant first == if j == 0 || ins[0] == [] then "" else ins[0][|ins[0]| - 1]
    {
      assert ins[..j + 1][..j] == ins[..j];
      var part, desc := AppendInput(ins[j]);
      NonEmptySum(InputList(ins[..j]), Numbered(ins[j]));
      io := io + part;
      if j == 0 { first := desc; }
    }
  }

  method AppendAddress(io: seq<AddrIndex>, n: int, a: string) returns (io': seq<AddrIndex>)
    ensures io' == io + NonEmpty([AddrIndex(a, n)])
  {
    assert [AddrIndex(a, n)][..0] == [];
    io' := if a == "" then io else io + [AddrIndex(a, n)];
  }

  method AppendTransfers(ts: seq<(string, string)>) returns (io: seq<AddrIndex>)
    ensures io == NonEmpty(TransferList(ts))
  {
    io := [];
    assert ts[..0] == [] && ts[..|ts|] == ts;
    for i := 0 to |ts|
      invariant io == NonEmpty(TransferList(ts[..i]))
    {
      var from, to := AddrIndex(ts[i].0, -2 - i), AddrIndex(ts[i].1, i + 1);
      TransferListNext(ts, i);
      NonEmptySum(TransferList(ts[..i]), [from] + [to]);
      NonEmptySum([from], [to]);
      hide NonEmpty, TransferList;
      io := AppendAddress(io, from.n, from.addr);
      io := AppendAddress(io, to.n, to.addr);
    }
  }

  lemma TransferListNext(ts: seq<(string, string)>, i: nat)
    requires i < |ts|
    ensures TransferList(ts[..i + 1])
            == TransferList(ts[..i]) + ([AddrIndex(ts[i].0, -2 - i)] + [AddrIndex(ts[i].1, i + 1)])
  {
  }
}
