// The balance history of one or more own addresses, per transaction and aggregated over time.
module BalanceHistory {
  import opened Types
  import opened Totals
  import opened Keys

  /** An input or output: descriptor and value. */
  datatype Coin = Coin(addr: AddrDesc, value: nat)
  datatype TxCoins = TxCoins(inputs: seq<Coin>, outputs: seq<Coin>)

  /** What one address gains and loses by a transaction. */
  datatype Change = Change(received: nat, sent: nat, sentToSelf: nat)

  function ValueOf(cs: seq<Coin>, a: AddrDesc): nat {
    if cs == [] then 0 else ValueOf(cs[..|cs| - 1], a) + if cs[|cs| - 1].addr == a then cs[|cs| - 1].value else 0
  }

  function OwnValue(cs: seq<Coin>, own: set<AddrDesc>): nat {
    if cs == [] then 0 else OwnValue(cs[..|cs| - 1], own) + if cs[|cs| - 1].addr in own then cs[|cs| - 1].value else 0
  }

  /** The first own input, -1 if there is none. */
  function FirstOwn(cs: seq<Coin>, own: set<AddrDesc>): (i: int)
    ensures -1 <= i < |cs|
    ensures i == -1 ==> forall k :: 0 <= k < |cs| ==> cs[k].addr !in own
    ensures i >= 0 ==> cs[i].addr in own && forall k :: 0 <= k < i ==> cs[k].addr !in own
  {
    if cs == [] then -1
    else
      var n := |cs| - 1;
      var i := FirstOwn(cs[..n], own);
      if i >= 0 then i else if cs[n].addr in own then n else -1
  }

  /** The address of the first own input is the one that accounts for what goes back to own addresses. */
  function ChangeOf(tx: TxCoins, a: AddrDesc, own: set<AddrDesc>): Change {
    var i := FirstOwn(tx.inputs, own);
    Change(ValueOf(tx.outputs, a), ValueOf(tx.inputs, a),
           if i >= 0 && tx.inputs[i].addr == a then OwnValue(tx.outputs, own) else 0)
  }

  /** No input before `i` is own. */
  predicate NoOwnBefore(cs: seq<Coin>, own: set<AddrDesc>, i: nat) {
    forall k :: 0 <= k < i && k < |cs| ==> cs[k].addr !in own
  }

  /** processBitcoinTypeBalanceHistory: what goes back to own addresses is shown for the address of the first own input,
      and not at all if no input is own. */
  method ProcessHistory(tx: TxCoins, a: AddrDesc, own: set<AddrDesc>) returns (bh: Change)
    ensures bh == ChangeOf(tx, a, own)
    ensures bh.received == ValueOf(tx.outputs, a) && bh.sent == ValueOf(tx.inputs, a)
    ensures forall i :: 0 <= i < |tx.inputs| && tx.inputs[i].addr in own && NoOwnBefore(tx.inputs, own, i) ==>
              bh.sentToSelf == if tx.inputs[i].addr == a then OwnValue(tx.outputs, own) else 0
    ensures NoOwnBefore(tx.inputs, own, |tx.inputs|) ==> bh.sentToSelf == 0
  {
    var countSentToSelf, ownInputIndex, sent := false, -1, 0;
    var ins, outs := tx.inputs, tx.outputs;
    assert ins[..0] == [] && ins[..|ins|] == ins && outs[..0] == [] && outs[..|outs|] == outs;
    for i := 0 to |ins|
      invariant ownInputIndex == FirstOwn(ins[..i], own) && sent == ValueOf(ins[..i], a)
      invariant countSentToSelf <==> ownInputIndex >= 0 && ins[ownInputIndex].addr == a
    {
      assert ins[..i + 1][..i] == ins[..i];
      if ins[i].addr in own && ownInputIndex < 0 {
        ownInputIndex := i;
      }
      if ins[i].addr == a {
        sent := sent + ins[i].value;
        if ownInputIndex == i {
          countSentToSelf := true;
        }
      }
    }
    var received, toSelf := 0, 0;
    for i := 0 to |outs|
      invariant received == ValueOf(outs[..i], a) && toSelf == if countSentToSelf then OwnValue(outs[..i], own) else 0
    {
      assert outs[..i + 1][..i] == outs[..i];
      if outs[i].addr == a {
        received := received + outs[i].value;
      }
      if countSentToSelf && outs[i].addr in own {
        toSelf := toSelf + outs[i].value;
      }
    }
    return Change(received, sent, toSelf);
  }

  // ---------------------------------------------------------------- own addresses together

  ghost function SumOver(own: set<AddrDesc>, f: AddrDesc -> int): int { Total(map a | a in own :: f(a)) }

  lemma SumOverOne(own: set<AddrDesc>, f: AddrDesc -> int, g: AddrDesc -> int, a: AddrDesc)
    requires a in own && forall x :: x in own && x != a ==> g(x) == f(x)
    ensures SumOver(own, g) == SumOver(own, f) - f(a) + g(a)
  {
    var m := map x | x in own :: f(x);
    TotalUpdate(m, a, g(a));
    assert (map x | x in own :: g(x)) == m[a := g(a)];
  }

  lemma SumOverSame(own: set<AddrDesc>, f: AddrDesc -> int, g: AddrDesc -> int)
    requires forall x :: x in own ==> g(x) == f(x)
    ensures SumOver(own, g) == SumOver(own, f)
  {
    assert (map x | x in own :: g(x)) == (map x | x in own :: f(x));
  }

  lemma SumOverZero(own: set<AddrDesc>, f: AddrDesc -> int)
    requires forall x :: x in own ==> f(x) == 0
    ensures SumOver(own, f) == 0
  {
    TotalZeros(map x | x in own :: f(x));
  }

  lemma {:induction false} ValuesAddUp(cs: seq<Coin>, own: set<AddrDesc>)
    ensures SumOver(own, a => ValueOf(cs, a)) == OwnValue(cs, own)
  {
    if cs == [] {
      SumOverZero(own, a => ValueOf(cs, a));
    } else {
      var n := |cs| - 1;
      ValuesAddUp(cs[..n], own);
      if cs[n].addr in own {
        SumOverOne(own, a => ValueOf(cs[..n], a), a => ValueOf(cs, a), cs[n].addr);
      } else {
        SumOverSame(own, a => ValueOf(cs[..n], a), a => ValueOf(cs, a));
      }
    }
  }

  /** Over all own addresses: what own outputs receive, what own inputs spend, and what goes back to own addresses
      counted once if any input is own. */
  lemma ChangesAddUp(tx: TxCoins, own: set<AddrDesc>)
    ensures SumOver(own, a => ChangeOf(tx, a, own).received) == OwnValue(tx.outputs, own)
    ensures SumOver(own, a => ChangeOf(tx, a, own).sent) == OwnValue(tx.inputs, own)
    ensures SumOver(own, a => ChangeOf(tx, a, own).sentToSelf)
         == if exists i :: 0 <= i < |tx.inputs| && tx.inputs[i].addr in own then OwnValue(tx.outputs, own) else 0
  {
    ValuesAddUp(tx.outputs, own);
    ValuesAddUp(tx.inputs, own);
    SumOverSame(own, a => ValueOf(tx.outputs, a), a => ChangeOf(tx, a, own).received);
    SumOverSame(own, a => ValueOf(tx.inputs, a), a => ChangeOf(tx, a, own).sent);
    var i := FirstOwn(tx.inputs, own);
    if i >= 0 {
      SumOverOne(own, a => 0, a => ChangeOf(tx, a, own).sentToSelf, tx.inputs[i].addr);
      SumOverZero(own, a => 0);
    } else {
      SumOverZero(own, a => ChangeOf(tx, a, own).sentToSelf);
    }
  }

  // ---------------------------------------------------------------- aggregation over time

  datatype Point = Point(time: nat, txid: seq<byte>, change: Change)
  datatype Group = Group(time: nat, txs: nat, change: Change)

  const NoChange := Change(0, 0, 0)

  function Plus(c: Change, d: Change): Change {
    Change(c.received + d.received, c.sent + d.sent, c.sentToSelf + d.sentToSelf)
  }

  /** The start of the interval of length `g` that `t` lies in. */
  function Floor(t: nat, g: nat): nat
    requires g > 0
  {
    t - t % g
  }

  /** Ordered by time, then by txid. */
  predicate Before(x: Point, y: Point) { x.time < y.time || (x.time == y.time && Less(x.txid, y.txid)) }

  ghost predicate Sorted(s: seq<Point>) { forall i, j :: 0 <= i < j < |s| ==> !Before(s[j], s[i]) }

  /** Every point has a txid, and a transaction has one time. */
  ghost predicate PointsOk(s: seq<Point>) {
    && (forall i :: 0 <= i < |s| ==> s[i].txid != [])
    && (forall i, j :: 0 <= i < |s| && 0 <= j < |s| && s[i].txid == s[j].txid ==> s[i].time == s[j].time)
  }

  function SumAt(s: seq<Point>, g: nat, t: nat): Change
    requires g > 0
  {
    if s == [] then NoChange
    else
      var n := |s| - 1;
      if Floor(s[n].time, g) == t then Plus(SumAt(s[..n], g, t), s[n].change) else SumAt(s[..n], g, t)
  }

  function SumAll(s: seq<Point>): Change {
    if s == [] then NoChange else Plus(SumAll(s[..|s| - 1]), s[|s| - 1].change)
  }

  function SumGroups(out: seq<Group>): Change {
    if out == [] then NoChange else Plus(SumGroups(out[..|out| - 1]), out[|out| - 1].change)
  }

  ghost function TxidsAt(s: seq<Point>, g: nat, t: nat): set<seq<byte>>
    requires g > 0
  {
    set i | 0 <= i < |s| && Floor(s[i].time, g) == t :: s[i].txid
  }

  ghost predicate Ascending(out: seq<Group>) { forall i, j :: 0 <= i < j < |out| ==> out[i].time < out[j].time }

  ghost predicate GroupOk(o: Group, s: seq<Point>, g: nat)
    requires g > 0
  {
    o.change == SumAt(s, g, o.time) && o.txs == |TxidsAt(s, g, o.time)| > 0
  }

  predicate HasTime(out: seq<Group>, t: nat) { exists k :: 0 <= k < |out| && out[k].time == t }

  ghost predicate Covered(out: seq<Group>, s: seq<Point>, g: nat)
    requires g > 0
  {
    forall i :: 0 <= i < |s| ==> HasTime(out, Floor(s[i].time, g))
  }

  /** The groups are the intervals that have points, in order, each with the sums of its points and the number of its
      transactions; nothing is lost. */
  ghost predicate Grouped(out: seq<Group>, s: seq<Point>, g: nat)
    requires g > 0
  {
    && Ascending(out) && (forall k :: 0 <= k < |out| ==> GroupOk(out[k], s, g))
    && Covered(out, s, g)
    && SumGroups(out) == SumAll(s)
  }

  lemma FloorMono(x: nat, y: nat, g: nat)
    requires g > 0 && x <= y
    ensures Floor(x, g) <= Floor(y, g)
    ensures Floor(x, g) > 0 <==> x >= g
  {
    var a, b := x / g, y / g;
    assert x == g * a + x % g && y == g * b + y % g;
    if a > b { MulGap(a, b, g); }
    if a <= b { MulMono(a, b, g); }
    if a >= 1 { MulMono(1, a, g); }
  }

  lemma MulGap(a: nat, b: nat, g: nat)
    requires a > b
    ensures g * a >= g * b + g
  {
    MulMono(b + 1, a, g);
    assert g * (b + 1) == g * b + g;
  }

  lemma MulMono(a: nat, b: nat, g: nat)
    requires a <= b
    ensures g * a <= g * b
  {
  }

  lemma TxidsNext(s: seq<Point>, g: nat, i: nat, t: nat)
    requires g > 0 && i < |s|
    ensures TxidsAt(s[..i + 1], g, t) == TxidsAt(s[..i], g, t) + if Floor(s[i].time, g) == t then {s[i].txid} else {}
    ensures SumAt(s[..i + 1], g, t) == if Floor(s[i].time, g) == t
            then Plus(SumAt(s[..i], g, t), s[i].change) else SumAt(s[..i], g, t)
    ensures SumAll(s[..i + 1]) == Plus(SumAll(s[..i]), s[i].change)
  {
    assert s[..i + 1][..i] == s[..i];
    assert s[..i + 1] == s[..i] + [s[i]];
    hide Floor;
    var x, y := TxidsAt(s[..i + 1], g, t), TxidsAt(s[..i], g, t) + if Floor(s[i].time, g) == t then {s[i].txid} else {};
    forall id | id in x ensures id in y {
      var k :| 0 <= k < i + 1 && Floor(s[..i + 1][k].time, g) == t && s[..i + 1][k].txid == id;
      if k < i { assert s[..i][k].txid == id; }
    }
    forall id | id in y ensures id in x {
      if id in TxidsAt(s[..i], g, t) {
        var k :| 0 <= k < i && Floor(s[..i][k].time, g) == t && s[..i][k].txid == id;
        assert s[..i + 1][k].txid == id;
      } else {
        assert s[..i + 1][i].txid == id;
      }
    }
  }

  /** Points of one transaction are neighbours. */
  lemma NewTxid(s: seq<Point>, g: nat, i: nat)
    requires g > 0 && 0 < i < |s| && Sorted(s) && PointsOk(s) && s[i].txid != s[i - 1].txid
    ensures forall t :: s[i].txid !in TxidsAt(s[..i], g, t)
  {
    forall k | 0 <= k < i ensures s[k].txid != s[i].txid {
      if s[k].txid == s[i].txid {
        assert !Before(s[i - 1], s[k]) && !Before(s[i], s[i - 1]);
        LessTotal(s[i - 1].txid, s[i].txid);
        assert false;
      }
    }
  }

  lemma NothingLater(s: seq<Point>, g: nat, i: nat)
    requires g > 0 && i < |s| && Sorted(s)
    ensures forall k :: 0 <= k < i ==> Floor(s[k].time, g) <= Floor(s[i].time, g)
  {
    hide Less;
    forall k | 0 <= k < i ensures Floor(s[k].time, g) <= Floor(s[i].time, g) {
      assert !Before(s[i], s[k]);
      FloorMono(s[k].time, s[i].time, g);
    }
  }

  lemma {:induction false} NothingThere(s: seq<Point>, g: nat, t: nat)
    requires g > 0 && forall k :: 0 <= k < |s| ==> Floor(s[k].time, g) != t
    ensures SumAt(s, g, t) == NoChange && TxidsAt(s, g, t) == {}
  {
    if s != [] { NothingThere(s[..|s| - 1], g, t); }
  }

  /** After the first `i` points; the last group is the one still open. */
  ghost predicate GroupedTo(out: seq<Group>, s: seq<Point>, i: nat, g: nat)
    requires g > 0 && i <= |s|
  {
    Grouped(out, s[..i], g) && (i == 0 ==> out == [])
        && (i > 0 ==> out != [] && out[|out| - 1].time == Floor(s[i - 1].time, g))
  }

  lemma OtherGroups(o: Group, s: seq<Point>, i: nat, g: nat)
    requires g > 0 && i < |s| && GroupOk(o, s[..i], g) && o.time != Floor(s[i].time, g)
    ensures GroupOk(o, s[..i + 1], g)
  {
    TxidsNext(s, g, i, o.time);
  }

  lemma TimesKept(out: seq<Group>, out': seq<Group>, s: seq<Point>, i: nat, g: nat)
    requires g > 0 && i < |s| && Covered(out, s[..i], g)
    requires |out| <= |out'| && (forall k :: 0 <= k < |out| ==> out'[k].time == out[k].time)
             && HasTime(out', Floor(s[i].time, g))
    ensures Covered(out', s[..i + 1], g)
  {
    hide Floor;
    var s' := s[..i + 1];
    forall k | 0 <= k < |s'| ensures HasTime(out', Floor(s'[k].time, g)) {
      if k < i {
        assert s[..i][k] == s'[k];
        var j :| 0 <= j < |out| && out[j].time == Floor(s'[k].time, g);
        assert out'[j].time == out[j].time;
      }
    }
  }

  lemma PlusRegroup(x: Change, y: Change, z: Change)
    ensures Plus(Plus(x, y), z) == Plus(x, Plus(y, z)) && Plus(NoChange, z) == z
  {
  }

  /** The next point falls into the open group. */
  lemma SameGroup(out: seq<Group>, s: seq<Point>, i: nat, g: nat)
    requires g > 0 && 0 < i < |s| && Sorted(s) && PointsOk(s) && GroupedTo(out, s, i, g)
             && Floor(s[i].time, g) == Floor(s[i - 1].time, g)
    ensures var n := |out| - 1;
            var cur := Group(out[n].time, out[n].txs + (if s[i].txid != s[i - 1].txid then 1 else 0),
                Plus(out[n].change, s[i].change));
            GroupedTo(out[n := cur], s, i + 1, g)
  {
    hide Floor, Less, SumAt, TxidsAt;
    var n, t := |out| - 1, Floor(s[i].time, g);
    var cur := Group(out[n].time, out[n].txs + (if s[i].txid != s[i - 1].txid then 1 else 0),
        Plus(out[n].change, s[i].change));
    var out' := out[n := cur];
    TxidsNext(s, g, i, t);
    if s[i].txid != s[i - 1].txid { NewTxid(s, g, i); } else { LastTxid(s, g, i); }
    assert GroupOk(out[n], s[..i], g);
    assert GroupOk(cur, s[..i + 1], g);
    forall k | 0 <= k < |out'| ensures GroupOk(out'[k], s[..i + 1], g) {
      if k < n { assert GroupOk(out[k], s[..i], g); OtherGroups(out[k], s, i, g); }
    }
    assert HasTime(out', t) by { assert out'[n].time == t; }
    TimesKept(out, out', s, i, g);
    assert out'[..n] == out[..n];
    PlusRegroup(SumGroups(out[..n]), out[n].change, s[i].change);
  }

  lemma LastTxid(s: seq<Point>, g: nat, i: nat)
    requires g > 0 && 0 < i < |s| && s[i].txid == s[i - 1].txid && Floor(s[i].time, g) == Floor(s[i - 1].time, g)
    ensures s[i].txid in TxidsAt(s[..i], g, Floor(s[i].time, g))
  {
    hide Floor;
    assert s[..i][i - 1].txid == s[i].txid;
  }

  /** The next point opens a group. */
  lemma NewGroup(out: seq<Group>, s: seq<Point>, i: nat, g: nat)
    requires g > 0 && i < |s| && Sorted(s) && GroupedTo(out, s, i, g)
             && (i > 0 ==> Floor(s[i].time, g) != Floor(s[i - 1].time, g))
    ensures GroupedTo(out + [Group(Floor(s[i].time, g), 1, s[i].change)], s, i + 1, g)
  {
    hide Floor, Less, SumAt, TxidsAt, GroupOk, Covered, Sorted;
    var n, t := |out|, Floor(s[i].time, g);
    var out' := out + [Group(t, 1, s[i].change)];
    FirstOfGroup(s, g, i);
    assert out'[n] == Group(t, 1, s[i].change);
    forall k | 0 <= k < |out'| ensures GroupOk(out'[k], s[..i + 1], g) {
      if k < n { assert GroupOk(out[k], s[..i], g); OtherGroups(out[k], s, i, g); }
    }
    assert HasTime(out', t) by { assert out'[n].time == t; }
    TimesKept(out, out', s, i, g);
    assert out'[..n] == out;
    assert s[..i + 1][..i] == s[..i];
  }

  lemma FirstOfGroup(s: seq<Point>, g: nat, i: nat)
    requires g > 0 && i < |s| && Sorted(s) && (i > 0 ==> Floor(s[i].time, g) != Floor(s[i - 1].time, g))
    ensures GroupOk(Group(Floor(s[i].time, g), 1, s[i].change), s[..i + 1], g)
    ensures i > 0 ==> Floor(s[i - 1].time, g) < Floor(s[i].time, g)
    ensures SumAll(s[..i + 1]) == Plus(SumAll(s[..i]), s[i].change)
  {
    hide Floor, Less, SumAt, TxidsAt, Sorted;
    var t := Floor(s[i].time, g);
    TxidsNext(s, g, i, t);
    NothingLater(s, g, i);
    if i > 0 { NothingLater(s, g, i - 1); }
    assert forall k :: 0 <= k < i ==> s[..i][k] == s[k];
    NothingThere(s[..i], g, t);
  }

  /** The points past the first interval. */
  function Late(s: seq<Point>, g: nat): seq<Point> {
    if s == [] then []
    else Late(s[..|s| - 1], g) + if s[|s| - 1].time >= g then [s[|s| - 1]] else []
  }

  ghost predicate AllEarly(s: seq<Point>, g: nat) { forall i :: 0 <= i < |s| ==> s[i].time < g }

  ghost predicate AllLate(s: seq<Point>, g: nat) { forall i :: 0 <= i < |s| ==> s[i].time >= g }

  /** The points that are aggregated: an open group at time 0 is taken for none when the next one begins. */
  ghost function Counted(s: seq<Point>, g: nat): seq<Point> { if AllEarly(s, g) then s else Late(s, g) }

  lemma {:induction false} LateOnly(s: seq<Point>, g: nat)
    ensures AllLate(Late(s, g), g)
    ensures AllLate(s, g) ==> Late(s, g) == s
  {
    hide Late, AllLate;
    if s == [] {
      NoneLate(g);
    } else {
      var n := |s| - 1;
      LateOnly(s[..n], g);
      LateNext(s, g);
      AllLateNext(Late(s[..n], g), s[n], g);
      AllLateNext(s[..n], s[n], g);
      LastPoint(s);
    }
  }

  lemma NoneLate(g: nat)
    ensures Late([], g) == [] && AllLate([], g)
  {
  }

  lemma LastPoint(s: seq<Point>)
    requires s != []
    ensures s[..|s| - 1] + [s[|s| - 1]] == s
  {
  }

  lemma LateNext(s: seq<Point>, g: nat)
    requires s != []
    ensures var n := |s| - 1; Late(s, g) == if s[n].time >= g then Late(s[..n], g) + [s[n]] else Late(s[..n], g)
  {
    var n := |s| - 1;
    assert Late(s[..n], g) + [] == Late(s[..n], g);
  }

  lemma AllLateNext(s: seq<Point>, x: Point, g: nat)
    ensures AllLate(s + [x], g) <==> AllLate(s, g) && x.time >= g
  {
    if AllLate(s + [x], g) {
      forall i | 0 <= i < |s| ensures s[i].time >= g { assert (s + [x])[i] == s[i]; }
      assert (s + [x])[|s|] == x;
    }
  }

  lemma {:induction false} LateCount(s: seq<Point>, g: nat, x: Point)
    ensures multiset(Late(s, g))[x] == if x.time >= g then multiset(s)[x] else 0
  {
    if s != [] {
      LateCount(s[..|s| - 1], g, x);
      LastCount(s, x);
      var y := s[|s| - 1];
      if y.time >= g {
        LastCount(Late(s[..|s| - 1], g) + [y], x);
        assert (Late(s[..|s| - 1], g) + [y])[..|Late(s[..|s| - 1], g)|] == Late(s[..|s| - 1], g);
      } else {
        assert Late(s, g) == Late(s[..|s| - 1], g);
      }
    }
  }

  lemma LastCount(s: seq<Point>, x: Point)
    requires s != []
    ensures multiset(s)[x] == multiset(s[..|s| - 1])[x] + if s[|s| - 1] == x then 1 else 0
  {
    assert s == s[..|s| - 1] + [s[|s| - 1]];
  }

  lemma LatePermuted(a: seq<Point>, s: seq<Point>, g: nat)
    requires multiset(a) == multiset(s)
    ensures multiset(Late(a, g)) == multiset(Late(s, g))
  {
    hide Late;
    forall x ensures multiset(Late(a, g))[x] == multiset(Late(s, g))[x] {
      LateCount(a, g, x);
      LateCount(s, g, x);
    }
  }

  /** Over points in order the late ones come last. */
  lemma LateIsTail(s: seq<Point>, g: nat, p: nat)
    requires p <= |s| && AllEarly(s[..p], g) && AllLate(s[p..], g)
    ensures multiset(Late(s, g)) == multiset(s[p..])
    ensures AllEarly(s, g) <==> p == |s|
  {
    hide Late;
    forall x ensures multiset(Late(s, g))[x] == multiset(s[p..])[x] {
      LateCount(s, g, x);
      TailCount(s, g, p, x);
    }
    if p < |s| { assert s[p] == s[p..][0]; }
    if p == |s| { assert s[..p] == s; }
  }

  lemma TailCount(s: seq<Point>, g: nat, p: nat, x: Point)
    requires p <= |s| && AllEarly(s[..p], g) && AllLate(s[p..], g)
    ensures multiset(s[p..])[x] == if x.time >= g then multiset(s)[x] else 0
  {
    assert s == s[..p] + s[p..];
    if x.time >= g { assert x !in s[..p]; } else { assert x !in s[p..]; }
  }

  lemma Tail(s: seq<Point>, p: nat)
    requires p <= |s| && Sorted(s) && PointsOk(s)
    ensures Sorted(s[p..]) && PointsOk(s[p..])
  {
    hide Less;
  }

  /** Points in order are the early ones followed by the late ones. */
  lemma Split(s: seq<Point>, g: nat) returns (p: nat)
    requires Sorted(s)
    ensures p <= |s| && AllEarly(s[..p], g) && AllLate(s[p..], g)
  {
    hide Less;
    p := 0;
    while p < |s| && s[p].time < g
      invariant p <= |s| && AllEarly(s[..p], g)
    {
      p := p + 1;
    }
    if p < |s| {
      forall i | p <= i < |s| ensures s[i].time >= g { assert i > p ==> !Before(s[i], s[p]); }
    }
  }

  /** The groups after `i` points, of which the first `p` are early. */
  ghost predicate Progress(bhs: seq<Group>, bha: Group, txid: seq<byte>, s: seq<Point>, p: nat, i: nat, g: nat)
    requires g > 0 && p <= |s| && i <= |s|
  {
    && (i == 0 ==> bhs == [] && bha == Group(0, 0, NoChange) && txid == [])
    && (i > 0 ==> txid == s[i - 1].txid && bha.txs > 0)
    && (0 < i <= p ==> bhs == [] && bha.time == 0 && GroupedTo([bha], s, i, g))
    && (p < i ==> bha.time > 0 && GroupedTo(bhs + [bha], s[p..], i - p, g))
  }

  /** What one point makes of the open group. */
  function Joined(bha: Group, txid: seq<byte>, bh: Point): Group {
    Group(bha.time, bha.txs + (if txid != bh.txid then 1 else 0), Plus(bha.change, bh.change))
  }

  lemma FirstPoint(s: seq<Point>, p: nat, i: nat, g: nat)
    requires g > 0 && Sorted(s) && PointsOk(s) && i < |s| && p <= |s| && AllEarly(s[..p], g) && AllLate(s[p..], g)
    requires i == 0 || i == p
    ensures Progress([], Joined(Group(Floor(s[i].time, g), 0, NoChange), [], s[i]), s[i].txid, s, p, i + 1, g)
  {
    hide Grouped, Less, Floor, Sorted;
    FloorMono(s[i].time, s[i].time, g);
    PlusRegroup(NoChange, NoChange, s[i].change);
    var x := Joined(Group(Floor(s[i].time, g), 0, NoChange), [], s[i]);
    assert [] + [x] == [x];
    if i < p {
      assert s[..p][i] == s[i];
      Start(s, g);
      NewGroup([], s, 0, g);
    } else {
      assert s[p..][0] == s[i];
      Tail(s, p);
      Start(s[p..], g);
      NewGroup([], s[p..], 0, g);
    }
  }

  lemma NextPoint(bhs: seq<Group>, bha: Group, txid: seq<byte>, s: seq<Point>, p: nat, i: nat, g: nat)
    requires g > 0 && Sorted(s) && PointsOk(s) && i < |s| && p <= |s| && AllEarly(s[..p], g) && AllLate(s[p..], g)
    requires Progress(bhs, bha, txid, s, p, i, g)
    ensures var t := Floor(s[i].time, g);
            if bha.time != t
            then Progress(if bha.time != 0
                then bhs + [bha] else bhs, Joined(Group(t, 0, NoChange), [], s[i]), s[i].txid, s, p, i + 1, g)
            else Progress(bhs, Joined(bha, txid, s[i]), s[i].txid, s, p, i + 1, g)
  {
    hide Grouped, GroupedTo, Less, Floor, Sorted;
    FloorMono(s[i].time, s[i].time, g);
    assert i < p ==> s[..p][i] == s[i];
    assert i >= p ==> s[p..][i - p] == s[i];
    if i == 0 || i == p {
      FirstPoint(s, p, i, g);
    } else if i < p {
      assert [] + [bha] == [bha];
      LaterPoint([], bha, s, i, g);
      assert [] + [Joined(bha, txid, s[i])] == [Joined(bha, txid, s[i])];
    } else {
      Tail(s, p);
      assert s[p..][i - p - 1] == s[i - 1];
      LaterPoint(bhs, bha, s[p..], i - p, g);
    }
  }

  lemma LaterPoint(bhs: seq<Group>, bha: Group, s: seq<Point>, i: nat, g: nat)
    requires g > 0 && Sorted(s) && PointsOk(s) && 0 < i < |s| && GroupedTo(bhs + [bha], s, i, g)
    ensures var t := Floor(s[i].time, g);
            if bha.time != t
            then GroupedTo(bhs + [bha] + [Joined(Group(t, 0, NoChange), [], s[i])], s, i + 1, g)
            else GroupedTo(bhs + [Joined(bha, s[i - 1].txid, s[i])], s, i + 1, g)
  {
    hide Grouped, Less, Floor, Sorted;
    PlusRegroup(NoChange, NoChange, s[i].change);
    if bha.time != Floor(s[i].time, g) {
      NewGroup(bhs + [bha], s, i, g);
    } else {
      SameGroup(bhs + [bha], s, i, g);
      LastReplaced(bhs, bha);
    }
  }

  /** The loop of SortAndAggregate over points in order. */
  method Aggregate(s: seq<Point>, g: nat) returns (bhs: seq<Group>)
    requires g > 0 && Sorted(s) && PointsOk(s)
    ensures Grouped(bhs, Counted(s, g), g)
  {
    hide Grouped, Progress, Less, Floor, Plus, Sorted, PointsOk, AllEarly, AllLate;
    bhs := [];
    var bha, txid := Group(0, 0, NoChange), [];
    ghost var p := Split(s, g);
    NoPoint(s, p, g);
    for i := 0 to |s|
      invariant Progress(bhs, bha, txid, s, p, i, g)
    {
      NextPoint(bhs, bha, txid, s, p, i, g);
      var bh := s[i];
      var time := Floor(bh.time, g);
      if bha.time != time {
        if bha.time != 0 {
          bhs := bhs + [bha];
        }
        bha, txid := Group(time, 0, NoChange), [];
      }
      if txid != bh.txid {
        bha, txid := bha.(txs := bha.txs + 1), bh.txid;
      }
      bha := bha.(change := Plus(bha.change, bh.change));
    }
    AllPoints(bhs, bha, txid, s, p, g);
    if bha.txs > 0 {
      bhs := bhs + [bha];
    }
  }

  lemma NoPoint(s: seq<Point>, p: nat, g: nat)
    requires g > 0 && p <= |s|
    ensures Progress([], Group(0, 0, NoChange), [], s, p, 0, g)
  {
  }

  lemma AllPoints(bhs: seq<Group>, bha: Group, txid: seq<byte>, s: seq<Point>, p: nat, g: nat)
    requires g > 0 && p <= |s| && AllEarly(s[..p], g) && AllLate(s[p..], g) && Progress(bhs, bha, txid, s, p, |s|, g)
    ensures Grouped(if bha.txs > 0 then bhs + [bha] else bhs, Counted(s, g), g)
  {
    hide Grouped, GroupedTo, AllEarly, AllLate;
    LateIsTail(s, g, p);
    if s == [] {
      Start(s, g);
      End([], s, g);
    } else if p == |s| {
      assert [] + [bha] == [bha];
      End([bha], s, g);
    } else {
      End(bhs + [bha], s[p..], g);
      GroupedPermuted(bhs + [bha], s[p..], Late(s, g), g);
    }
  }

  lemma LastReplaced(out: seq<Group>, x: Group)
    ensures forall y :: (out + [x])[|out| := y] == out + [y]
  {
  }

  lemma End(out: seq<Group>, s: seq<Point>, g: nat)
    requires g > 0 && GroupedTo(out, s, |s|, g)
    ensures Grouped(out, s, g)
  {
    hide Grouped;
    assert s[..|s|] == s;
  }

  lemma Start(s: seq<Point>, g: nat)
    requires g > 0
    ensures GroupedTo([], s, 0, g)
  {
  }

  // ---------------------------------------------------------------- order does not matter

  function Removed(s: seq<Point>, j: nat): seq<Point>
    requires j < |s|
  {
    s[..j] + s[j + 1..]
  }

  lemma {:induction false} SumsWithout(s: seq<Point>, j: nat, g: nat, t: nat)
    requires g > 0 && j < |s|
    ensures SumAll(s) == Plus(SumAll(Removed(s, j)), s[j].change)
    ensures SumAt(s, g, t) == if Floor(s[j].time, g) == t
            then Plus(SumAt(Removed(s, j), g, t), s[j].change) else SumAt(Removed(s, j), g, t)
  {
    hide Floor, Removed;
    var n := |s| - 1;
    RemovedEnd(s, j);
    if j < n { SumsWithout(s[..n], j, g, t); }
  }

  lemma RemovedEnd(s: seq<Point>, j: nat)
    requires j < |s|
    ensures var n, r := |s| - 1, Removed(s, j);
            |r| == n && (j == n ==> r == s[..n]) && (j < n ==> r[..n - 1] == Removed(s[..n], j) && r[n - 1] == s[n])
  {
  }

  lemma RemovedOne(s: seq<Point>, j: nat)
    requires j < |s|
    ensures multiset(Removed(s, j)) == multiset(s) - multiset{s[j]}
  {
    assert s == s[..j] + [s[j]] + s[j + 1..];
  }

  lemma {:induction false} SumsPermuted(a: seq<Point>, s: seq<Point>, g: nat, t: nat)
    requires g > 0 && multiset(a) == multiset(s)
    ensures SumAll(a) == SumAll(s) && SumAt(a, g, t) == SumAt(s, g, t)
    decreases |a|
  {
    hide Floor;
    if a == [] {
      assert |multiset(s)| == 0;
    } else {
      var n := |a| - 1;
      assert a == a[..n] + [a[n]];
      assert a[n] in multiset(s);
      var j :| 0 <= j < |s| && s[j] == a[n];
      RemovedOne(s, j);
      assert multiset(a) == multiset(a[..n]) + multiset{a[n]};
      SumsPermuted(a[..n], Removed(s, j), g, t);
      SumsWithout(s, j, g, t);
    }
  }

  lemma TxidsPermuted(a: seq<Point>, s: seq<Point>, g: nat, t: nat)
    requires g > 0 && multiset(a) == multiset(s)
    ensures TxidsAt(a, g, t) <= TxidsAt(s, g, t)
  {
    hide Floor;
    forall id | id in TxidsAt(a, g, t) ensures id in TxidsAt(s, g, t) {
      var i :| 0 <= i < |a| && Floor(a[i].time, g) == t && a[i].txid == id;
      assert a[i] in multiset(s);
      var j :| 0 <= j < |s| && s[j] == a[i];
    }
  }

  lemma GroupedPermuted(out: seq<Group>, s: seq<Point>, a: seq<Point>, g: nat)
    requires g > 0 && multiset(a) == multiset(s) && Grouped(out, s, g)
    ensures Grouped(out, a, g)
  {
    hide Floor, SumAt, TxidsAt;
    SumsPermuted(a, s, g, 0);
    forall k | 0 <= k < |out| ensures GroupOk(out[k], a, g) {
      assert GroupOk(out[k], s, g);
      SumsPermuted(a, s, g, out[k].time);
      TxidsPermuted(a, s, g, out[k].time);
      TxidsPermuted(s, a, g, out[k].time);
      assert TxidsAt(a, g, out[k].time) == TxidsAt(s, g, out[k].time);
    }
    forall i | 0 <= i < |a| ensures HasTime(out, Floor(a[i].time, g)) {
      assert a[i] in multiset(s);
      var j :| 0 <= j < |s| && s[j] == a[i];
    }
  }

  // ---------------------------------------------------------------- sorting

  lemma NotBeforeTrans(x: Point, y: Point, z: Point)
    requires !Before(y, x) && !Before(z, y)
    ensures !Before(z, x)
  {
    if x.time == y.time == z.time && Less(z.txid, x.txid) {
      LessTotal(x.txid, y.txid);
      LessTotal(y.txid, z.txid);
      if Less(x.txid, y.txid) { LessTrans(z.txid, x.txid, y.txid); }
    }
  }

  /** Puts a point behind the points that are not after it. */
  method Insert(s: seq<Point>, x: Point) returns (r: seq<Point>)
    requires Sorted(s)
    ensures Sorted(r) && multiset(r) == multiset(s) + multiset{x}
  {
    hide Less;
    var i := |s|;
    while i > 0 && Before(x, s[i - 1])
      invariant 0 <= i <= |s| && forall k :: i <= k < |s| ==> Before(x, s[k])
    {
      i := i - 1;
    }
    forall k | 0 <= k < i ensures !Before(x, s[k]) {
      if k < i - 1 { NotBeforeTrans(s[k], s[i - 1], x); }
    }
    forall k | i <= k < |s| ensures !Before(s[k], x) { LessTotal(s[k].txid, x.txid); }
    r := s[..i] + [x] + s[i..];
    assert s == s[..i] + s[i..];
  }

  method Sort(a: seq<Point>) returns (s: seq<Point>)
    ensures Sorted(s) && multiset(s) == multiset(a)
  {
    hide Sorted;
    s := [];
    NoneSorted();
    for i := 0 to |a|
      invariant Sorted(s) && multiset(s) == multiset(a[..i])
    {
      assert a[..i + 1] == a[..i] + [a[i]];
      s := Insert(s, a[i]);
    }
    assert a[..|a|] == a;
  }

  lemma NoneSorted()
    ensures Sorted([])
  {
  }

  lemma PointsPermuted(a: seq<Point>, s: seq<Point>)
    requires multiset(a) == multiset(s) && PointsOk(a)
    ensures PointsOk(s)
  {
    forall i | 0 <= i < |s| ensures exists j :: 0 <= j < |a| && a[j] == s[i] {
      assert s[i] in multiset(a);
    }
  }

  lemma EarlyPermuted(a: seq<Point>, s: seq<Point>, g: nat)
    requires multiset(a) == multiset(s) && AllEarly(a, g)
    ensures AllEarly(s, g)
  {
    forall i | 0 <= i < |s| ensures s[i].time < g {
      assert s[i] in multiset(a);
    }
  }

  lemma CountedPermuted(a: seq<Point>, s: seq<Point>, g: nat)
    requires multiset(a) == multiset(s)
    ensures multiset(Counted(a, g)) == multiset(Counted(s, g))
  {
    hide AllEarly, Late;
    if AllEarly(a, g) { EarlyPermuted(a, s, g); }
    if AllEarly(s, g) { EarlyPermuted(s, a, g); }
    LatePermuted(a, s, g);
  }

  /** What is aggregated is everything exactly when the points lie all in the first interval or all past it. */
  lemma NothingLostExactly(out: seq<Group>, a: seq<Point>, g: nat)
    requires g > 0 && Grouped(out, Counted(a, g), g)
    ensures Grouped(out, a, g) <==> AllEarly(a, g) || AllLate(a, g)
  {
    hide Grouped;
    LateOnly(a, g);
    if !AllEarly(a, g) && !AllLate(a, g) {
      NoGroupAtZero(out, Late(a, g), g);
      var i :| 0 <= i < |a| && a[i].time < g;
      MissingGroup(out, a, g, i);
    }
  }

  lemma NoGroupAtZero(out: seq<Group>, s: seq<Point>, g: nat)
    requires g > 0 && AllLate(s, g) && Grouped(out, s, g)
    ensures !HasTime(out, 0)
  {
    NoLateThere(s, g);
    forall k | 0 <= k < |out| ensures out[k].time != 0 { assert GroupOk(out[k], s, g); }
  }

  lemma MissingGroup(out: seq<Group>, a: seq<Point>, g: nat, i: nat)
    requires g > 0 && i < |a| && a[i].time < g && !HasTime(out, 0)
    ensures !Grouped(out, a, g)
  {
    FirstIntervalOnly(a[i].time, g);
    assert !HasTime(out, Floor(a[i].time, g));
  }

  lemma FirstIntervalOnly(t: nat, g: nat)
    requires g > 0
    ensures Floor(t, g) == 0 <==> t < g
  {
    FloorMono(t, t, g);
  }

  lemma NoLateThere(s: seq<Point>, g: nat)
    requires g > 0 && AllLate(s, g)
    ensures TxidsAt(s, g, 0) == {}
  {
    hide Floor;
    forall k | 0 <= k < |s| ensures Floor(s[k].time, g) != 0 { FirstIntervalOnly(s[k].time, g); }
    NothingThere(s, g, 0);
  }

  /** A point at time 1 is lost behind one at time 10 when the intervals are 5 long. */
  lemma EarlyPointLost(c: Change, d: Change, out: seq<Group>)
    requires Grouped(out, Counted([Point(1, [1], c), Point(10, [2], d)], 5), 5)
    ensures !Grouped(out, [Point(1, [1], c), Point(10, [2], d)], 5)
  {
    var a := [Point(1, [1], c), Point(10, [2], d)];
    NothingLostExactly(out, a, 5);
    assert a[0].time < 5 && a[1].time >= 5;
  }

  /** SortAndAggregate: whatever the order of the points, the groups hold what the counted points of their interval add
      up to and each transaction is counted once. */
  method SortAndAggregate(a: seq<Point>, g: nat) returns (bhs: seq<Group>)
    requires g > 0 && PointsOk(a)
    ensures Grouped(bhs, Counted(a, g), g)
    ensures Grouped(bhs, a, g) <==> AllEarly(a, g) || AllLate(a, g)
  {
    hide Grouped, Sorted, PointsOk, Counted, AllEarly, AllLate;
    var s := Sort(a);
    PointsPermuted(a, s);
    CountedPermuted(a, s, g);
    bhs := Aggregate(s, g);
    GroupedPermuted(bhs, Counted(s, g), Counted(a, g), g);
    NothingLostExactly(bhs, a, g);
  }
}
