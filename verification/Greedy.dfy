/** Greedy transfer along a priority list, in whole megabytes: the plain meaning of "suppress L2,
    then L1, then L0" and of "recover L0, then L1, then L2". Lists may have any length. */
module Greedy {

  import opened Words

  /** A limit and the bound it is moved toward. */
  datatype Level = Level(cur: int, bound: int)

  function Above(l: Level): nat { Max(0, l.cur - l.bound) }

  function Below(l: Level): nat { Max(0, l.bound - l.cur) }

  /** Take `amount` from the levels in order, each down to its floor. */
  function Drain(ls: seq<Level>, amount: nat): (r: seq<int>)
    ensures |r| == |ls|
  {
    if ls == [] then []
    else [Max(ls[0].bound, ls[0].cur - amount)] + Drain(ls[1..], Max(0, amount - Above(ls[0])))
  }

  /** Hand `amount` to the levels in order, each up to its ceiling. */
  function Fill(ls: seq<Level>, amount: nat): (r: seq<int>)
    ensures |r| == |ls|
  {
    if ls == [] then []
    else [Min(ls[0].bound, ls[0].cur + amount)] + Fill(ls[1..], Max(0, amount - Below(ls[0])))
  }

  function Total(xs: seq<int>): int { if xs == [] then 0 else xs[0] + Total(xs[1..]) }

  function Currents(ls: seq<Level>): (r: seq<int>)
    ensures |r| == |ls|
  {
    if ls == [] then [] else [ls[0].cur] + Currents(ls[1..])
  }

  function TotalAbove(ls: seq<Level>): nat { if ls == [] then 0 else Above(ls[0]) + TotalAbove(ls[1..]) }

  function TotalBelow(ls: seq<Level>): nat { if ls == [] then 0 else Below(ls[0]) + TotalBelow(ls[1..]) }

  // ---- what the result is, without saying how it is computed ----

  ghost predicate AllAbove(ls: seq<Level>) { forall i :: 0 <= i < |ls| ==> ls[i].bound <= ls[i].cur }

  ghost predicate AllBelow(ls: seq<Level>) { forall i :: 0 <= i < |ls| ==> ls[i].cur <= ls[i].bound }

  /** Each level stays between its floor and where it was, and is lowered only when every level
      before it ends on its floor. */
  ghost predicate Suppresses(ls: seq<Level>, r: seq<int>) {
    && |r| == |ls|
    && (forall i :: 0 <= i < |r| ==> ls[i].bound <= r[i] <= ls[i].cur)
    && (forall k, i :: 0 <= k < i < |r| && r[i] < ls[i].cur ==> r[k] == ls[k].bound)
  }

  ghost predicate Recovers(ls: seq<Level>, r: seq<int>) {
    && |r| == |ls|
    && (forall i :: 0 <= i < |r| ==> ls[i].cur <= r[i] <= ls[i].bound)
    && (forall k, i :: 0 <= k < i < |r| && r[i] > ls[i].cur ==> r[k] == ls[k].bound)
  }

  lemma {:induction false} DrainZero(ls: seq<Level>)
    requires AllAbove(ls)
    ensures Drain(ls, 0) == Currents(ls)
  {
    if ls != [] { DrainZero(ls[1..]); }
  }

  lemma {:induction false} CurrentsAt(ls: seq<Level>, i: nat)
    requires i < |ls|
    ensures Currents(ls)[i] == ls[i].cur
  {
    if i > 0 { CurrentsAt(ls[1..], i - 1); }
  }

  lemma {:induction false} DrainSuppresses(ls: seq<Level>, amount: nat)
    requires AllAbove(ls)
    ensures Suppresses(ls, Drain(ls, amount))
    ensures Total(Currents(ls)) - Total(Drain(ls, amount)) == Min(amount, TotalAbove(ls))
    decreases ls
  {
    if ls != [] {
      var rest, left := ls[1..], Max(0, amount - Above(ls[0]));
      DrainSuppresses(rest, left);
      if left == 0 { DrainZero(rest); }
      SuppressesCons(ls, Drain(ls, amount)[0], Drain(rest, left));
    }
  }

  /** A suppression extends to one more level in front if that level is on its floor, or the rest
      has not moved. */
  lemma SuppressesCons(ls: seq<Level>, head: int, tail: seq<int>)
    requires ls != [] && Suppresses(ls[1..], tail)
    requires ls[0].bound <= head <= ls[0].cur
    requires head == ls[0].bound || tail == Currents(ls[1..])
    ensures Suppresses(ls, [head] + tail)
  {
    var r := [head] + tail;
    forall i | 0 < i < |r|
      ensures r[i] == tail[i - 1] && ls[i] == ls[1..][i - 1]
      ensures head == ls[0].bound || r[i] == ls[i].cur
    {
      CurrentsAt(ls[1..], i - 1);
    }
  }

  lemma {:induction false} SuppressionRoom(ls: seq<Level>, r: seq<int>)
    requires Suppresses(ls, r)
    ensures 0 <= Total(Currents(ls)) - Total(r) <= TotalAbove(ls)
    decreases ls
  {
    if ls != [] {
      SuppressesTail(ls, r);
      SuppressionRoom(ls[1..], r[1..]);
    }
  }

  lemma SuppressesTail(ls: seq<Level>, r: seq<int>)
    requires Suppresses(ls, r) && ls != []
    ensures Suppresses(ls[1..], r[1..])
  {
    assert forall i :: 0 <= i < |r| - 1 ==> r[1..][i] == r[i + 1] && ls[1..][i] == ls[i + 1];
  }

  lemma {:induction false} UnmovedTotal(ls: seq<Level>, r: seq<int>)
    requires |r| == |ls| && forall i :: 0 <= i < |r| ==> r[i] == ls[i].cur
    ensures Total(r) == Total(Currents(ls))
    decreases ls
  {
    if ls != [] { UnmovedTotal(ls[1..], r[1..]); }
  }

  /** The strict order and the amount leave one allocation only, and it is the greedy one. */
  lemma {:induction false} SuppressionIsDrain(ls: seq<Level>, amount: nat, r: seq<int>)
    requires AllAbove(ls)
    ensures r == Drain(ls, amount) <==>
            Suppresses(ls, r) && Total(Currents(ls)) - Total(r) == Min(amount, TotalAbove(ls))
    decreases ls
  {
    DrainSuppresses(ls, amount);
    if Suppresses(ls, r) && Total(Currents(ls)) - Total(r) == Min(amount, TotalAbove(ls)) {
      SuppressionUnique(ls, amount, r);
    }
  }

  lemma {:induction false} SuppressionUnique(ls: seq<Level>, amount: nat, r: seq<int>)
    requires Suppresses(ls, r) && Total(Currents(ls)) - Total(r) == Min(amount, TotalAbove(ls))
    ensures r == Drain(ls, amount)
    decreases ls
  {
    if ls != [] {
      SuppressesTail(ls, r);
      SuppressionRoom(ls[1..], r[1..]);
      if r[0] != ls[0].bound { TailUnmoved(ls, r); }
      SuppressionUnique(ls[1..], Max(0, amount - Above(ls[0])), r[1..]);
      assert r == [r[0]] + r[1..];
    }
  }

  lemma TailUnmoved(ls: seq<Level>, r: seq<int>)
    requires Suppresses(ls, r) && ls != [] && r[0] != ls[0].bound
    ensures Total(r[1..]) == Total(Currents(ls[1..]))
  {
    forall i | 0 <= i < |r| - 1 ensures r[1..][i] == ls[1..][i].cur {
      assert r[i + 1] == r[1..][i] && ls[i + 1] == ls[1..][i];
    }
    UnmovedTotal(ls[1..], r[1..]);
  }

  // ---- recovery is suppression in a mirror ----

  function Mirror(ls: seq<Level>): (r: seq<Level>)
    ensures |r| == |ls| && forall i :: 0 <= i < |r| ==> r[i] == Level(-ls[i].cur, -ls[i].bound)
  {
    if ls == [] then [] else [Level(-ls[0].cur, -ls[0].bound)] + Mirror(ls[1..])
  }

  function Negated(xs: seq<int>): (r: seq<int>)
    ensures |r| == |xs| && forall i :: 0 <= i < |r| ==> r[i] == -xs[i]
  {
    if xs == [] then [] else [-xs[0]] + Negated(xs[1..])
  }

  lemma {:induction false} FillMirrorsDrain(ls: seq<Level>, amount: nat)
    ensures Drain(Mirror(ls), amount) == Negated(Fill(ls, amount))
    ensures TotalAbove(Mirror(ls)) == TotalBelow(ls)
    decreases ls
  {
    if ls != [] { FillMirrorsDrain(ls[1..], Max(0, amount - Below(ls[0]))); }
  }

  lemma {:induction false} NegatedTotal(xs: seq<int>)
    ensures Total(Negated(xs)) == -Total(xs)
  {
    if xs != [] { NegatedTotal(xs[1..]); }
  }

  lemma {:induction false} MirrorCurrents(ls: seq<Level>)
    ensures Currents(Mirror(ls)) == Negated(Currents(ls))
  {
    if ls != [] { MirrorCurrents(ls[1..]); }
  }

  /** The mirror image of SuppressionIsDrain. */
  lemma RecoveryIsFill(ls: seq<Level>, amount: nat, r: seq<int>)
    requires AllBelow(ls)
    ensures r == Fill(ls, amount) <==>
            Recovers(ls, r) && Total(r) - Total(Currents(ls)) == Min(amount, TotalBelow(ls))
  {
    var m, n := Mirror(ls), Negated(r);
    FillMirrorsDrain(ls, amount);
    SuppressionIsDrain(m, amount, n);
    MirrorCurrents(ls);
    NegatedTotal(r);
    NegatedTotal(Currents(ls));
    NegationIsInjective(r, Fill(ls, amount));
    if |r| == |ls| { MirroredOrder(ls, r); }
  }

  lemma NegationIsInjective(xs: seq<int>, ys: seq<int>)
    ensures xs == ys <==> Negated(xs) == Negated(ys)
  {
    if Negated(xs) == Negated(ys) {
      forall i | 0 <= i < |xs| ensures xs[i] == ys[i] {
        assert Negated(xs)[i] == Negated(ys)[i];
      }
    }
  }

  lemma MirroredOrder(ls: seq<Level>, r: seq<int>)
    requires |r| == |ls|
    ensures Suppresses(Mirror(ls), Negated(r)) <==> Recovers(ls, r)
  {
    var m, n := Mirror(ls), Negated(r);
    assert forall i :: 0 <= i < |r| ==> m[i].cur == -ls[i].cur && m[i].bound == -ls[i].bound && n[i] == -r[i];
  }
}
