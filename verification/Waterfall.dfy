/** Paying a list of amounts from limited funds, in the order of the list. */
module Waterfall {

  function Min(a: nat, b: nat): (r: nat)
    ensures r <= a && r <= b && (r == a || r == b)
  {
    if a > b then b else a
  }

  function Sum(xs: seq<nat>): nat {
    if xs == [] then 0 else xs[0] + Sum(xs[1..])
  }

  /** What each amount gets from the funds that the earlier ones leave. */
  function Affords(surplus: nat, amounts: seq<nat>): (w: seq<nat>)
    ensures |w| == |amounts|
  {
    if amounts == [] then []
    else [Min(amounts[0], surplus)] + Affords(surplus - Min(amounts[0], surplus), amounts[1..])
  }

  predicate Within(paid: seq<nat>, amounts: seq<nat>) {
    |paid| == |amounts| && forall i :: 0 <= i < |paid| ==> paid[i] <= amounts[i]
  }

  function Minus(amounts: seq<nat>, paid: seq<nat>): (r: seq<nat>)
    requires Within(paid, amounts)
    ensures |r| == |amounts| && forall i :: 0 <= i < |r| ==> r[i] == amounts[i] - paid[i]
  {
    seq(|amounts|, i requires 0 <= i < |amounts| => amounts[i] - paid[i])
  }

  /** The amounts at the positions in S, and zero elsewhere. */
  function Restrict(w: seq<nat>, S: set<nat>): (r: seq<nat>)
    ensures |r| == |w| && forall i :: 0 <= i < |r| ==> r[i] == if i in S then w[i] else 0
  {
    seq(|w|, i requires 0 <= i < |w| => if i in S then w[i] else 0)
  }

  // ----- sums -----

  lemma {:induction false} SumConcat(xs: seq<nat>, ys: seq<nat>)
    ensures Sum(xs + ys) == Sum(xs) + Sum(ys)
  {
    if xs == [] {
      assert xs + ys == ys;
    } else {
      assert (xs + ys)[1..] == xs[1..] + ys;
      SumConcat(xs[1..], ys);
    }
  }

  lemma SumNext(xs: seq<nat>, i: nat)
    requires i < |xs|
    ensures Sum(xs[..i + 1]) == Sum(xs[..i]) + xs[i]
  {
    assert xs[..i + 1] == xs[..i] + [xs[i]];
    SumConcat(xs[..i], [xs[i]]);
  }

  lemma {:induction false} SumWithin(xs: seq<nat>, ys: seq<nat>)
    requires Within(xs, ys)
    ensures Sum(xs) <= Sum(ys) && Sum(Minus(ys, xs)) == Sum(ys) - Sum(xs)
  {
    if xs != [] {
      SumWithin(xs[1..], ys[1..]);
      assert Minus(ys, xs)[1..] == Minus(ys[1..], xs[1..]);
    }
  }

  lemma SumUpdate(xs: seq<nat>, i: nat, x: nat)
    requires i < |xs|
    ensures Sum(xs[i := x]) == Sum(xs) - xs[i] + x
  {
    var ys := xs[i := x];
    assert xs == xs[..i] + ([xs[i]] + xs[i + 1..]);
    assert ys == xs[..i] + ([x] + xs[i + 1..]);
    SumConcat(xs[..i], [xs[i]] + xs[i + 1..]);
    SumConcat(xs[..i], [x] + xs[i + 1..]);
    assert ([x] + xs[i + 1..])[1..] == ([xs[i]] + xs[i + 1..])[1..];
  }

  lemma {:induction false} SumOfZeros(xs: seq<nat>)
    ensures Sum(xs) == 0 <==> forall i :: 0 <= i < |xs| ==> xs[i] == 0
  {
    if xs != [] {
      SumOfZeros(xs[1..]);
      assert forall i :: 0 < i < |xs| ==> xs[i] == xs[1..][i - 1];
    }
  }

  // ----- what the funds afford -----

  /** Nobody gets more than the own amount, and the funds are spent as far as they reach. */
  lemma {:induction false} AffordsSpends(surplus: nat, amounts: seq<nat>)
    ensures Within(Affords(surplus, amounts), amounts)
    ensures Sum(Affords(surplus, amounts)) == Min(surplus, Sum(amounts))
  {
    if amounts != [] {
      AffordsSpends(surplus - Min(amounts[0], surplus), amounts[1..]);
    }
  }

  /** w pays in order: nobody gets anything before all earlier amounts are paid in full. */
  ghost predicate PaysInOrder(w: seq<nat>, amounts: seq<nat>) {
    Within(w, amounts) && forall i, j :: 0 <= i < j < |w| && w[j] > 0 ==> w[i] == amounts[i]
  }

  /** What is left for the amount at position i once all earlier ones have been met. */
  function ShareAt(holdings: nat, amounts: seq<nat>, i: nat): (share: nat)
    requires i < |amounts|
    ensures share <= amounts[i]
  {
    var earlier := Sum(amounts[..i]);
    if holdings <= earlier then 0 else Min(amounts[i], holdings - earlier)
  }

  lemma {:induction false} AffordsAt(surplus: nat, amounts: seq<nat>, i: nat)
    requires i < |amounts|
    ensures Affords(surplus, amounts)[i] == ShareAt(surplus, amounts, i)
  {
    if i > 0 {
      AffordsAt(surplus - Min(amounts[0], surplus), amounts[1..], i - 1);
      assert amounts[..i] == [amounts[0]] + amounts[1..][..i - 1];
    }
  }

  lemma {:induction false} NothingLeft(amounts: seq<nat>)
    ensures forall i :: 0 <= i < |amounts| ==> Affords(0, amounts)[i] == 0
  {
    if amounts != [] {
      NothingLeft(amounts[1..]);
    }
  }

  lemma {:induction false} AffordsPaysInOrder(surplus: nat, amounts: seq<nat>)
    ensures PaysInOrder(Affords(surplus, amounts), amounts)
  {
    AffordsSpends(surplus, amounts);
    if amounts != [] {
      var first, w := Min(amounts[0], surplus), Affords(surplus, amounts);
      AffordsPaysInOrder(surplus - first, amounts[1..]);
      NothingLeft(amounts[1..]);
      forall i, j | 0 <= i < j < |w| && w[j] > 0 ensures w[i] == amounts[i] {
        assert w[j] == w[1..][j - 1] && (i > 0 ==> w[i] == w[1..][i - 1]);
      }
    }
  }

  lemma OrderedRest(surplus: nat, amounts: seq<nat>, w: seq<nat>)
    requires amounts != [] && PaysInOrder(w, amounts) && Sum(w) == Min(surplus, Sum(amounts))
    ensures w != [] && w[0] == Min(amounts[0], surplus)
    ensures PaysInOrder(w[1..], amounts[1..]) && Sum(w[1..]) == Min(surplus - w[0], Sum(amounts[1..]))
  {
    OrderedFirst(surplus, amounts, w);
    assert Sum(w) == w[0] + Sum(w[1..]) && Sum(amounts) == amounts[0] + Sum(amounts[1..]);
    hide Sum;
    RestInOrder(w, amounts);
  }

  lemma RestInOrder(w: seq<nat>, amounts: seq<nat>)
    requires PaysInOrder(w, amounts) && w != []
    ensures PaysInOrder(w[1..], amounts[1..])
  {
  }

  lemma NothingInOrder(w: seq<nat>)
    requires PaysInOrder(w, [])
    ensures w == []
  {
  }

  lemma {:induction false} OrderedIsAffords(surplus: nat, amounts: seq<nat>, w: seq<nat>)
    requires PaysInOrder(w, amounts) && Sum(w) == Min(surplus, Sum(amounts))
    ensures w == Affords(surplus, amounts)
    decreases |amounts|
  {
    hide PaysInOrder, Sum, Min;
    if amounts == [] {
      NothingInOrder(w);
    } else {
      OrderedRest(surplus, amounts, w);
      OrderedIsAffords(surplus - w[0], amounts[1..], w[1..]);
      assert w == [w[0]] + w[1..];
    }
  }

  /** Affords is the one way to spend the funds in order as far as they reach. */
  lemma AffordsIsTheOrderedPayment(surplus: nat, amounts: seq<nat>, w: seq<nat>)
    ensures w == Affords(surplus, amounts) <==> PaysInOrder(w, amounts) && Sum(w) == Min(surplus, Sum(amounts))
  {
    AffordsSpends(surplus, amounts);
    AffordsPaysInOrder(surplus, amounts);
    if PaysInOrder(w, amounts) && Sum(w) == Min(surplus, Sum(amounts)) {
      OrderedIsAffords(surplus, amounts, w);
    }
  }

  lemma OrderedFirst(surplus: nat, amounts: seq<nat>, w: seq<nat>)
    requires amounts != [] && PaysInOrder(w, amounts) && Sum(w) == Min(surplus, Sum(amounts))
    ensures w[0] == Min(amounts[0], surplus)
  {
    SumOfZeros(w[1..]);
    if Sum(w[1..]) != 0 {
      var j :| 0 <= j < |w[1..]| && w[1..][j] != 0;
      assert w[j + 1] > 0;
    }
  }

  lemma MinusFirst(amounts: seq<nat>, paid: seq<nat>)
    requires Within(paid, amounts) && amounts != []
    ensures Within(paid[1..], amounts[1..])
    ensures Minus(amounts, paid) == [amounts[0] - paid[0]] + Minus(amounts[1..], paid[1..])
  {
  }

  lemma AffordsFirst(surplus: nat, x: nat, rest: seq<nat>)
    ensures Affords(surplus, [x] + rest) == [Min(x, surplus)] + Affords(surplus - Min(x, surplus), rest)
  {
    assert ([x] + rest)[1..] == rest;
  }

  lemma ResidualOfFirst(surplus: nat, x: nat, p: nat, rest: nat)
    requires p <= Min(x, surplus) && rest <= surplus - Min(x, surplus)
    ensures Min(x - p, surplus - p - rest) == Min(x, surplus) - p
  {
  }

  /** After any part of what is afforded has been paid, the remaining funds afford exactly the rest. */
  lemma {:induction false} AffordsResidual(surplus: nat, amounts: seq<nat>, paid: seq<nat>)
    requires Within(paid, Affords(surplus, amounts))
    ensures Within(paid, amounts) && Sum(paid) <= surplus
    ensures Affords(surplus - Sum(paid), Minus(amounts, paid)) == Minus(Affords(surplus, amounts), paid)
  {
    hide Within, Minus, Sum;
    var w := Affords(surplus, amounts);
    AffordsSpends(surplus, amounts);
    SumWithin(paid, w);
    WithinParts(paid, w, amounts);
    if amounts != [] {
      var first := Min(amounts[0], surplus);
      var rest := Affords(surplus - first, amounts[1..]);
      assert w == [first] + rest && w[1..] == rest;
      AffordsSpends(surplus - first, amounts[1..]);
      SumWithin(paid[1..], rest);
      AffordsResidual(surplus - first, amounts[1..], paid[1..]);
      ResidualStep(surplus, amounts, paid, first, rest);
    } else {
      assert Minus(amounts, paid) == Minus(w, paid) == [];
    }
  }

  lemma WithinParts(paid: seq<nat>, w: seq<nat>, amounts: seq<nat>)
    requires Within(paid, w) && Within(w, amounts)
    ensures Within(paid, amounts) && |paid| == |w| == |amounts|
    ensures paid != [] ==> Within(paid[1..], w[1..]) && Within(paid[1..], amounts[1..])
  {
  }

  lemma PaidFirst(paid: seq<nat>, first: nat, rest: seq<nat>)
    requires Within(paid, [first] + rest)
    ensures paid != [] && paid[0] <= first && Sum(paid) == paid[0] + Sum(paid[1..])
    ensures ([first] + rest)[0] == first && ([first] + rest)[1..] == rest
  {
  }

  lemma ResidualStep(surplus: nat, amounts: seq<nat>, paid: seq<nat>, first: nat, rest: seq<nat>)
    requires amounts != [] && first == Min(amounts[0], surplus) && Affords(surplus, amounts) == [first] + rest
    requires Within(paid, [first] + rest) && Within(paid, amounts) && Sum(paid) <= surplus
    requires Sum(rest) <= surplus - first && Within(paid[1..], amounts[1..]) && Within(paid[1..], rest)
    requires Sum(paid[1..]) <= surplus - first
    requires Affords(surplus - first - Sum(paid[1..]), Minus(amounts[1..], paid[1..])) == Minus(rest, paid[1..])
    ensures Affords(surplus - Sum(paid), Minus(amounts, paid)) == Minus([first] + rest, paid)
  {
    hide Affords, Within, Minus, Sum, Min;
    PaidFirst(paid, first, rest);
    MinusFirst([first] + rest, paid);
    MinusFirst(amounts, paid);
    AffordsFirst(surplus - Sum(paid), amounts[0] - paid[0], Minus(amounts[1..], paid[1..]));
    ResidualOfFirst(surplus, amounts[0], paid[0], Sum(paid[1..]));
  }
}
