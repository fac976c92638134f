/** The list operations that the wallets take from their libraries: stable sorting, as the array
    `sort`, `_.sortBy` and `_.orderBy` perform it, and removal of repeated elements. */
module Lists {

  /** The elements of xs, last one first. */
  function Reverse<T>(xs: seq<T>): (r: seq<T>)
    ensures |r| == |xs|
    ensures forall i :: 0 <= i < |xs| ==> r[i] == xs[|xs| - 1 - i]
  {
    if xs == [] then [] else [xs[|xs| - 1]] + Reverse(xs[..|xs| - 1])
  }

  /** Places x behind every element of the sorted list xs that may precede it. */
  function Insert<T>(x: T, xs: seq<T>, leq: (T, T) -> bool): seq<T> {
    if xs == [] || leq(xs[|xs| - 1], x) then xs + [x]
    else Insert(x, xs[..|xs| - 1], leq) + [xs[|xs| - 1]]
  }

  /** Sorts xs by leq; elements that leq does not tell apart keep their order. */
  function StableSort<T>(xs: seq<T>, leq: (T, T) -> bool): seq<T> {
    if xs == [] then [] else Insert(xs[|xs| - 1], StableSort(xs[..|xs| - 1], leq), leq)
  }

  ghost predicate TotalPreorder<T(!new)>(leq: (T, T) -> bool) {
    && (forall x, y :: leq(x, y) || leq(y, x))
    && (forall x, y, z :: leq(x, y) && leq(y, z) ==> leq(x, z))
  }

  ghost predicate SortedBy<T>(xs: seq<T>, leq: (T, T) -> bool) {
    forall i, j :: 0 <= i < j < |xs| ==> leq(xs[i], xs[j])
  }

  ghost predicate NoDuplicates<T>(xs: seq<T>) {
    forall i, j :: 0 <= i < j < |xs| ==> xs[i] != xs[j]
  }

  lemma {:induction false} InsertMultiset<T>(x: T, xs: seq<T>, leq: (T, T) -> bool)
    ensures multiset(Insert(x, xs, leq)) == multiset(xs) + multiset{x}
  {
    if xs == [] || leq(xs[|xs| - 1], x) {
      assert Insert(x, xs, leq) == xs + [x];
    } else {
      var init, last := xs[..|xs| - 1], xs[|xs| - 1];
      InsertMultiset(x, init, leq);
      assert Insert(x, xs, leq) == Insert(x, init, leq) + [last];
      hide Insert;
      assert xs == init + [last];
    }
  }

  lemma {:induction false} SortMultiset<T>(xs: seq<T>, leq: (T, T) -> bool)
    ensures multiset(StableSort(xs, leq)) == multiset(xs)
    ensures |StableSort(xs, leq)| == |xs|
  {
    if xs != [] {
      SortMultiset(xs[..|xs| - 1], leq);
      InsertMultiset(xs[|xs| - 1], StableSort(xs[..|xs| - 1], leq), leq);
      assert xs == xs[..|xs| - 1] + [xs[|xs| - 1]];
    }
    assert |StableSort(xs, leq)| == |multiset(StableSort(xs, leq))| == |multiset(xs)|;
  }

  /** Sorting neither loses nor invents an element. */
  lemma SortElements<T>(xs: seq<T>, leq: (T, T) -> bool)
    ensures forall x :: x in StableSort(xs, leq) <==> x in xs
  {
    SortMultiset(xs, leq);
    forall x ensures x in StableSort(xs, leq) <==> x in xs {
      assert x in multiset(StableSort(xs, leq)) <==> x in multiset(xs);
    }
  }

  lemma {:induction false} InsertSorted<T(!new)>(x: T, xs: seq<T>, leq: (T, T) -> bool)
    requires TotalPreorder(leq) && SortedBy(xs, leq)
    ensures SortedBy(Insert(x, xs, leq), leq)
  {
    if xs == [] {
    } else if leq(xs[|xs| - 1], x) {
      forall i | 0 <= i < |xs| ensures leq(xs[i], x) {
        assert i == |xs| - 1 || leq(xs[i], xs[|xs| - 1]);
      }
    } else {
      var init, last := xs[..|xs| - 1], xs[|xs| - 1];
      InsertSorted(x, init, leq);
      InsertMultiset(x, init, leq);
      var r := Insert(x, init, leq);
      forall i | 0 <= i < |r| ensures leq(r[i], last) {
        assert r[i] in multiset(r);
        assert r[i] == x || r[i] in init;
      }
    }
  }

  lemma {:induction false} SortIsSorted<T(!new)>(xs: seq<T>, leq: (T, T) -> bool)
    requires TotalPreorder(leq)
    ensures SortedBy(StableSort(xs, leq), leq)
  {
    if xs != [] {
      SortIsSorted(xs[..|xs| - 1], leq);
      InsertSorted(xs[|xs| - 1], StableSort(xs[..|xs| - 1], leq), leq);
    }
  }

  /** A list already in order is left as it is, ties included. */
  lemma {:induction false} SortOfSorted<T>(xs: seq<T>, leq: (T, T) -> bool)
    requires SortedBy(xs, leq)
    ensures StableSort(xs, leq) == xs
  {
    if xs != [] {
      var init, last := xs[..|xs| - 1], xs[|xs| - 1];
      SortOfSorted(init, leq);
      assert init == [] || leq(init[|init| - 1], last);
      assert xs == init + [last];
    }
  }

  /** An element below every other one goes to the front. */
  lemma {:induction false} InsertAtFront<T>(x: T, xs: seq<T>, leq: (T, T) -> bool)
    requires forall i :: 0 <= i < |xs| ==> !leq(xs[i], x)
    ensures Insert(x, xs, leq) == [x] + xs
  {
    if xs != [] {
      InsertAtFront(x, xs[..|xs| - 1], leq);
      assert xs == xs[..|xs| - 1] + [xs[|xs| - 1]];
    }
  }

  ghost predicate Before<T>(xs: seq<T>, x: T, y: T) {
    exists i, j :: 0 <= i < j < |xs| && xs[i] == x && xs[j] == y
  }

  lemma {:induction false} InsertKeepsBefore<T>(z: T, xs: seq<T>, leq: (T, T) -> bool, i: nat, j: nat)
    requires i < j < |xs|
    ensures Before(Insert(z, xs, leq), xs[i], xs[j])
  {
    var init, last := xs[..|xs| - 1], xs[|xs| - 1];
    if leq(last, z) {
      assert (xs + [z])[i] == xs[i] && (xs + [z])[j] == xs[j];
    } else if j < |init| {
      InsertKeepsBefore(z, init, leq, i, j);
      var r := Insert(z, init, leq);
      var i', j' :| 0 <= i' < j' < |r| && r[i'] == xs[i] && r[j'] == xs[j];
      assert (r + [last])[i'] == xs[i] && (r + [last])[j'] == xs[j];
    } else {
      var r := Insert(z, init, leq);
      InsertMultiset(z, init, leq);
      assert init[i] in multiset(r);
      var i' :| 0 <= i' < |r| && r[i'] == xs[i];
      assert (r + [last])[i'] == xs[i] && (r + [last])[|r|] == xs[j];
    }
  }

  lemma {:induction false} InsertBehind<T>(y: T, xs: seq<T>, leq: (T, T) -> bool, i: nat)
    requires i < |xs| && leq(xs[i], y)
    ensures Before(Insert(y, xs, leq), xs[i], y)
  {
    var init, last := xs[..|xs| - 1], xs[|xs| - 1];
    if leq(last, y) {
      assert (xs + [y])[i] == xs[i] && (xs + [y])[|xs|] == y;
    } else {
      InsertBehind(y, init, leq, i);
      var r := Insert(y, init, leq);
      var i', j' :| 0 <= i' < j' < |r| && r[i'] == xs[i] && r[j'] == y;
      assert (r + [last])[i'] == xs[i] && (r + [last])[j'] == y;
    }
  }

  /** Sorting is stable: elements that may stay in order do. */
  lemma {:induction false} SortKeepsOrder<T(!new)>(xs: seq<T>, leq: (T, T) -> bool, i: nat, j: nat)
    requires i < j < |xs| && leq(xs[i], xs[j])
    ensures Before(StableSort(xs, leq), xs[i], xs[j])
  {
    var init, last := xs[..|xs| - 1], xs[|xs| - 1];
    var sorted := StableSort(init, leq);
    if j < |init| {
      SortKeepsOrder(init, leq, i, j);
      var i', j' :| 0 <= i' < j' < |sorted| && sorted[i'] == xs[i] && sorted[j'] == xs[j];
      InsertKeepsBefore(last, sorted, leq, i', j');
    } else {
      SortElements(init, leq);
      assert init[i] in sorted;
      var i' :| 0 <= i' < |sorted| && sorted[i'] == xs[i];
      InsertBehind(last, sorted, leq, i');
    }
  }

  lemma ReverseTurnsBefore<T>(xs: seq<T>, x: T, y: T)
    requires Before(xs, x, y)
    ensures Before(Reverse(xs), y, x)
  {
    var i, j :| 0 <= i < j < |xs| && xs[i] == x && xs[j] == y;
    var r := Reverse(xs);
    assert r[|xs| - 1 - j] == y && r[|xs| - 1 - i] == x;
  }

  /** Sorting keeps a list free of duplicates. */
  lemma SortNoDuplicates<T>(xs: seq<T>, leq: (T, T) -> bool)
    requires NoDuplicates(xs)
    ensures NoDuplicates(StableSort(xs, leq))
  {
    var ys := StableSort(xs, leq);
    SortMultiset(xs, leq);
    forall i, j | 0 <= i < j < |ys| ensures ys[i] != ys[j] {
      if ys[i] == ys[j] {
        CountTwice(ys, i, j);
        assert multiset(xs)[ys[i]] >= 2;
        CountOnce(xs, ys[i]);
      }
    }
  }

  lemma CountTwice<T>(xs: seq<T>, i: nat, j: nat)
    requires i < j < |xs| && xs[i] == xs[j]
    ensures multiset(xs)[xs[i]] >= 2
  {
    assert xs == xs[..j] + xs[j..];
    assert xs[..j][i] == xs[i];
    assert xs[j..][0] == xs[i];
    assert xs[i] in multiset(xs[..j]) && xs[i] in multiset(xs[j..]);
  }

  lemma {:induction false} CountOnce<T>(xs: seq<T>, x: T)
    requires NoDuplicates(xs)
    ensures multiset(xs)[x] <= 1
  {
    if xs != [] {
      CountOnce(xs[1..], x);
      assert xs == [xs[0]] + xs[1..];
      if xs[0] == x {
        assert x !in xs[1..];
      }
    }
  }

  /** The distinct elements of xs in the order of their first occurrence. */
  function Unique<T(==,!new)>(xs: seq<T>): (r: seq<T>)
    ensures forall x :: x in r <==> x in xs
    ensures NoDuplicates(r)
  {
    if xs == [] then []
    else
      var init := Unique(xs[..|xs| - 1]);
      assert xs == xs[..|xs| - 1] + [xs[|xs| - 1]];
      if xs[|xs| - 1] in init then init else init + [xs[|xs| - 1]]
  }

  lemma {:induction false} UniqueOfDistinct<T(!new)>(xs: seq<T>)
    requires NoDuplicates(xs)
    ensures Unique(xs) == xs
  {
    if xs != [] {
      UniqueOfDistinct(xs[..|xs| - 1]);
      assert xs == xs[..|xs| - 1] + [xs[|xs| - 1]];
    }
  }

  /** x occurs before y does. */
  ghost predicate Earlier<T>(xs: seq<T>, x: T, y: T) {
    exists i :: 0 <= i < |xs| && xs[i] == x && y !in xs[..i + 1]
  }

  lemma {:induction false} UniqueEarlier<T(!new)>(xs: seq<T>, i: nat, j: nat)
    requires i < j < |Unique(xs)|
    ensures Earlier(xs, Unique(xs)[i], Unique(xs)[j])
  {
    var init, last := xs[..|xs| - 1], xs[|xs| - 1];
    var u, x, y := Unique(init), Unique(xs)[i], Unique(xs)[j];
    assert xs == init + [last];
    if j < |u| {
      UniqueEarlier(init, i, j);
      var k :| 0 <= k < |init| && init[k] == x && y !in init[..k + 1];
      assert xs[..k + 1] == init[..k + 1];
    } else {
      assert x in init && y == last && y !in init;
      var k :| 0 <= k < |init| && init[k] == x;
      assert xs[..k + 1] == init[..k + 1];
    }
  }

  /** Elements that sorting does not tell apart stay in the order in which they first occur. */
  lemma TiesKeepOrder<T(!new)>(xs: seq<T>, leq: (T, T) -> bool, i: nat, j: nat)
    requires i < j < |StableSort(Unique(xs), leq)|
    requires leq(StableSort(Unique(xs), leq)[j], StableSort(Unique(xs), leq)[i])
    ensures Earlier(xs, StableSort(Unique(xs), leq)[i], StableSort(Unique(xs), leq)[j])
  {
    hide StableSort, Earlier;
    var u := Unique(xs);
    var s := StableSort(u, leq);
    SortElements(u, leq);
    SortNoDuplicates(u, leq);
    assert s[i] in s && s[j] in s;
    var a :| 0 <= a < |u| && u[a] == s[i];
    var b :| 0 <= b < |u| && u[b] == s[j];
    if b < a {
      SortKeepsOrder(u, leq, b, a);
      assert false;
    }
    UniqueEarlier(xs, a, b);
  }

  /** What holds first, and is kept by every step, holds all along. */
  lemma {:induction false} HoldsAllAlong<S>(history: seq<S>, inv: S -> bool, i: nat)
    requires i < |history| && inv(history[0])
    requires forall k :: 0 < k < |history| && inv(history[k - 1]) ==> inv(history[k])
    ensures inv(history[i])
  {
    if i > 0 {
      HoldsAllAlong(history, inv, i - 1);
    }
  }

  /** A reflexive and transitive relation that every step respects holds between any two moments. */
  lemma {:induction false} HoldsAcross<S(!new)>(history: seq<S>, rel: (S, S) -> bool, i: nat, j: nat)
    requires i <= j < |history|
    requires forall x :: rel(x, x)
    requires forall x, y, z :: rel(x, y) && rel(y, z) ==> rel(x, z)
    requires forall k :: 0 < k < |history| ==> rel(history[k - 1], history[k])
    ensures rel(history[i], history[j])
    decreases j - i
  {
    if i < j {
      HoldsAcross(history, rel, i, j - 1);
    }
  }
}
