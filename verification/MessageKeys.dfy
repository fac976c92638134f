/** The keys that messages are sorted by: of the items in a message, and of the groups of messages. */
module MessageKeys {
  import opened Lists
  import opened Options

  /** A signed state, a request or an objective; only the properties that messages are sorted by are told apart. */
  datatype Item = Item(channelId: Option<string>, turnNum: Option<nat>, body: string)

  // ----- sorting keys -----

  predicate StringAtMost(a: string, b: string) {
    a == [] || (b != [] && (a[0] < b[0] || (a[0] == b[0] && StringAtMost(a[1..], b[1..]))))
  }

  /** A missing key comes after all others. */
  predicate ChannelAtMost(a: Option<string>, b: Option<string>) {
    b.None? || (a.Some? && StringAtMost(a.value, b.value))
  }

  predicate TurnAtMost(a: Option<nat>, b: Option<nat>) {
    b.None? || (a.Some? && a.value <= b.value)
  }

  /** Channels in descending order, turns of one channel in ascending order. */
  predicate SortsBefore(a: Item, b: Item) {
    ChannelAtMost(b.channelId, a.channelId) && (a.channelId == b.channelId ==> TurnAtMost(a.turnNum, b.turnNum))
  }

  lemma {:induction false} StringTotal(a: string, b: string)
    ensures StringAtMost(a, b) || StringAtMost(b, a)
    ensures StringAtMost(a, b) && StringAtMost(b, a) ==> a == b
    decreases |a|
  {
    if a != [] && b != [] && a[0] == b[0] {
      StringTotal(a[1..], b[1..]);
      assert a == [a[0]] + a[1..] && b == [b[0]] + b[1..];
    }
  }

  lemma {:induction false} StringTransitive(a: string, b: string, c: string)
    requires StringAtMost(a, b) && StringAtMost(b, c)
    ensures StringAtMost(a, c)
    decreases |a|
  {
    if a != [] && a[0] == b[0] == c[0] {
      StringTransitive(a[1..], b[1..], c[1..]);
    }
  }

  lemma SortingIsTotal()
    ensures TotalPreorder(SortsBefore)
  {
    forall a: Item, b: Item ensures SortsBefore(a, b) || SortsBefore(b, a) {
      if a.channelId.Some? && b.channelId.Some? {
        StringTotal(a.channelId.value, b.channelId.value);
      }
    }
    forall a: Item, b: Item, c: Item | SortsBefore(a, b) && SortsBefore(b, c) ensures SortsBefore(a, c) {
      SortingIsTransitive(a, b, c);
    }
  }

  lemma SortingIsTransitive(a: Item, b: Item, c: Item)
    requires SortsBefore(a, b) && SortsBefore(b, c)
    ensures SortsBefore(a, c)
  {
    if a.channelId.Some? && b.channelId.Some? && c.channelId.Some? {
      StringTransitive(c.channelId.value, b.channelId.value, a.channelId.value);
      if a.channelId == c.channelId {
        StringTotal(a.channelId.value, b.channelId.value);
      }
    }
  }

  // ----- what the order means -----

  /** a comes later in the dictionary. */
  ghost predicate Greater(a: string, b: string) {
    exists p: nat :: GreaterAt(a, b, p)
  }

  ghost predicate GreaterAt(a: string, b: string, p: nat) {
    p < |a| && p <= |b| && a[..p] == b[..p] && (p == |b| || a[p] > b[p])
  }

  lemma {:induction false} AtMostMeans(a: string, b: string)
    ensures StringAtMost(a, b) <==> !Greater(a, b)
    decreases |a|
  {
    if a == [] {
    } else if b == [] || a[0] != b[0] {
      if b == [] || a[0] > b[0] {
        assert GreaterAt(a, b, 0);
      }
    } else {
      AtMostMeans(a[1..], b[1..]);
      hide GreaterAt;
      if p: nat :| GreaterAt(a, b, p) {
        GreaterTails(a, b, p);
      }
      if p: nat :| GreaterAt(a[1..], b[1..], p) {
        GreaterTails(a, b, p + 1);
      }
    }
  }

  lemma GreaterTails(a: string, b: string, p: nat)
    requires a != [] && b != [] && a[0] == b[0]
    ensures GreaterAt(a, b, p) <==> p > 0 && GreaterAt(a[1..], b[1..], p - 1)
  {
    if 0 < p <= |a| && p <= |b| {
      assert a[..p] == [a[0]] + a[1..][..p - 1] && b[..p] == [b[0]] + b[1..][..p - 1];
      if a[..p] == b[..p] {
        assert a[1..][..p - 1] == a[..p][1..] == b[..p][1..] == b[1..][..p - 1];
      }
    }
  }

  /** a may stand before b in a message: without a channel it comes first, of two channels not the smaller one, of
      one channel not the later turn, and without a turn it comes last. */
  ghost predicate MayPrecede(a: Item, b: Item) {
    && (b.channelId.None? ==> a.channelId.None?)
    && (a.channelId.Some? && b.channelId.Some? ==> !Greater(b.channelId.value, a.channelId.value))
    && (a.channelId == b.channelId && a.turnNum.Some? && b.turnNum.Some? ==> a.turnNum.value <= b.turnNum.value)
    && (a.channelId == b.channelId && a.turnNum.None? ==> b.turnNum.None?)
  }

  lemma SortsBeforeMeans(a: Item, b: Item)
    ensures SortsBefore(a, b) <==> MayPrecede(a, b)
  {
    hide Greater, StringAtMost;
    if a.channelId.Some? && b.channelId.Some? {
      AtMostMeans(b.channelId.value, a.channelId.value);
    }
  }

  // ----- keys of an object -----

  predicate IsDigit(c: char) {
    '0' <= c <= '9'
  }

  function Decimal(s: string): nat
    requires forall i :: 0 <= i < |s| ==> IsDigit(s[i])
  {
    if s == [] then 0
    else
      assert IsDigit(s[|s| - 1]);
      10 * Decimal(s[..|s| - 1]) + (s[|s| - 1] as int - '0' as int)
  }

  /** Keys that spell an array index are enumerated first, in numeric order. */
  predicate IsIndex(s: string) {
    && s != [] && (forall i :: 0 <= i < |s| ==> IsDigit(s[i]))
    && (s[0] == '0' ==> |s| == 1)
    && Decimal(s) < 0xFFFF_FFFF
  }

  predicate KeyBefore(a: string, b: string) {
    if IsIndex(a) then IsIndex(b) ==> Decimal(a) <= Decimal(b) else !IsIndex(b)
  }

  lemma KeysAreOrdered()
    ensures TotalPreorder(KeyBefore)
  {
  }

  // ----- what keys mean -----

  function Digit(d: nat): (c: char)
    requires d < 10
    ensures IsDigit(c) && c as int - '0' as int == d
  {
    "0123456789"[d]
  }

  /** A number in decimal digits. */
  function Shown(n: nat): (s: string)
    ensures s != []
  {
    if n < 10 then [Digit(n)] else Shown(n / 10) + [Digit(n % 10)]
  }

  ghost predicate AllDigits(s: string) {
    forall i :: 0 <= i < |s| ==> IsDigit(s[i])
  }

  lemma {:induction false} ShownMeans(n: nat)
    ensures AllDigits(Shown(n)) && (Shown(n)[0] == '0' ==> n == 0) && Decimal(Shown(n)) == n
  {
    if n >= 10 {
      ShownMeans(n / 10);
      var s := Shown(n);
      assert s[..|s| - 1] == Shown(n / 10) && s[0] == Shown(n / 10)[0];
    } else {
      assert Decimal([]) == 0;
      assert [Digit(n)][..0] == [];
    }
  }

  lemma {:induction false} ShownAgain(s: string)
    requires s != [] && AllDigits(s) && (s[0] == '0' ==> |s| == 1)
    ensures Shown(Decimal(s)) == s && (s[0] != '0' ==> Decimal(s) > 0)
  {
    var init, last := s[..|s| - 1], s[|s| - 1];
    assert IsDigit(last) && s == init + [last];
    if init == [] {
      assert Decimal(init) == 0;
    } else {
      assert init[0] == s[0];
      ShownAgain(init);
      assert Decimal(s) / 10 == Decimal(init) && Decimal(s) % 10 == last as int - '0' as int;
    }
    assert Digit(last as int - '0' as int) == last;
  }

  /** The key of an array element. */
  ghost predicate IsElement(s: string) {
    exists n: nat :: n < 0xFFFF_FFFF && s == Shown(n)
  }

  lemma IndexMeans(s: string)
    ensures IsIndex(s) <==> IsElement(s)
  {
    if IsIndex(s) {
      ShownAgain(s);
    }
    if n: nat :| n < 0xFFFF_FFFF && s == Shown(n) {
      ShownMeans(n);
      if n < 10 {
        assert |s| == 1;
      }
    }
  }

  /** Array elements are enumerated first, in the order of their numbers. */
  lemma KeyBeforeMeans(a: string, b: string)
    ensures IsElement(a) && IsElement(b) ==>
              (KeyBefore(a, b) <==> exists m: nat, n: nat :: m <= n && a == Shown(m) && b == Shown(n))
    ensures !IsElement(a) || !IsElement(b) ==> (KeyBefore(a, b) <==> !IsElement(b))
  {
    IndexMeans(a);
    IndexMeans(b);
    if IsElement(a) && IsElement(b) {
      var m: nat :| m < 0xFFFF_FFFF && a == Shown(m);
      var n: nat :| n < 0xFFFF_FFFF && b == Shown(n);
      ShownMeans(m);
      ShownMeans(n);
      if m': nat, n': nat :| m' <= n' && a == Shown(m') && b == Shown(n') {
        ShownMeans(m');
        ShownMeans(n');
      }
    }
  }
}
