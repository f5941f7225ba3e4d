/**
  The bounded recency clock that the stores of a language-server session share.

  Every entry carries the ordinal it was last used at.  `Chrono` lists the
  entries from the least to the most recently used one; the lemmas say what
  stamping, removing and renumbering do to that list.
 */
module Recency {
  import opened Machine

  datatype Stamped<T> = Stamped(item: T, ordinal: nat)

  ghost predicate Distinct<T>(s: seq<Stamped<T>>) {
    forall i, j | 0 <= i < j < |s| :: s[i].ordinal != s[j].ordinal
  }

  predicate Below<T>(s: seq<Stamped<T>>, bound: nat) {
    forall i | 0 <= i < |s| :: s[i].ordinal < bound
  }

  /** The state of a clock and its entries: distinct ordinals, all of them in the past. */
  ghost predicate Ticking<T>(s: seq<Stamped<T>>, next: nat) {
    Distinct(s) && Below(s, next) && next <= U64_MAX
  }

  // ---------------------------------------------------------------------------
  // Sorting by ordinal
  // ---------------------------------------------------------------------------

  /** The indices below `n`, sorted by the ordinal they carry; a stable sort. */
  function Order<T>(s: seq<Stamped<T>>, n: nat): (order: seq<nat>)
    requires n <= |s|
    ensures |order| == n && forall a | 0 <= a < n :: order[a] < n
  {
    if n == 0 then [] else Placed(s, Order(s, n - 1), n - 1)
  }

  function Placed<T>(s: seq<Stamped<T>>, order: seq<nat>, i: nat): (placed: seq<nat>)
    requires i < |s| && forall a | 0 <= a < |order| :: order[a] < i
    ensures |placed| == |order| + 1 && forall a | 0 <= a < |placed| :: placed[a] <= i
  {
    if order == [] || s[order[|order| - 1]].ordinal <= s[i].ordinal then order + [i]
    else Placed(s, order[..|order| - 1], i) + [order[|order| - 1]]
  }

  ghost predicate Orders<T>(s: seq<Stamped<T>>, order: seq<nat>) {
    && (forall a | 0 <= a < |order| :: order[a] < |s|)
    && forall a, b | 0 <= a < b < |order| :: order[a] != order[b] && s[order[a]].ordinal <= s[order[b]].ordinal
  }

  lemma {:induction false} PlacedHas<T>(s: seq<Stamped<T>>, order: seq<nat>, i: nat)
    requires i < |s| && forall a | 0 <= a < |order| :: order[a] < i
    ensures forall x :: x in Placed(s, order, i) <==> x in order || x == i
  {
    if order != [] && s[order[|order| - 1]].ordinal > s[i].ordinal {
      PlacedHas(s, order[..|order| - 1], i);
      assert order == order[..|order| - 1] + [order[|order| - 1]];
    }
  }

  lemma {:induction false} PlacedOrders<T>(s: seq<Stamped<T>>, order: seq<nat>, i: nat)
    requires i < |s| && (forall a | 0 <= a < |order| :: order[a] < i) && Orders(s, order)
    ensures Orders(s, Placed(s, order, i))
  {
    if order != [] && s[order[|order| - 1]].ordinal > s[i].ordinal {
      var before, last := order[..|order| - 1], order[|order| - 1];
      PlacedOrders(s, before, i);
      PlacedHas(s, before, i);
      assert forall x <- before :: x != last && s[x].ordinal <= s[last].ordinal;
      assert forall x <- Placed(s, before, i) :: x != last && s[x].ordinal <= s[last].ordinal;
    }
  }

  /** The order is sorted and misses no index. */
  lemma {:induction false} OrderIsOrder<T>(s: seq<Stamped<T>>, n: nat)
    requires n <= |s|
    ensures Orders(s, Order(s, n)) && forall i | 0 <= i < n :: i in Order(s, n)
  {
    hide Orders, Placed;
    if n == 0 {
      NothingOrders(s);
    } else {
      OrderIsOrder(s, n - 1);
      PlacedOrders(s, Order(s, n - 1), n - 1);
      PlacedHas(s, Order(s, n - 1), n - 1);
    }
  }

  lemma NothingOrders<T>(s: seq<Stamped<T>>)
    ensures Orders(s, [])
  {
  }

  /** The entries from the oldest to the newest. */
  function Sorted<T>(s: seq<Stamped<T>>): (sorted: seq<Stamped<T>>)
    ensures |sorted| == |s| && forall r | 0 <= r < |s| :: sorted[r] == s[Order(s, |s|)[r]]
  {
    seq(|s|, r requires 0 <= r < |s| => s[Order(s, |s|)[r]])
  }

  function Items<T>(s: seq<Stamped<T>>): (items: seq<T>)
    ensures |items| == |s| && forall i | 0 <= i < |s| :: items[i] == s[i].item
  {
    seq(|s|, i requires 0 <= i < |s| => s[i].item)
  }

  function Chrono<T>(s: seq<Stamped<T>>): (items: seq<T>)
    ensures |items| == |s|
  {
    Items(Sorted(s))
  }

  ghost predicate Increasing<T>(s: seq<Stamped<T>>) {
    forall i, j | 0 <= i < j < |s| :: s[i].ordinal < s[j].ordinal
  }

  ghost predicate SameElements<T(!new)>(a: seq<T>, b: seq<T>) {
    forall x :: x in a <==> x in b
  }

  lemma SortedIsSorted<T(!new)>(s: seq<Stamped<T>>)
    requires Distinct(s)
    ensures Increasing(Sorted(s)) && SameElements(Sorted(s), s)
  {
    hide Order;
    OrderIsOrder(s, |s|);
    var order, sorted := Order(s, |s|), Sorted(s);
    forall i, j | 0 <= i < j < |s| ensures sorted[i].ordinal < sorted[j].ordinal {
      assert order[i] != order[j];
    }
    forall x | x in s ensures x in sorted {
      var k :| 0 <= k < |s| && s[k] == x;
      assert k in order;
      var r :| 0 <= r < |order| && order[r] == k;
      assert sorted[r] == x;
    }
  }

  /** There is one increasing order of given entries. */
  lemma {:induction false} OneOrder<T(!new)>(a: seq<Stamped<T>>, b: seq<Stamped<T>>)
    requires Increasing(a) && Increasing(b) && SameElements(a, b)
    ensures a == b
  {
    if a != [] {
      var x := a[|a| - 1];
      assert x in b;
      var y := b[|b| - 1];
      assert y in a && x == y;
      DropLast(a);
      DropLast(b);
      var c, d := a[..|a| - 1], b[..|b| - 1];
      forall z | z in c ensures z in d {
        assert z in a && z in b;
      }
      forall z | z in d ensures z in c {
        assert z in b && z in a;
      }
      OneOrder(c, d);
      assert a == c + [x] && b == d + [x];
    } else {
      NothingIn(b);
    }
  }

  lemma NothingIn<T(!new)>(s: seq<T>)
    requires SameElements([], s)
    ensures |s| == 0
  {
    Inhabited(s);
  }

  lemma Inhabited<T(!new)>(s: seq<T>)
    ensures |s| > 0 ==> exists x :: x in s
  {
    if |s| > 0 {
      assert s[0] in s;
    }
  }

  lemma DropLast<T(!new)>(s: seq<Stamped<T>>)
    requires Increasing(s) && s != []
    ensures forall x :: x in s[..|s| - 1] <==> x in s && x != s[|s| - 1]
  {
    var last := |s| - 1;
    forall x | x in s && x != s[last] ensures x in s[..last] {
      var k :| 0 <= k < |s| && s[k] == x;
      assert s[..last][k] == x;
    }
  }

  /** Whatever lists the entries in increasing order is their chronology. */
  lemma ChronoIs<T(!new)>(s: seq<Stamped<T>>, sorted: seq<Stamped<T>>)
    requires Distinct(s) && Increasing(sorted) && SameElements(sorted, s)
    ensures Sorted(s) == sorted && Chrono(s) == Items(sorted)
  {
    SortedIsSorted(s);
    OneOrder(Sorted(s), sorted);
  }

  // ---------------------------------------------------------------------------
  // Using, adding, removing
  // ---------------------------------------------------------------------------

  function Without<T(==)>(s: seq<T>, x: T): (rest: seq<T>)
    ensures forall y <- rest :: y in s && y != x
    ensures forall y <- s :: y != x ==> y in rest
    ensures |rest| <= |s|
  {
    if s == [] then []
    else Without(s[..|s| - 1], x) + (if s[|s| - 1] == x then [] else [s[|s| - 1]])
  }

  lemma {:induction false} WithoutKeepsOrder<T(!new)>(s: seq<Stamped<T>>, x: Stamped<T>)
    requires Increasing(s)
    ensures Increasing(Without(s, x))
  {
    if s != [] {
      var before := s[..|s| - 1];
      WithoutKeepsOrder(before, x);
      assert forall i | 0 <= i < |Without(before, x)| :: Without(before, x)[i] in before;
      assert forall y <- before :: y.ordinal < s[|s| - 1].ordinal;
    }
  }

  lemma AddedLast<T(!new)>(s: seq<Stamped<T>>, item: T, ordinal: nat)
    requires Distinct(s) && Below(s, ordinal)
    ensures Distinct(s + [Stamped(item, ordinal)])
    ensures Chrono(s + [Stamped(item, ordinal)]) == Chrono(s) + [item]
  {
    hide Sorted;
    var entry := Stamped(item, ordinal);
    SortedIsSorted(s);
    OneMore(Sorted(s), s, entry);
    hide Increasing, SameElements, Distinct, Below;
    ChronoIs(s + [entry], Sorted(s) + [entry]);
    assert Items(Sorted(s) + [entry]) == Items(Sorted(s)) + [item];
  }

  lemma OneMore<T(!new)>(sorted: seq<Stamped<T>>, s: seq<Stamped<T>>, entry: Stamped<T>)
    requires Distinct(s) && Below(s, entry.ordinal) && Increasing(sorted) && SameElements(sorted, s)
    ensures Distinct(s + [entry]) && Increasing(sorted + [entry]) && SameElements(sorted + [entry], s + [entry])
  {
    assert forall x <- sorted :: x in s && x.ordinal < entry.ordinal;
  }

  function RemoveAt<T>(s: seq<T>, k: nat): seq<T>
    requires k < |s|
  {
    s[..k] + s[k + 1..]
  }

  lemma Removed<T(!new)>(s: seq<Stamped<T>>, k: nat)
    requires Distinct(s) && k < |s|
    ensures Distinct(RemoveAt(s, k))
    ensures Sorted(RemoveAt(s, k)) == Without(Sorted(s), s[k])
  {
    hide Sorted;
    SortedIsSorted(s);
    WithoutKeepsOrder(Sorted(s), s[k]);
    OneLess(s, k);
    hide Increasing, Distinct, RemoveAt;
    assert SameElements(Without(Sorted(s), s[k]), RemoveAt(s, k));
    ChronoIs(RemoveAt(s, k), Without(Sorted(s), s[k]));
  }

  lemma OneLess<T(!new)>(s: seq<Stamped<T>>, k: nat)
    requires Distinct(s) && k < |s|
    ensures Distinct(RemoveAt(s, k))
    ensures forall x :: x in RemoveAt(s, k) <==> x in s && x != s[k]
  {
    var rest := RemoveAt(s, k);
    assert forall i | 0 <= i < |rest| :: rest[i] == s[if i < k then i else i + 1];
    forall x | x in s && x != s[k] ensures x in rest {
      var j :| 0 <= j < |s| && s[j] == x;
      assert rest[if j < k then j else j - 1] == x;
    }
  }

  /** The items of the entries other than the one that holds `x`. */
  lemma {:induction false} ItemsWithout<T(!new)>(s: seq<Stamped<T>>, entry: Stamped<T>)
    requires forall e <- s :: e.item == entry.item ==> e == entry
    ensures Items(Without(s, entry)) == Without(Items(s), entry.item)
  {
    if s != [] {
      var before := s[..|s| - 1];
      ItemsWithout(before, entry);
      assert Items(s)[..|s| - 1] == Items(before);
      assert s[|s| - 1] in s;
    }
  }

  ghost predicate DistinctItems<T>(s: seq<Stamped<T>>) {
    forall i, j | 0 <= i < j < |s| :: s[i].item != s[j].item
  }

  /** Removing an entry removes its item from the chronology and moves nothing else. */
  lemma RemovedItem<T(!new)>(s: seq<Stamped<T>>, k: nat)
    requires Distinct(s) && DistinctItems(s) && k < |s|
    ensures Chrono(RemoveAt(s, k)) == Without(Chrono(s), s[k].item)
  {
    hide Sorted;
    Removed(s, k);
    SortedIsSorted(s);
    forall e <- Sorted(s) | e.item == s[k].item ensures e == s[k] {
      assert e in s;
      var j :| 0 <= j < |s| && s[j] == e;
    }
    ItemsWithout(Sorted(s), s[k]);
  }

  /** Stamping an entry with a new ordinal moves its item to the back. */
  lemma UsedItem<T(!new)>(s: seq<Stamped<T>>, k: nat, ordinal: nat)
    requires Distinct(s) && DistinctItems(s) && k < |s| && Below(s, ordinal)
    ensures var used := s[k := Stamped(s[k].item, ordinal)];
            Distinct(used) && Chrono(used) == Without(Chrono(s), s[k].item) + [s[k].item]
  {
    hide Sorted;
    var entry := Stamped(s[k].item, ordinal);
    var rest, used := RemoveAt(s, k), s[k := entry];
    OneLess(s, k);
    RemovedItem(s, k);
    RestBelow(s, k, ordinal);
    AddedLast(rest, s[k].item, ordinal);
    SortedIsSorted(rest + [entry]);
    Restamped(s, k, entry);
    hide Distinct, Increasing, RemoveAt, Below, DistinctItems;
    ChronoIs(used, Sorted(rest + [entry]));
  }

  lemma RestBelow<T(!new)>(s: seq<Stamped<T>>, k: nat, ordinal: nat)
    requires k < |s| && Below(s, ordinal)
    ensures Below(RemoveAt(s, k), ordinal)
  {
  }

  lemma Restamped<T(!new)>(s: seq<Stamped<T>>, k: nat, entry: Stamped<T>)
    requires k < |s| && Distinct(s) && Below(s, entry.ordinal)
    ensures Distinct(s[k := entry]) && SameElements(RemoveAt(s, k) + [entry], s[k := entry])
  {
    var rest, used := RemoveAt(s, k), s[k := entry];
    OneLess(s, k);
    forall x | x in rest ensures x in used {
      var j :| 0 <= j < |s| && s[j] == x;
      assert used[j] == x;
    }
    assert used[k] == entry;
    assert forall j | 0 <= j < |used| && j != k :: used[j] == s[j] && s[j] in s && s[j] != s[k];
  }

  /** The entry with the least ordinal heads the chronology. */
  lemma OldestIsFirst<T(!new)>(s: seq<Stamped<T>>, k: nat)
    requires Distinct(s) && k < |s| && forall j | 0 <= j < |s| :: s[k].ordinal <= s[j].ordinal
    ensures Sorted(s)[0] == s[k] && Chrono(s)[0] == s[k].item
  {
    hide Sorted;
    SortedIsSorted(s);
    var sorted := Sorted(s);
    assert sorted[0] in s && s[k] in sorted;
    var r :| 0 <= r < |sorted| && sorted[r] == s[k];
    var j :| 0 <= j < |s| && s[j] == sorted[0];
  }

  lemma {:induction false} WithoutFirst<T(!new)>(s: seq<T>)
    requires s != [] && forall i, j | 0 <= i < j < |s| :: s[i] != s[j]
    ensures Without(s, s[0]) == s[1..]
  {
    if |s| > 1 {
      var before := s[..|s| - 1];
      WithoutFirst(before);
      assert before[1..] + [s[|s| - 1]] == s[1..];
    }
  }

  lemma ChronoIsDistinct<T(!new)>(s: seq<Stamped<T>>)
    requires Distinct(s) && DistinctItems(s)
    ensures forall i, j | 0 <= i < j < |s| :: Chrono(s)[i] != Chrono(s)[j]
    ensures forall x :: x in Chrono(s) <==> x in Items(s)
  {
    hide Sorted;
    SortedIsSorted(s);
    ItemsOfSame(Sorted(s), s);
    ItemsOfSame(s, Sorted(s));
    ItemDecides(s);
    var sorted := Sorted(s);
    assert forall i | 0 <= i < |s| :: sorted[i] in s;
  }

  lemma ItemsOfSame<T(!new)>(a: seq<Stamped<T>>, b: seq<Stamped<T>>)
    requires SameElements(a, b)
    ensures forall x <- Items(a) :: x in Items(b)
  {
    forall x | x in Items(a) ensures x in Items(b) {
      var i :| 0 <= i < |a| && Items(a)[i] == x;
      assert a[i] in b;
      var j :| 0 <= j < |b| && b[j] == a[i];
      assert Items(b)[j] == x;
    }
  }

  lemma ItemDecides<T(!new)>(s: seq<Stamped<T>>)
    requires DistinctItems(s)
    ensures forall x, y | x in s && y in s && x.item == y.item :: x == y
  {
  }

  // ---------------------------------------------------------------------------
  // Renumbering
  // ---------------------------------------------------------------------------

  /** Each entry with its rank, counted from one, for its ordinal. */
  ghost predicate Ranked<T>(s: seq<Stamped<T>>, ranked: seq<Stamped<T>>) {
    && |ranked| == |s|
    && (forall i | 0 <= i < |s| :: ranked[i].item == s[i].item)
    && forall r | 0 <= r < |s| :: ranked[Order(s, |s|)[r]].ordinal == r + 1
  }

  function ByRank<T>(s: seq<Stamped<T>>, ranked: seq<Stamped<T>>): (sorted: seq<Stamped<T>>)
    requires |ranked| == |s|
    ensures |sorted| == |s| && forall r | 0 <= r < |s| :: sorted[r] == ranked[Order(s, |s|)[r]]
  {
    seq(|s|, r requires 0 <= r < |s| => ranked[Order(s, |s|)[r]])
  }

  lemma RankOf<T(!new)>(s: seq<Stamped<T>>, ranked: seq<Stamped<T>>, i: nat)
    requires Ranked(s, ranked) && i < |s|
    ensures 0 < ranked[i].ordinal <= |s| && Order(s, |s|)[ranked[i].ordinal - 1] == i && ranked[i] in ByRank(s, ranked)
  {
    hide Order, Orders;
    OrderIsOrder(s, |s|);
    assert i in Order(s, |s|);
    var r :| 0 <= r < |s| && Order(s, |s|)[r] == i;
    assert ByRank(s, ranked)[r] == ranked[i];
  }

  /** Renumbering by rank keeps the chronology, whatever the ordinals were. */
  lemma RankedKeepsChrono<T(!new)>(s: seq<Stamped<T>>, ranked: seq<Stamped<T>>)
    requires Ranked(s, ranked)
    ensures Distinct(ranked) && Below(ranked, |s| + 1) && Chrono(ranked) == Chrono(s)
  {
    hide Order, Orders, ByRank;
    RankedIsDistinct(s, ranked);
    RankedIsSame(s, ranked);
    hide Increasing, SameElements, Distinct;
    ChronoIs(ranked, ByRank(s, ranked));
    assert Items(ByRank(s, ranked)) == Items(Sorted(s));
  }

  lemma RankedIsDistinct<T(!new)>(s: seq<Stamped<T>>, ranked: seq<Stamped<T>>)
    requires Ranked(s, ranked)
    ensures Distinct(ranked) && Below(ranked, |s| + 1) && Increasing(ByRank(s, ranked))
  {
    hide Order, Orders, Ranked;
    RankedIsIncreasing(s, ranked);
    forall i | 0 <= i < |s|
      ensures 0 < ranked[i].ordinal <= |s| && Order(s, |s|)[ranked[i].ordinal - 1] == i
    {
      RankOf(s, ranked, i);
    }
  }

  lemma RankedIsIncreasing<T(!new)>(s: seq<Stamped<T>>, ranked: seq<Stamped<T>>)
    requires Ranked(s, ranked)
    ensures |ranked| == |s| && Increasing(ByRank(s, ranked))
  {
  }

  lemma RankedIsSame<T(!new)>(s: seq<Stamped<T>>, ranked: seq<Stamped<T>>)
    requires Ranked(s, ranked)
    ensures SameElements(ByRank(s, ranked), ranked)
  {
    hide Order, Orders;
    forall x | x in ranked ensures x in ByRank(s, ranked) {
      var i :| 0 <= i < |s| && ranked[i] == x;
      RankOf(s, ranked, i);
    }
    assert forall x <- ByRank(s, ranked) :: x in ranked;
  }

  // ---------------------------------------------------------------------------
  // The clock as it runs
  // ---------------------------------------------------------------------------

  method Oldest<T>(s: seq<Stamped<T>>) returns (k: nat)
    requires s != []
    ensures k < |s| && forall j | 0 <= j < |s| :: s[k].ordinal <= s[j].ordinal
  {
    k := 0;
    for i := 1 to |s|
      invariant k < i
      invariant forall j | 0 <= j < i :: s[k].ordinal <= s[j].ordinal
    {
      if s[i].ordinal < s[k].ordinal {
        k := i;
      }
    }
  }

  method Renumber<T>(s: seq<Stamped<T>>) returns (ranked: seq<Stamped<T>>)
    ensures Ranked(s, ranked)
  {
    hide Order;
    OrderIsOrder(s, |s|);
    var order := Order(s, |s|);
    ranked := s;
    for rank := 0 to |order|
      invariant |ranked| == |s| && forall i | 0 <= i < |s| :: ranked[i].item == s[i].item
      invariant forall r | 0 <= r < rank :: ranked[order[r]].ordinal == r + 1
    {
      assert forall r | 0 <= r < rank :: order[r] != order[rank];
      ranked := ranked[order[rank] := Stamped(ranked[order[rank]].item, rank + 1)];
    }
  }

  /** The next ordinal; at exhaustion, and only then, the entries are renumbered first. */
  method Allocate<T(!new)>(s: seq<Stamped<T>>, next: nat) returns (stamped: seq<Stamped<T>>, ordinal: nat, after: nat)
    requires Ticking(s, next) && |s| + 1 < U64_MAX
    ensures Distinct(stamped) && Below(stamped, ordinal) && Items(stamped) == Items(s) && Chrono(stamped) == Chrono(s)
    ensures 0 < ordinal && after == ordinal + 1 <= U64_MAX
    ensures 0 < next < U64_MAX ==> stamped == s && ordinal == next
  {
    stamped, ordinal := s, next;
    if next == 0 || next == U64_MAX {
      stamped := Renumber(s);
      RankedKeepsChrono(s, stamped);
      ordinal := |s| + 1;
    }
    after := SaturatingNext(ordinal, U64_MAX);
  }

  // ---------------------------------------------------------------------------
  // Changing an item in place
  // ---------------------------------------------------------------------------

  lemma {:induction false} OrderByOrdinals<T>(s: seq<Stamped<T>>, t: seq<Stamped<T>>, n: nat)
    requires |s| == |t| && n <= |s| && forall i | 0 <= i < |s| :: s[i].ordinal == t[i].ordinal
    ensures Order(s, n) == Order(t, n)
  {
    hide Placed;
    if n > 0 {
      OrderByOrdinals(s, t, n - 1);
      PlacedByOrdinals(s, t, Order(s, n - 1), n - 1);
    }
  }

  lemma {:induction false} PlacedByOrdinals<T>(s: seq<Stamped<T>>, t: seq<Stamped<T>>, order: seq<nat>, i: nat)
    requires |s| == |t| && forall i | 0 <= i < |s| :: s[i].ordinal == t[i].ordinal
    requires i < |s| && forall a | 0 <= a < |order| :: order[a] < i
    ensures Placed(s, order, i) == Placed(t, order, i)
  {
    if order != [] {
      PlacedByOrdinals(s, t, order[..|order| - 1], i);
    }
  }

  /** An item changed in place keeps its place in the chronology. */
  lemma ChangedItem<T(!new)>(s: seq<Stamped<T>>, k: nat, item: T)
    requires Distinct(s) && DistinctItems(s) && k < |s|
    ensures var changed := s[k := Stamped(item, s[k].ordinal)];
            forall r | 0 <= r < |s| :: Chrono(changed)[r] == if Chrono(s)[r] == s[k].item then item else Chrono(s)[r]
  {
    hide Order;
    var changed := s[k := Stamped(item, s[k].ordinal)];
    OrderByOrdinals(s, changed, |s|);
    forall r | 0 <= r < |s|
      ensures Chrono(changed)[r] == if Chrono(s)[r] == s[k].item then item else Chrono(s)[r]
    {
      var i := Order(s, |s|)[r];
      assert Chrono(s)[r] == s[i].item && Chrono(changed)[r] == changed[i].item;
    }
  }
}
