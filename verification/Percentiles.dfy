/** Nearest-rank percentiles, by sorting, and what they mean by counting. */
module Percentiles {

  ghost predicate TotalPreorder<T(!new)>(leq: (T, T) -> bool) {
    && (forall x, y :: leq(x, y) || leq(y, x))
    && (forall x, y, z :: leq(x, y) && leq(y, z) ==> leq(x, z))
  }

  ghost predicate SortedBy<T(!new)>(s: seq<T>, leq: (T, T) -> bool) {
    forall i, j :: 0 <= i < j < |s| ==> leq(s[i], s[j])
  }

  function Insert<T>(x: T, s: seq<T>, leq: (T, T) -> bool): (r: seq<T>)
    ensures |r| == |s| + 1
  {
    if s == [] then [x]
    else if leq(x, s[0]) then [x] + s
    else [s[0]] + Insert(x, s[1..], leq)
  }

  /** The built-in stable sort. */
  function Sorted<T>(s: seq<T>, leq: (T, T) -> bool): (r: seq<T>)
    ensures |r| == |s|
  {
    if s == [] then [] else Insert(s[0], Sorted(s[1..], leq), leq)
  }

  /** The value at rank ceil(p*n/100) of the sorted sample. */
  function NearestRank<T>(s: seq<T>, p: nat, leq: (T, T) -> bool): T
    requires s != [] && 1 <= p <= 100
  {
    Sorted(s, leq)[(p * |s| + 99) / 100 - 1]
  }

  /******* Counting *******/

  /** How many items satisfy the test. */
  function Count<T>(s: seq<T>, test: T -> bool): (c: nat)
    ensures c <= |s|
  {
    if s == [] then 0 else (if test(s[0]) then 1 else 0) + Count(s[1..], test)
  }

  lemma {:induction false} CountAppend<T>(s: seq<T>, t: seq<T>, test: T -> bool)
    ensures Count(s + t, test) == Count(s, test) + Count(t, test)
  {
    if s == [] {
      assert s + t == t;
    } else {
      assert (s + t)[1..] == s[1..] + t;
      CountAppend(s[1..], t, test);
    }
  }

  lemma {:induction false} CountInsert<T>(x: T, s: seq<T>, leq: (T, T) -> bool, test: T -> bool)
    ensures Count(Insert(x, s, leq), test) == Count([x] + s, test)
  {
    if s != [] && !leq(x, s[0]) {
      CountInsert(x, s[1..], leq, test);
      var r := Insert(x, s[1..], leq);
      assert ([s[0]] + r)[1..] == r;
      assert ([x] + s[1..])[1..] == s[1..] && ([x] + s)[1..] == s;
    } else {
      assert s == [] ==> [x] + s == [x];
    }
  }

  /** Sorting keeps every count. */
  lemma {:induction false} CountSorted<T>(s: seq<T>, leq: (T, T) -> bool, test: T -> bool)
    ensures Count(Sorted(s, leq), test) == Count(s, test)
  {
    if s != [] {
      var r := Sorted(s[1..], leq);
      CountSorted(s[1..], leq, test);
      CountInsert(s[0], r, leq, test);
      assert ([s[0]] + r)[1..] == r;
    }
  }

  lemma {:induction false} InsertKeepsOrder<T(!new)>(x: T, s: seq<T>, leq: (T, T) -> bool)
    requires TotalPreorder(leq) && SortedBy(s, leq)
    ensures SortedBy(Insert(x, s, leq), leq)
    ensures forall y :: leq(y, x) && (forall i :: 0 <= i < |s| ==> leq(y, s[i]))
                        ==> forall i :: 0 <= i < |s| + 1 ==> leq(y, Insert(x, s, leq)[i])
  {
    if s != [] && !leq(x, s[0]) {
      InsertKeepsOrder(x, s[1..], leq);
      var r := Insert(x, s[1..], leq);
      assert leq(s[0], x);
      assert forall i :: 0 <= i < |s[1..]| ==> leq(s[0], s[1..][i]);
      assert forall i :: 0 <= i < |r| ==> leq(s[0], r[i]);
    }
  }

  lemma {:induction false} SortedIsOrdered<T(!new)>(s: seq<T>, leq: (T, T) -> bool)
    requires TotalPreorder(leq)
    ensures SortedBy(Sorted(s, leq), leq)
  {
    if s != [] {
      SortedIsOrdered(s[1..], leq);
      InsertKeepsOrder(s[0], Sorted(s[1..], leq), leq);
    }
  }

  /** v is a nearest-rank percentile: fewer than p% of the items lie strictly below it and
      at least p% at or below it. No sorting is mentioned. */
  ghost predicate IsNearestRank<T>(s: seq<T>, p: nat, leq: (T, T) -> bool, v: T) {
    && v in s
    && 100 * CountBefore(s, leq, v) < p * |s| <= 100 * CountUpTo(s, leq, v)
  }

  function CountBefore<T>(s: seq<T>, leq: (T, T) -> bool, v: T): nat {
    Count(s, x => !leq(v, x))
  }

  function CountUpTo<T>(s: seq<T>, leq: (T, T) -> bool, v: T): nat {
    Count(s, x => leq(x, v))
  }

  lemma {:induction false} CountOfPrefix<T>(s: seq<T>, k: nat, test: T -> bool)
    requires k <= |s| && forall i :: 0 <= i < k ==> test(s[i])
    ensures Count(s, test) >= k
  {
    if k > 0 {
      CountOfPrefix(s[1..], k - 1, test);
    }
  }

  lemma {:induction false} CountBeforeSuffix<T>(s: seq<T>, k: nat, test: T -> bool)
    requires k <= |s| && forall i :: k <= i < |s| ==> !test(s[i])
    ensures Count(s, test) <= k
  {
    if s != [] {
      CountBeforeSuffix(s[1..], if k > 0 then k - 1 else 0, test);
    }
  }

  lemma {:induction false} InsertMembers<T>(x: T, s: seq<T>, leq: (T, T) -> bool)
    ensures forall y :: y in Insert(x, s, leq) <==> y == x || y in s
  {
    if s != [] {
      InsertMembers(x, s[1..], leq);
    }
  }

  lemma {:induction false} SortedMembers<T>(s: seq<T>, leq: (T, T) -> bool)
    ensures forall y :: y in Sorted(s, leq) <==> y in s
  {
    if s != [] {
      SortedMembers(s[1..], leq);
      InsertMembers(s[0], Sorted(s[1..], leq), leq);
    }
  }

  /** The value picked by sorting is a nearest rank in the counting sense. */
  lemma NearestRankCounts<T(!new)>(s: seq<T>, p: nat, leq: (T, T) -> bool)
    requires s != [] && 1 <= p <= 100 && TotalPreorder(leq)
    ensures IsNearestRank(s, p, leq, NearestRank(s, p, leq))
  {
    var r := Sorted(s, leq);
    var rank := RankBounds(p, |s|);
    var v := r[rank - 1];
    SortedIsOrdered(s, leq);
    SortedMembers(s, leq);
    assert v in r;
    var below, upTo := (x: T) => !leq(v, x), (x: T) => leq(x, v);
    assert leq(v, v);
    CountBeforeSuffix(r, rank - 1, below);
    CountOfPrefix(r, rank, upTo);
    CountSorted(s, leq, below);
    CountSorted(s, leq, upTo);
  }

  lemma RankBounds(p: nat, n: nat) returns (rank: nat)
    requires n > 0 && 1 <= p <= 100
    ensures rank == (p * n + 99) / 100 && 1 <= rank <= n
    ensures 100 * (rank - 1) < p * n <= 100 * rank
  {
    rank := (p * n + 99) / 100;
    assert p * n >= 1;
    assert p * n <= 100 * n;
  }

  lemma {:induction false} CountMonotone<T>(s: seq<T>, weak: T -> bool, strong: T -> bool)
    requires forall x :: x in s && strong(x) ==> weak(x)
    ensures Count(s, strong) <= Count(s, weak)
  {
    if s != [] {
      CountMonotone(s[1..], weak, strong);
    }
  }

  /******* Integer samples *******/

  predicate IntLeq(x: int, y: int) {
    x <= y
  }

  /** Order-statistic reading: the percentile is under a threshold exactly when at least p%
      of the sample is. */
  lemma NearestRankBelow(s: seq<int>, p: nat, t: int)
    requires s != [] && 1 <= p <= 100
    ensures NearestRank(s, p, IntLeq) < t <==> p * |s| <= 100 * CountUnder(s, t)
  {
    var v := NearestRank(s, p, IntLeq);
    NearestRankCounts(s, p, IntLeq);
    UnderAgainstRank(s, v, t);
  }

  function CountUnder(s: seq<int>, t: int): (c: nat)
    ensures c <= |s|
  {
    Count(s, x => x < t)
  }

  lemma {:induction false} UnderAgainstRank(s: seq<int>, v: int, t: int)
    ensures v < t ==> CountUpTo(s, IntLeq, v) <= CountUnder(s, t)
    ensures t <= v ==> CountUnder(s, t) <= CountBefore(s, IntLeq, v)
  {
    if s != [] {
      var leq: (int, int) -> bool := IntLeq;
      assert leq(s[0], v) == (s[0] <= v) && leq(v, s[0]) == (v <= s[0]);
      UnderAgainstRank(s[1..], v, t);
    }
  }

  /** Order statistics commute with a conversion that respects the order. */
  lemma NearestRankCommutes<T(!new)>(s: seq<T>, p: nat, leq: (T, T) -> bool, f: T -> int)
    requires s != [] && 1 <= p <= 100 && TotalPreorder(leq)
    requires forall x, y :: leq(x, y) ==> f(x) <= f(y)
    ensures NearestRank(Mapped(s, f), p, IntLeq) == f(NearestRank(s, p, leq))
  {
    hide NearestRank, Count, Mapped, TotalPreorder;
    var v := NearestRank(s, p, leq);
    var t, w := Mapped(s, f), f(v);
    NearestRankCounts(s, p, leq);
    NearestRankBelow(t, p, w);
    NearestRankBelow(t, p, w + 1);
    CountsAcrossConversion(s, leq, f, v);
  }

  lemma CountsAcrossConversion<T(!new)>(s: seq<T>, leq: (T, T) -> bool, f: T -> int, v: T)
    requires TotalPreorder(leq) && forall x, y :: leq(x, y) ==> f(x) <= f(y)
    ensures CountUnder(Mapped(s, f), f(v)) <= CountBefore(s, leq, v)
    ensures CountUpTo(s, leq, v) <= CountUnder(Mapped(s, f), f(v) + 1)
  {
    var w := f(v);
    CountMapped(s, f, y => y < w);
    CountMapped(s, f, y => y < w + 1);
    CountMonotone(s, x => !leq(v, x), x => (y => y < w)(f(x)));
    CountMonotone(s, x => (y => y < w + 1)(f(x)), x => leq(x, v));
  }

  function Mapped<T>(s: seq<T>, f: T -> int): (r: seq<int>)
    ensures |r| == |s| && forall i :: 0 <= i < |s| ==> r[i] == f(s[i])
  {
    if s == [] then [] else [f(s[0])] + Mapped(s[1..], f)
  }

  lemma {:induction false} CountMapped<T>(s: seq<T>, f: T -> int, test: int -> bool)
    ensures Count(Mapped(s, f), test) == Count(s, x => test(f(x)))
  {
    if s != [] {
      CountMapped(s[1..], f, test);
      assert Mapped(s, f)[1..] == Mapped(s[1..], f);
    }
  }

  /** Only the multiset of observations matters. */
  lemma NearestRankOrderFree(s: seq<int>, t: seq<int>, p: nat)
    requires s != [] && 1 <= p <= 100 && multiset(s) == multiset(t)
    ensures t != [] && NearestRank(s, p, IntLeq) == NearestRank(t, p, IntLeq)
  {
    SameLength(s, t);
    var v := NearestRank(s, p, IntLeq);
    CountOrderFree(s, t, x => x < v);
    CountOrderFree(s, t, x => x < v + 1);
    NearestRankBelow(s, p, v);
    NearestRankBelow(t, p, v);
    NearestRankBelow(s, p, v + 1);
    NearestRankBelow(t, p, v + 1);
  }

  lemma SameLength<T>(s: seq<T>, t: seq<T>)
    requires multiset(s) == multiset(t)
    ensures |s| == |t|
  {
    assert |multiset(s)| == |s| && |multiset(t)| == |t|;
  }

  lemma {:induction false} CountOrderFree<T>(s: seq<T>, t: seq<T>, test: T -> bool)
    requires multiset(s) == multiset(t)
    ensures Count(s, test) == Count(t, test)
  {
    SameLength(s, t);
    if s != [] {
      var i := FirstRemoved(s, t);
      CountOrderFree(s[1..], t[..i] + t[i + 1..], test);
      CountAppend(t[..i], t[i + 1..], test);
      CountAppend(t[..i], t[i..], test);
      assert t == t[..i] + t[i..] && t[i..][1..] == t[i + 1..];
    }
  }

  /** Dropping the head of s and its match in t leaves permutations of each other. */
  lemma FirstRemoved<T>(s: seq<T>, t: seq<T>) returns (i: nat)
    requires s != [] && multiset(s) == multiset(t)
    ensures i < |t| && t[i] == s[0]
    ensures multiset(s[1..]) == multiset(t[..i] + t[i + 1..])
  {
    assert s[0] in multiset(t);
    i :| 0 <= i < |t| && t[i] == s[0];
    assert s == [s[0]] + s[1..];
    assert t == t[..i] + [t[i]] + t[i + 1..];
    assert multiset(s[1..]) == multiset(s) - multiset{s[0]};
    assert multiset(t[..i] + t[i + 1..]) == multiset(t) - multiset{t[i]};
  }

  /** The items' contributions, in order. */
  function Collected<T, U>(s: seq<T>, f: T -> seq<U>): seq<U> {
    if s == [] then [] else f(s[0]) + Collected(s[1..], f)
  }

  lemma {:induction false} CollectedAppend<T, U>(s: seq<T>, t: seq<T>, f: T -> seq<U>)
    ensures Collected(s + t, f) == Collected(s, f) + Collected(t, f)
  {
    if s == [] {
      assert s + t == t;
    } else {
      assert (s + t)[1..] == s[1..] + t;
      CollectedAppend(s[1..], t, f);
    }
  }

  /** Permuting items permutes what they contribute. */
  lemma {:induction false} CollectedOrderFree<T, U>(s: seq<T>, t: seq<T>, f: T -> seq<U>)
    requires multiset(s) == multiset(t)
    ensures multiset(Collected(s, f)) == multiset(Collected(t, f))
  {
    SameLength(s, t);
    if s != [] {
      var i := FirstRemoved(s, t);
      CollectedOrderFree(s[1..], t[..i] + t[i + 1..], f);
      CollectedAppend(t[..i], t[i + 1..], f);
      CollectedAppend(t[..i], t[i..], f);
      assert t == t[..i] + t[i..] && t[i..][1..] == t[i + 1..];
    }
  }

  /** Raising observations cannot lower the percentile. */
  lemma NearestRankMonotone(s: seq<int>, t: seq<int>, p: nat)
    requires s != [] && |s| == |t| && 1 <= p <= 100
    requires forall i :: 0 <= i < |s| ==> s[i] <= t[i]
    ensures NearestRank(s, p, IntLeq) <= NearestRank(t, p, IntLeq)
  {
    var v := NearestRank(s, p, IntLeq);
    NearestRankBelow(s, p, v);
    NearestRankBelow(t, p, v);
    CountRaised(s, t, v);
  }

  lemma {:induction false} CountRaised(s: seq<int>, t: seq<int>, v: int)
    requires |s| == |t| && forall i :: 0 <= i < |s| ==> s[i] <= t[i]
    ensures CountUnder(t, v) <= CountUnder(s, v)
  {
    if s != [] {
      CountRaised(s[1..], t[1..], v);
    }
  }
}
