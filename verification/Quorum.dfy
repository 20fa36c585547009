/** Majorities: the element in the middle of the sorted matchIndex, and the fact
    that two large enough sets of peers meet. */
module Quorum {
  import opened Sets

  ghost predicate Ascending(s: seq<int>) {
    forall i, j :: 0 <= i < j < |s| ==> s[i] <= s[j]
  }

  function Insert(x: int, s: seq<int>): (r: seq<int>)
    ensures |r| == |s| + 1
  {
    if s == [] || x <= s[0] then [x] + s else [s[0]] + Insert(x, s[1..])
  }

  function Sort(s: seq<int>): (r: seq<int>)
    ensures |r| == |s|
  {
    if s == [] then [] else Insert(s[0], Sort(s[1..]))
  }

  lemma {:induction false} InsertHas(x: int, s: seq<int>)
    ensures multiset(Insert(x, s)) == multiset(s) + multiset{x}
  {
    if s != [] {
      assert s == [s[0]] + s[1..];
      if x > s[0] { InsertHas(x, s[1..]); }
    }
  }

  lemma AscendingCons(y: int, r: seq<int>)
    requires Ascending(r) && (r == [] || y <= r[0])
    ensures Ascending([y] + r)
  {
    var s := [y] + r;
    forall i, j | 0 <= i < j < |s| ensures s[i] <= s[j] {
      assert s[j] == r[j - 1];
      if i > 0 { assert s[i] == r[i - 1]; }
    }
  }

  lemma AscendingRest(s: seq<int>)
    requires Ascending(s) && s != []
    ensures Ascending(s[1..])
  {
    forall i, j | 0 <= i < j < |s[1..]| ensures s[1..][i] <= s[1..][j] {
      assert s[1..][i] == s[i + 1] && s[1..][j] == s[j + 1];
    }
  }

  lemma {:induction false} InsertSorts(x: int, s: seq<int>)
    requires Ascending(s)
    ensures Ascending(Insert(x, s))
    ensures Insert(x, s)[0] == x || (s != [] && Insert(x, s)[0] == s[0] <= x)
  {
    if s == [] || x <= s[0] {
      AscendingCons(x, s);
    } else {
      AscendingRest(s);
      InsertSorts(x, s[1..]);
      AscendingCons(s[0], Insert(x, s[1..]));
    }
  }

  /** The sort of the code's library call: the ascending permutation of s. */
  lemma {:induction false} SortSorts(s: seq<int>)
    ensures Ascending(Sort(s)) && multiset(Sort(s)) == multiset(s)
  {
    if s != [] {
      SortSorts(s[1..]);
      InsertSorts(s[0], Sort(s[1..]));
      InsertHas(s[0], Sort(s[1..]));
      assert s == [s[0]] + s[1..];
    }
  }

  /** The value the leader takes as the majority match index: the element at
      position n / 2 of the sorted copy. */
  function Median(s: seq<int>): int
    requires s != []
  {
    Sort(s)[|s| / 2]
  }

  /** How many elements of s reach x. */
  function Reaching(s: seq<int>, x: int): (c: nat)
    ensures c <= |s|
  {
    if s == [] then 0 else (if s[0] >= x then 1 else 0) + Reaching(s[1..], x)
  }

  /** The peers whose match index reaches x. */
  ghost function PeersReaching(s: seq<int>, x: int): set<int> {
    set i | 0 <= i < |s| && s[i] >= x
  }

  lemma {:induction false} ReachingSplit(a: seq<int>, b: seq<int>, x: int)
    ensures Reaching(a + b, x) == Reaching(a, x) + Reaching(b, x)
  {
    if a == [] {
      assert a + b == b;
    } else {
      assert (a + b)[1..] == a[1..] + b;
      ReachingSplit(a[1..], b, x);
    }
  }

  lemma {:induction false} ReachingInsert(y: int, s: seq<int>, x: int)
    requires Ascending(s)
    ensures Reaching(Insert(y, s), x) == Reaching([y] + s, x)
  {
    assert ([y] + s)[1..] == s;
    if s != [] && y > s[0] {
      ReachingInsert(y, s[1..], x);
      assert ([y] + s[1..])[1..] == s[1..];
      assert Insert(y, s)[1..] == Insert(y, s[1..]);
    }
  }

  /** Sorting does not change how many elements reach x. */
  lemma {:induction false} ReachingSort(s: seq<int>, x: int)
    ensures Reaching(Sort(s), x) == Reaching(s, x)
  {
    if s != [] {
      ReachingSort(s[1..], x);
      SortSorts(s[1..]);
      ReachingInsert(s[0], Sort(s[1..]), x);
      assert ([s[0]] + Sort(s[1..]))[1..] == Sort(s[1..]);
    }
  }

  lemma {:induction false} ReachingAll(s: seq<int>, x: int)
    requires forall i :: 0 <= i < |s| ==> s[i] >= x
    ensures Reaching(s, x) == |s|
  {
    if s != [] { ReachingAll(s[1..], x); }
  }

  lemma {:induction false} ReachingNone(s: seq<int>, x: int)
    requires forall i :: 0 <= i < |s| ==> s[i] < x
    ensures Reaching(s, x) == 0
  {
    if s != [] { ReachingNone(s[1..], x); }
  }

  /** Counting positions and collecting peers agree. */
  lemma {:induction false} ReachingIsPeers(s: seq<int>, x: int)
    ensures |PeersReaching(s, x)| == Reaching(s, x)
  {
    if s == [] {
      assert PeersReaching(s, x) == {};
    } else {
      var n := |s| - 1;
      assert s == s[..n] + [s[n]];
      ReachingSplit(s[..n], [s[n]], x);
      ReachingIsPeers(s[..n], x);
      assert forall i :: 0 <= i < n ==> s[..n][i] == s[i];
      if s[n] >= x {
        assert PeersReaching(s, x) == PeersReaching(s[..n], x) + {n};
      } else {
        assert PeersReaching(s, x) == PeersReaching(s[..n], x);
      }
    }
  }

  lemma SortedReaching(r: seq<int>, x: int)
    requires r != [] && Ascending(r)
    ensures Reaching(r, x) >= |r| - |r| / 2 <==> x <= r[|r| / 2]
  {
    var m := |r| / 2;
    if x <= r[m] { UpperReach(r, m, x); } else { LowerMiss(r, m, x); }
  }

  lemma UpperReach(r: seq<int>, m: nat, x: int)
    requires Ascending(r) && m < |r| && x <= r[m]
    ensures Reaching(r, x) >= |r| - m
  {
    var low, high := r[..m], r[m..];
    forall i | 0 <= i < |high| ensures high[i] >= x { assert high[i] == r[m + i]; }
    ReachingAll(high, x);
    ReachingSplit(low, high, x);
    assert r == low + high;
  }

  lemma LowerMiss(r: seq<int>, m: nat, x: int)
    requires Ascending(r) && m < |r| && r[m] < x
    ensures Reaching(r, x) < |r| - m
  {
    var low, high := r[..m + 1], r[m + 1..];
    forall i | 0 <= i < |low| ensures low[i] < x { assert low[i] == r[i] <= r[m]; }
    ReachingNone(low, x);
    ReachingSplit(low, high, x);
    assert r == low + high;
  }

  /** The middle of the sorted list is exactly the largest value that at least
      n - n/2 peers reach. */
  lemma MedianIsQuorum(s: seq<int>, x: int)
    requires s != []
    ensures |PeersReaching(s, x)| >= |s| - |s| / 2 <==> x <= Median(s)
  {
    ReachingIsPeers(s, x);
    ReachingSort(s, x);
    SortSorts(s);
    SortedReaching(Sort(s), x);
  }

  /** A positive commit value is reached by n - n/2 peers other than the leader,
      whose own slot is never advanced. */
  lemma CommitQuorumExcludesLeader(matchIndex: seq<int>, self: int)
    requires 0 <= self < |matchIndex| && matchIndex[self] == 0
    requires Median(matchIndex) > 0
    ensures self !in PeersReaching(matchIndex, Median(matchIndex))
    ensures 2 * |PeersReaching(matchIndex, Median(matchIndex))| >= |matchIndex|
  {
    MedianIsQuorum(matchIndex, Median(matchIndex));
  }

  /** A set of ids of a cluster of n nodes. */
  ghost predicate IdsBelow(s: set<int>, n: nat) {
    forall v :: v in s ==> 0 <= v < n
  }

  lemma {:induction false} IdsBound(s: set<int>, n: nat)
    requires IdsBelow(s, n)
    ensures |s| <= n
  {
    if n == 0 {
      assert forall v :: v in s ==> v in {};
      assert s == {};
    } else {
      IdsBound(s - {n - 1}, n - 1);
    }
  }

  /** Two sets of ids that together outnumber the cluster share a member. */
  lemma QuorumsMeet(n: nat, a: set<int>, b: set<int>) returns (v: int)
    requires IdsBelow(a, n) && IdsBelow(b, n) && |a| + |b| > n
    ensures v in a && v in b
  {
    IdsBound(a + b, n);
    assert |a + b| == |a| + |b| - |a * b|;
    v := AnyMember(a * b);
  }
}
