/** The cur_peerId cursor: each sending thread takes the peer under the cursor and
    moves it on, skipping the node itself and wrapping at the end of the peer list. */
module PeerCursor {

  datatype Pick = Pick(target: int, cursor: int)

  /** What one sending thread does to the cursor in a cluster of n peers. */
  function Next(n: int, self: int, cursor: int): Pick {
    var target := if cursor == self then cursor + 1 else cursor;
    var next := target + 1;
    Pick(target, if next == n || (next == n - 1 && self == next) then 0 else next)
  }

  /** The peers that k consecutive calls target. */
  function Targets(n: int, self: int, cursor: int, k: nat): (ts: seq<int>)
    ensures |ts| == k
    decreases k
  {
    if k == 0 then [] else
      var p := Next(n, self, cursor);
      [p.target] + Targets(n, self, p.cursor, k - 1)
  }

  /** Where k consecutive calls leave the cursor. */
  function After(n: int, self: int, cursor: int, k: nat): int
    decreases k
  {
    if k == 0 then cursor else After(n, self, Next(n, self, cursor).cursor, k - 1)
  }

  /** A value the cursor can have when it started at 0. */
  ghost predicate Reachable(n: int, self: int, cursor: int) {
    exists k: nat :: After(n, self, 0, k) == cursor
  }

  /** The cursor values of a running node, by arithmetic. */
  ghost predicate Regular(n: int, self: int, cursor: int) {
    0 <= cursor < n && cursor != self + 1 && !(cursor == self == n - 1)
  }

  /** The rank, among the other peers, of the one that is targeted next. */
  ghost function Slot(self: int, cursor: int): int {
    if cursor <= self then cursor else cursor - 1
  }

  /** The other peer of a given rank. */
  ghost function Peer(self: int, slot: int): int {
    if slot < self then slot else slot + 1
  }

  ghost function Wrap(n: int, slot: int): int {
    if slot >= n - 1 then slot - (n - 1) else slot
  }

  lemma OneCall(n: int, self: int, cursor: int)
    requires n >= 2 && 0 <= self < n && Regular(n, self, cursor)
    ensures var p := Next(n, self, cursor);
      p.target == Peer(self, Slot(self, cursor)) && Regular(n, self, p.cursor)
      && Slot(self, p.cursor) == Wrap(n, Slot(self, cursor) + 1)
  {}

  lemma {:induction false} TargetAt(n: int, self: int, cursor: int, k: nat, j: nat)
    requires n >= 2 && 0 <= self < n && Regular(n, self, cursor) && j < k <= n - 1
    ensures Targets(n, self, cursor, k)[j] == Peer(self, Wrap(n, Slot(self, cursor) + j))
    decreases k
  {
    OneCall(n, self, cursor);
    if j > 0 {
      TargetAt(n, self, Next(n, self, cursor).cursor, k - 1, j - 1);
    }
  }

  lemma {:induction false} CursorAfter(n: int, self: int, cursor: int, k: nat)
    requires n >= 2 && 0 <= self < n && Regular(n, self, cursor) && k <= n - 1
    ensures Regular(n, self, After(n, self, cursor, k))
    ensures Slot(self, After(n, self, cursor, k)) == Wrap(n, Slot(self, cursor) + k)
    decreases k
  {
    OneCall(n, self, cursor);
    if k > 0 { CursorAfter(n, self, Next(n, self, cursor).cursor, k - 1); }
  }

  lemma {:induction false} AfterRegular(n: int, self: int, cursor: int, k: nat)
    requires n >= 2 && 0 <= self < n && Regular(n, self, cursor)
    ensures Regular(n, self, After(n, self, cursor, k))
    decreases k
  {
    OneCall(n, self, cursor);
    if k > 0 { AfterRegular(n, self, Next(n, self, cursor).cursor, k - 1); }
  }

  /** The values reachable from 0 are exactly the regular ones. */
  lemma ReachableIsRegular(n: int, self: int, cursor: int)
    requires n >= 2 && 0 <= self < n
    ensures Reachable(n, self, cursor) <==> Regular(n, self, cursor)
  {
    if Reachable(n, self, cursor) {
      var k: nat :| After(n, self, 0, k) == cursor;
      AfterRegular(n, self, 0, k);
    }
    if Regular(n, self, cursor) {
      CursorAfter(n, self, 0, Slot(self, cursor));
      assert After(n, self, 0, Slot(self, cursor)) == cursor;
    }
  }

  /** Every other peer exactly once, and never the node itself. */
  ghost predicate EachOtherOnce(ts: seq<int>, n: int, self: int) {
    && (forall p :: p in ts <==> 0 <= p < n && p != self)
    && (forall i, j :: 0 <= i < j < |ts| ==> ts[i] != ts[j])
  }

  /** One round of n - 1 calls targets every other peer exactly once, never the node
      itself, and brings the cursor back to where it was. */
  lemma RoundIsFair(n: int, self: int, cursor: int)
    requires n >= 2 && 0 <= self < n && Reachable(n, self, cursor)
    ensures EachOtherOnce(Targets(n, self, cursor, n - 1), n, self)
    ensures After(n, self, cursor, n - 1) == cursor
  {
    ReachableIsRegular(n, self, cursor);
    var ts := Targets(n, self, cursor, n - 1);
    var start := Slot(self, cursor);
    forall j | 0 <= j < n - 1 ensures ts[j] == Peer(self, Wrap(n, start + j)) {
      TargetAt(n, self, cursor, n - 1, j);
    }
    forall p | 0 <= p < n && p != self ensures p in ts {
      var slot := if p < self then p else p - 1;
      var j := if slot >= start then slot - start else slot - start + n - 1;
      assert ts[j] == p;
    }
    CursorAfter(n, self, cursor, n - 1);
  }

  /** The round comes back to its start only from a reachable value: an irregular
      in-range cursor is lost for good. */
  lemma RoundReturnsIff(n: int, self: int, cursor: int)
    requires n >= 2 && 0 <= self < n && 0 <= cursor < n && !(cursor == self == n - 1)
    ensures After(n, self, cursor, n - 1) == cursor <==> Reachable(n, self, cursor)
  {
    ReachableIsRegular(n, self, cursor);
    if cursor == self + 1 {
      assert Next(n, self, cursor) == Next(n, self, self);
      assert After(n, self, cursor, n - 1) == After(n, self, self, n - 1);
      CursorAfter(n, self, self, n - 1);
    } else {
      RoundIsFair(n, self, cursor);
    }
  }

  lemma {:induction false} TargetIsNext(n: int, self: int, cursor: int, k: nat, j: nat)
    requires j < k
    ensures Targets(n, self, cursor, k)[j] == Next(n, self, After(n, self, cursor, j)).target
    decreases k
  {
    if j > 0 { TargetIsNext(n, self, Next(n, self, cursor).cursor, k - 1, j - 1); }
  }

  /** k consecutive calls target k different peers exactly when there are no more calls
      than other peers: one call too many, such as a thread of an earlier election, asks
      a peer twice. */
  lemma TargetsDistinctIff(n: int, self: int, cursor: int, k: nat)
    requires n >= 2 && 0 <= self < n && Reachable(n, self, cursor)
    ensures var ts := Targets(n, self, cursor, k);
      (forall i, j :: 0 <= i < j < |ts| ==> ts[i] != ts[j]) <==> k <= n - 1
  {
    ReachableIsRegular(n, self, cursor);
    var ts := Targets(n, self, cursor, k);
    if k <= n - 1 {
      forall j | 0 <= j < k ensures ts[j] == Peer(self, Wrap(n, Slot(self, cursor) + j)) {
        TargetAt(n, self, cursor, k, j);
      }
    } else {
      RoundIsFair(n, self, cursor);
      TargetIsNext(n, self, cursor, k, 0);
      TargetIsNext(n, self, cursor, k, n - 1);
      assert ts[0] == ts[n - 1];
    }
  }
}
