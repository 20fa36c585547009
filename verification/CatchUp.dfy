/** Fast back-up between one leader and one follower: repeated rounds of build,
    handle and reply bring the follower to the leader's log, with at most one
    rejection for a short log and one for each distinct term the follower holds. */
module CatchUp {
  import opened RaftTypes
  import opened RaftHandlers
  import opened Quorum
  import opened ReplicationSteps

  /** A leader, and a follower whose log matches the leader's in the sense of
      section 5.3 of the Raft paper and whose term is not ahead. */
  ghost predicate Pair(l: NodeState, f: NodeState, p: int) {
    && l.role == LEADER && f.term <= l.term
    && SortedLog(l.log) && SortedLog(f.log) && LogsMatch(l.log, f.log)
    && (forall k :: 0 <= k < |f.log| ==> f.log[k].term >= 0)
    && 0 <= p < |l.nextIndex| == |l.matchIndex|
    && 1 <= l.nextIndex[p] <= |l.log| + 1
    && l.commitIndex >= 0 && (forall q :: 0 <= q < |l.matchIndex| ==> l.matchIndex[q] <= |l.log|)
  }

  lemma MedianIsElement(s: seq<int>)
    requires s != []
    ensures exists q :: 0 <= q < |s| && s[q] == Median(s)
  {
    var r := Sort(s);
    SortSorts(s);
    assert r[|s| / 2] in multiset(r);
    assert Median(s) in multiset(s);
  }

  lemma RoundInRange(l: NodeState, f: NodeState, self: int, p: int)
    requires Pair(l, f, p)
    ensures CanBuildAppend(l, p)
    ensures var a := BuildAppend(l, self, p); CanHandleReply(l, p, a, GuardedAppendEntries(f, a).1)
  {
    var a := BuildAppend(l, self, p);
    var l1 := RecordSuccess(l, p, |a.entries|);
    MedianIsElement(l1.matchIndex);
    AppendEffect(f, a);
  }

  /** The follower accepts the leader's next request. */
  ghost predicate Agrees(l: NodeState, f: NodeState, self: int, p: int)
    requires CanBuildAppend(l, p)
  {
    Consistent(f, BuildAppend(l, self, p))
  }

  /** One send, its handling, and the handling of its reply. */
  ghost function Round(l: NodeState, f: NodeState, self: int, p: int): (NodeState, NodeState)
    requires Pair(l, f, p)
  {
    RoundInRange(l, f, self, p);
    var a := BuildAppend(l, self, p);
    var (f', r) := GuardedAppendEntries(f, a);
    (HandleAppendReply(l, p, a, r), f')
  }

  /** Where a rejected request sends the leader back to. */
  ghost predicate BackedUp(l: NodeState, f: NodeState, prev: int, next: int)
    requires 0 <= prev <= |l.log|
  {
    if |f.log| < prev then next == |f.log| + 1
    else
      && prev > 0 && 1 <= next <= prev
      && var t := f.log[prev - 1].term;
      || (next >= 2 && l.log[next - 2].term == t && forall x :: next - 1 <= x < prev ==> l.log[x].term != t)
      || (f.log[next - 1].term == t && (forall x :: 0 <= x < next - 1 ==> f.log[x].term != t)
          && forall x :: 0 <= x < prev ==> l.log[x].term != t)
  }

  lemma RejectedRound(l: NodeState, f: NodeState, self: int, p: int)
    requires Pair(l, f, p) && CanBuildAppend(l, p) && !Agrees(l, f, self, p)
    ensures var (l', f') := Round(l, f, self, p);
      && l'.log == l.log && f'.log == f.log && Pair(l', f', p)
      && l'.nextIndex[p] < l.nextIndex[p]
      && BackedUp(l, f, l.nextIndex[p] - 1, l'.nextIndex[p])
  {
    RejectedNodes(l, f, self, p);
    RejectedPosition(l, f, self, p);
  }

  /** A rejection changes the follower's term at most and the leader's nextIndex for it. */
  lemma RejectedNodes(l: NodeState, f: NodeState, self: int, p: int)
    requires Pair(l, f, p) && CanBuildAppend(l, p) && !Agrees(l, f, self, p)
    ensures var (l', f') := Round(l, f, self, p);
      && f'.log == f.log && f'.term == l.term && |l'.nextIndex| == |l.nextIndex|
      && l' == Save(l.(nextIndex := l'.nextIndex))
  {
    AppendEffect(f, BuildAppend(l, self, p));
  }

  lemma RejectedPosition(l: NodeState, f: NodeState, self: int, p: int)
    requires Pair(l, f, p) && CanBuildAppend(l, p) && !Agrees(l, f, self, p)
    ensures var next := Round(l, f, self, p).0.nextIndex;
      p < |next| && next[p] < l.nextIndex[p] && BackedUp(l, f, l.nextIndex[p] - 1, next[p])
  {
    var a := BuildAppend(l, self, p);
    var r := GuardedAppendEntries(f, a).1;
    AppendEffect(f, a);
    RejectedAt(l, f, a.prevLogIndex, r, a);
    assert Round(l, f, self, p).0.nextIndex == l.nextIndex[p := BackUp(l.log, a.prevLogIndex, r)];
  }

  /** Where the leader goes back to, in terms of the reply. */
  lemma RejectedAt(l: NodeState, f: NodeState, prev: int, r: AppendReply, a: AppendArgs)
    requires 0 <= prev <= |l.log| && a.prevLogIndex == prev && SortedLog(f.log) && a.term >= f.term
    requires forall k :: 0 <= k < |f.log| ==> f.log[k].term >= 0
    requires prev > 0 ==> a.prevLogTerm == l.log[prev - 1].term
    requires !Consistent(f, a) && r == GuardedAppendEntries(f, a).1
    ensures BackedUp(l, f, prev, BackUp(l.log, prev, r)) && BackUp(l.log, prev, r) <= prev
  {
    AppendEffect(f, a);
    if prev <= |f.log| {
      var t := f.log[prev - 1].term;
      FirstOfTermIsFirst(f.log, t, 1, prev);
      LastOfTermHolds(l.log, t, prev);
      RejectPosition(l, f, prev, t, r);
    }
  }

  lemma RejectPosition(l: NodeState, f: NodeState, prev: int, t: int, r: AppendReply)
    requires 0 < prev <= |l.log| && prev <= |f.log| && t == f.log[prev - 1].term && t >= 0
    requires l.log[prev - 1].term != t && SortedLog(f.log)
    requires r.conflictTerm == t && r.conflictIndex == FirstOfTerm(f.log, t, 1)
    ensures BackedUp(l, f, prev, BackUp(l.log, prev, r))
  {
    FirstOfTermIsFirst(f.log, t, 1, prev);
    LastOfTermHolds(l.log, t, prev);
    forall x | 0 <= x < prev && l.log[x].term == t
      ensures LastOfTerm(l.log, t, prev) != NOT_SET && x < LastOfTerm(l.log, t, prev)
    {
      LastOfTermIsLast(l.log, t, prev, x + 1);
    }
  }

  lemma AcceptedRound(l: NodeState, f: NodeState, self: int, p: int)
    requires Pair(l, f, p) && CanBuildAppend(l, p) && Agrees(l, f, self, p)
    ensures var (l', f') := Round(l, f, self, p);
      && f'.log == l.log && l'.log == l.log && l'.role == LEADER
      && p < |l'.nextIndex| == |l'.matchIndex|
      && l'.nextIndex[p] == |l.log| + 1 && l'.matchIndex[p] == |l.log|
  {
    var a := BuildAppend(l, self, p);
    AppendEffect(f, a);
    var prev := a.prevLogIndex;
    if prev > 0 { assert f.log[..prev - 1 + 1] == l.log[..prev - 1 + 1]; }
    assert f.log[..prev] + l.log[prev..] == l.log;
  }

  /** A new leader's first request carries no entries and asks for its whole log: a follower
      accepts it exactly when the leader's log is a prefix of its own. */
  lemma FirstContactIff(s: NodeState, f: NodeState, n: nat, self: int, p: int)
    requires 0 <= p < n && f.term <= s.term && LogsMatch(s.log, f.log)
    ensures var l := BecomeLeader(s, n);
      && CanBuildAppend(l, p) && BuildAppend(l, self, p).entries == []
      && (GuardedAppendEntries(f, BuildAppend(l, self, p)).1.success <==> s.log <= f.log)
  {
    var a := BuildAppend(BecomeLeader(s, n), self, p);
    AppendEffect(f, a);
    var k := |s.log|;
    if 0 < k <= |f.log| && f.log[k - 1].term == s.log[k - 1].term {
      assert s.log[..k - 1 + 1] == f.log[..k - 1 + 1];
      assert s.log[..k] == s.log;
    }
    if s.log <= f.log && k > 0 { assert f.log[k - 1] == s.log[k - 1]; }
  }

  /** Rounds until the follower accepts: the number of rejections and the final pair. */
  ghost function CatchUp(l: NodeState, f: NodeState, self: int, p: int): (nat, NodeState, NodeState)
    requires Pair(l, f, p)
    decreases l.nextIndex[p]
  {
    RoundInRange(l, f, self, p);
    var (l', f') := Round(l, f, self, p);
    if Agrees(l, f, self, p) then (0, l', f')
    else
      RejectedRound(l, f, self, p);
      var (k, l'', f'') := CatchUp(l', f', self, p);
      (k + 1, l'', f'')
  }

  /** Catch-up ends with the follower holding exactly the leader's log, and the leader
      knowing it. */
  lemma {:induction false} CatchUpConverges(l: NodeState, f: NodeState, self: int, p: int)
    requires Pair(l, f, p)
    ensures var (_, l', f') := CatchUp(l, f, self, p);
      && f'.log == l.log && l'.log == l.log
      && p < |l'.nextIndex| == |l'.matchIndex|
      && l'.nextIndex[p] == |l.log| + 1 && l'.matchIndex[p] == |l.log|
    decreases l.nextIndex[p]
  {
    RoundInRange(l, f, self, p);
    if Agrees(l, f, self, p) {
      AcceptedRound(l, f, self, p);
    } else {
      RejectedRound(l, f, self, p);
      var (l', f') := Round(l, f, self, p);
      CatchUpConverges(l', f', self, p);
    }
  }

  /** The distinct terms of the first k entries. */
  ghost function TermsOf(log: Log, k: int): set<int>
    requires k <= |log|
  {
    set x | 0 <= x < k :: log[x].term
  }

  lemma MoreTerms(log: Log, j: int, k: int)
    requires 0 <= j <= k <= |log|
    ensures TermsOf(log, j) <= TermsOf(log, k) && |TermsOf(log, j)| <= |TermsOf(log, k)|
  {
    assert TermsOf(log, k) == TermsOf(log, j) + (TermsOf(log, k) - TermsOf(log, j));
  }

  lemma FewerTerms(log: Log, j: int, k: int)
    requires 0 <= j < k <= |log| && forall x :: 0 <= x < j ==> log[x].term != log[k - 1].term
    ensures |TermsOf(log, j)| < |TermsOf(log, k)|
  {
    var t := log[k - 1].term;
    assert t in TermsOf(log, k) && t !in TermsOf(log, j);
    MoreTerms(log, j, k);
    assert TermsOf(log, k) == (TermsOf(log, j) + {t}) + (TermsOf(log, k) - TermsOf(log, j) - {t});
  }

  /** After a mismatch at prev the next request either agrees or starts at a position
      below which the conflicting term does not occur in the follower's log. */
  lemma ConflictTermFalls(l: NodeState, f: NodeState, f': NodeState, l': NodeState, self: int, p: int, prev: int)
    requires SortedLog(f.log) && 0 < prev <= |f.log| && prev <= |l.log| && l.log[prev - 1].term != f.log[prev - 1].term
    requires l'.log == l.log && f'.log == f.log && CanBuildAppend(l', p)
    requires BackedUp(l, f, prev, l'.nextIndex[p])
    ensures Agrees(l', f', self, p) ||
      forall x :: 0 <= x < l'.nextIndex[p] - 1 ==> f.log[x].term != f.log[prev - 1].term
  {
    var next, t := l'.nextIndex[p], f.log[prev - 1].term;
    if !Agrees(l', f', self, p) {
      assert next >= 2;
      forall x | 0 <= x < next - 1 ensures f.log[x].term != t {
        assert f.log[x].term <= f.log[next - 2].term <= t;
      }
    }
  }

  /** A request whose previous position lies inside the follower's log is rejected at
      most once per distinct term up to that position. */
  lemma {:induction false} MismatchBound(l: NodeState, f: NodeState, self: int, p: int)
    requires Pair(l, f, p) && l.nextIndex[p] - 1 <= |f.log|
    ensures CatchUp(l, f, self, p).0 <= |TermsOf(f.log, l.nextIndex[p] - 1)|
    decreases l.nextIndex[p]
  {
    RoundInRange(l, f, self, p);
    if !Agrees(l, f, self, p) {
      RejectedRound(l, f, self, p);
      var (l', f') := Round(l, f, self, p);
      RoundInRange(l', f', self, p);
      MismatchBound(l', f', self, p);
      MismatchStep(l, f, l', f', self, p, CatchUp(l', f', self, p).0);
    }
  }

  lemma MismatchStep(l: NodeState, f: NodeState, l': NodeState, f': NodeState, self: int, p: int, rest: nat)
    requires SortedLog(f.log) && CanBuildAppend(l, p) && CanBuildAppend(l', p)
    requires l'.log == l.log && f'.log == f.log && l'.nextIndex[p] < l.nextIndex[p]
    requires var prev := l.nextIndex[p] - 1;
      0 < prev <= |f.log| && l.log[prev - 1].term != f.log[prev - 1].term && BackedUp(l, f, prev, l'.nextIndex[p])
    requires rest <= |TermsOf(f.log, l'.nextIndex[p] - 1)| && (Agrees(l', f', self, p) ==> rest == 0)
    ensures rest + 1 <= |TermsOf(f.log, l.nextIndex[p] - 1)|
  {
    var prev := l.nextIndex[p] - 1;
    ConflictTermFalls(l, f, f', l', self, p, prev);
    if Agrees(l', f', self, p) {
      assert f.log[prev - 1].term in TermsOf(f.log, prev);
    } else {
      FewerTerms(f.log, l'.nextIndex[p] - 1, prev);
    }
  }

  /** The back-up bound: one rejection for a log that is too short, and one for each
      distinct term in the follower's log. */
  lemma RejectionBound(l: NodeState, f: NodeState, self: int, p: int)
    requires Pair(l, f, p)
    ensures CatchUp(l, f, self, p).0 <=
      (if |f.log| < l.nextIndex[p] - 1 then 1 else 0) + |TermsOf(f.log, |f.log|)|
  {
    if |f.log| < l.nextIndex[p] - 1 {
      ShortLogBound(l, f, self, p);
    } else {
      MismatchBound(l, f, self, p);
      MoreTerms(f.log, l.nextIndex[p] - 1, |f.log|);
    }
  }

  /** After a rejection for a short log the next request starts at the follower's end. */
  lemma ShortLogBound(l: NodeState, f: NodeState, self: int, p: int)
    requires Pair(l, f, p) && |f.log| < l.nextIndex[p] - 1
    ensures CatchUp(l, f, self, p).0 <= 1 + |TermsOf(f.log, |f.log|)|
  {
    RoundInRange(l, f, self, p);
    RejectedRound(l, f, self, p);
    var (l', f') := Round(l, f, self, p);
    assert CatchUp(l, f, self, p).0 == CatchUp(l', f', self, p).0 + 1;
    MismatchBound(l', f', self, p);
  }

  /** The length of the longest common prefix of two logs. */
  function CommonPrefix(a: Log, b: Log): (c: nat)
    ensures c <= |a| && c <= |b| && a[..c] == b[..c]
    ensures c < |a| && c < |b| ==> a[c] != b[c]
  {
    if a == [] || b == [] || a[0] != b[0] then 0
    else
      var c := CommonPrefix(a[1..], b[1..]);
      PrefixOneMore(a, c);
      PrefixOneMore(b, c);
      c + 1
  }

  lemma PrefixOneMore(a: Log, c: nat)
    requires c < |a|
    ensures a[..c + 1] == [a[0]] + a[1..][..c]
    ensures c + 1 < |a| ==> a[c + 1] == a[1..][c]
  {}

  lemma PrefixEnds(a: Log, b: Log, d: nat)
    requires d < |a| && d < |b| && a[d] != b[d]
    ensures CommonPrefix(a, b) <= d
  {
    var c := CommonPrefix(a, b);
    assert forall k :: 0 <= k < c ==> a[k] == a[..c][k] && b[k] == b[..c][k];
  }

  /** Back-up never overshoots: after a rejection nextIndex is still beyond the longest
      common prefix, so no entry the follower already shares is sent again. */
  lemma NeverOvershoots(l: NodeState, f: NodeState, self: int, p: int)
    requires Pair(l, f, p) && CanBuildAppend(l, p) && !Agrees(l, f, self, p)
    ensures CommonPrefix(l.log, f.log) < Round(l, f, self, p).0.nextIndex[p]
  {
    RejectedRound(l, f, self, p);
    var prev, next := l.nextIndex[p] - 1, Round(l, f, self, p).0.nextIndex[p];
    if prev <= |f.log| {
      PrefixEnds(l.log, f.log, next - 1);
    }
  }
}
