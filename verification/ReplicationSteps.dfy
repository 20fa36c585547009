/** The log steps keep the invariant: client start, send, deliver, reply, and the
    steps that only forget something (losses, crash) or apply entries. */
module ReplicationSteps {
  import opened RaftTypes
  import opened RaftHandlers
  import opened Quorum
  import opened Sets
  import opened Cluster
  import opened ClusterInvariant
  import opened HistoryGrowth
  import opened Frames

  // ----- client start -----

  lemma StartGrows(h: History, h': History, n: nat, i: int, s: NodeState, s': NodeState, command: string)
    requires HistoryInv(h, n) && NodeInv(h, n, i, s) && s.role == LEADER && s' == Start(s, command)
    requires s.term in h.elections
    requires h' == h.(elections := h.elections[s.term := h.elections[s.term].(log := s'.log)])
    ensures Grows(h, h') && Rooted(h', s'.log) && ElectionInv(h', n, s.term)
  {
    var t := s.term;
    assert ElectionInv(h, n, t);
    assert s.log <= s'.log;
    assert Grows(h, h');
    RootedGrows(h, h', s.log);
    forall k | 0 <= k < |s'.log| ensures RootedAt(h', s'.log, k) {
      if k < |s.log| {
        assert RootedAt(h', s.log, k);
        assert s'.log[..k + 1] == s.log[..k + 1];
      } else {
        assert s'.log[..k + 1] == s'.log;
      }
    }
    RootedSorted(h, n, s.log);
    assert forall k :: 0 <= k < |s.log| ==> s'.log[k] == s.log[k];
  }

  lemma StartNode(h: History, h': History, n: nat, i: int, s: NodeState, s': NodeState, command: string)
    requires HistoryInv(h, n) && NodeInv(h, n, i, s) && s.role == LEADER && s' == Start(s, command)
    requires s.term in h.elections
    requires h' == h.(elections := h.elections[s.term := h.elections[s.term].(log := s'.log)])
    ensures NodeInv(h', n, i, s')
  {
    StartGrows(h, h', n, i, s, s', command);
    AckedSame(h, h');
    RemembersAllGrows(h, h', i, s.disk.log, s'.disk.log, s.term + 1, s'.term + 1);
    StartCommit(h, h', n, i, s, s');
    StartProgress(h, h', n, i, s, s');
    assert TermInv(h', i, s');
  }

  lemma AckedSame(h: History, h': History)
    requires h'.acked == h.acked
    ensures forall t, v :: Acked(h', t, v) == Acked(h, t, v)
  {}

  lemma StartProgress(h: History, h': History, n: nat, i: int, s: NodeState, s': NodeState)
    requires LeaderInv(h, n, i, s) && s.role == LEADER && h'.acked == h.acked
    requires s.log <= s'.log && s' == s.(log := s'.log)
    ensures forall p :: 0 <= p < n ==> ProgressInv(h', s', p)
  {
    forall p | 0 <= p < n ensures ProgressInv(h', s', p) {
      assert ProgressInv(h, s, p) && Acked(h', s.term, p) == Acked(h, s.term, p);
    }
  }

  lemma StartCommit(h: History, h': History, n: nat, i: int, s: NodeState, s': NodeState)
    requires CommitInv(h, n, i, s) && Grows(h, h') && s.log <= s'.log && s' == s.(log := s'.log)
    ensures CommitInv(h', n, i, s')
  {
    if s.commitIndex > 0 {
      var t, j :| NodeCommittedVia(h, n, i, s, t, j);
      CommittedViaGrows(h, h', n, s.log, s.commitIndex, t, j);
      assert Acked(h, t, i) <= Acked(h', t, i);
      assert s'.log[..s.commitIndex] == s.log[..s.commitIndex];
      assert NodeCommittedVia(h', n, i, s', t, j);
    }
  }

  lemma StartKeeps(c: State, i: int, command: string)
    requires Inv(c) && Enabled(c, ClientStart(i, command))
    ensures Inv(DoClientStart(c, i, command))
  {
    var c' := DoClientStart(c, i, command);
    var n, s, s', h, h' := |c.nodes|, c.nodes[i], c'.nodes[i], c.history, c'.history;
    assert NodeInv(h, n, i, s);
    StartGrows(h, h', n, i, s, s', command);
    HistoryKept(h, h', n);
    StartNodes(c, i, command);
    VoteMessagesKept(c, c');
    StartAppends(c, c', i);
  }

  lemma StartNodes(c: State, i: int, command: string)
    requires Inv(c) && Enabled(c, ClientStart(i, command)) && c.nodes[i].term in c.history.elections
    requires Grows(c.history, DoClientStart(c, i, command).history)
    ensures NodesInv(DoClientStart(c, i, command))
  {
    var c' := DoClientStart(c, i, command);
    var h, h' := c.history, c'.history;
    StartNode(h, h', |c.nodes|, i, c.nodes[i], c'.nodes[i], command);
    AckedSame(h, h');
    assert forall k :: k != i ==> SameFor(h, h', k);
    NodesKept(c, c', i);
  }

  lemma StartAppends(c: State, c': State, i: int)
    requires AppendsInv(c) && IsNode(c, i) && Grows(c.history, c'.history) && c'.history.acked == c.history.acked
    requires c'.appends == c.appends
    requires |c'.nodes| == |c.nodes| && c'.nodes == c.nodes[i := c.nodes[i].(log := c'.nodes[i].log)]
    ensures AppendsInv(c')
  {
    AckedSame(c.history, c'.history);
    AppendsKept(c, c');
  }

  // ----- send -----

  lemma SendInRange(c: State, i: int, p: int)
    requires Inv(c) && Enabled(c, SendAppend(i, p))
    ensures InRange(c, SendAppend(i, p))
  {
    assert NodeInv(c.history, |c.nodes|, i, c.nodes[i]);
    assert ProgressInv(c.history, c.nodes[i], p);
  }

  lemma SentSnapshot(h: History, n: nat, i: int, p: int, s: NodeState)
    requires HistoryInv(h, n) && NodeInv(h, n, i, s) && s.role == LEADER && 0 <= p < n
    requires CanBuildAppend(s, p)
    ensures SnapshotInv(h, n, s.term, BuildAppend(s, i, p))
  {
    var a, t := BuildAppend(s, i, p), s.term;
    assert ElectionInv(h, n, t);
    if s.commitIndex > 0 {
      var u, j :| NodeCommittedVia(h, n, i, s, u, j);
      assert LeaderCommittedVia(h, n, t, a.leaderCommit, u, j);
    }
    assert a.entries == s.log[a.prevLogIndex..|s.log|];
  }

  lemma SendMessages(c: State, i: int, p: int)
    requires Inv(c) && Enabled(c, SendAppend(i, p)) && InRange(c, SendAppend(i, p))
    ensures AppendsInv(DoSendAppend(c, i, p))
  {
    var c' := DoSendAppend(c, i, p);
    var n, s, h := |c.nodes|, c.nodes[i], c.history;
    assert NodeInv(h, n, i, s);
    SentSnapshot(h, n, i, p, s);
    forall t, q | (t, q) in c'.appends ensures AppendAt(c', t, q) {
      if (t, q) == (s.term, p) {
        assert AckInv(h, t, p);
      } else {
        assert AppendAt(c, t, q);
      }
    }
  }

  lemma SendKeeps(c: State, i: int, p: int)
    requires Inv(c) && Enabled(c, SendAppend(i, p)) && InRange(c, SendAppend(i, p))
    ensures Inv(DoSendAppend(c, i, p))
  {
    var c' := DoSendAppend(c, i, p);
    SendMessages(c, i, p);
    SameForAll(c.history);
    NodesKept(c, c', i);
    VoteMessagesKept(c, c');
  }

  // ----- deliver -----

  /** The follower's search finds the first entry of the term. */
  lemma {:induction false} FirstOfTermIsFirst(log: Log, term: int, k: int, at: int)
    requires 1 <= k <= at <= |log| && log[at - 1].term == term
    ensures k <= FirstOfTerm(log, term, k) <= at && log[FirstOfTerm(log, term, k) - 1].term == term
    ensures forall x :: k - 1 <= x < FirstOfTerm(log, term, k) - 1 ==> log[x].term != term
    decreases at - k
  {
    if log[k - 1].term != term { FirstOfTermIsFirst(log, term, k + 1, at); }
  }

  /** The consistency check: the log reaches the previous position and holds the
      previous entry's term there. */
  predicate Consistent(s: NodeState, a: AppendArgs)
    requires a.prevLogIndex >= 0
  {
    a.prevLogIndex <= |s.log| && (a.prevLogIndex > 0 ==> s.log[a.prevLogIndex - 1].term == a.prevLogTerm)
  }

  predicate Adopted(s: NodeState, s': NodeState, a: AppendArgs) {
    && s'.term == a.term && s'.role == FOLLOWER
    && s'.votedFor == (if a.term > s.term then NO_VOTE else s.votedFor)
    && s'.nextIndex == s.nextIndex && s'.matchIndex == s.matchIndex && s'.lastApplied == s.lastApplied
  }

  /** The follower after an accepted append. */
  predicate Taken(s: NodeState, s': NodeState, a: AppendArgs)
    requires 0 <= a.prevLogIndex <= |s.log|
  {
    && Adopted(s, s', a) && s'.log == s.log[..a.prevLogIndex] + a.entries
    && s'.disk == Persisted(s'.term, s'.votedFor, s'.log)
    && s'.commitIndex == if s.commitIndex < a.leaderCommit then Min(a.leaderCommit, |s'.log|) else s.commitIndex
  }

  /** An append is accepted exactly when it is not stale and the log is consistent
      with it; then the log is cut at the previous position and extended. */
  lemma AppendEffect(s: NodeState, a: AppendArgs)
    requires a.prevLogIndex >= 0
    ensures var (s', r) := GuardedAppendEntries(s, a);
      && r.term == s.term
      && (r.success <==> a.term >= s.term && Consistent(s, a))
      && (r.success ==> Taken(s, s', a))
      && (a.term < s.term ==> s' == s)
      && (!r.success && a.term >= s.term ==>
            && Adopted(s, s', a) && s'.log == s.log && s'.commitIndex == s.commitIndex
            && s'.disk == (if a.term > s.term then Persisted(s'.term, s'.votedFor, s'.log) else s.disk)
            && if |s.log| < a.prevLogIndex then r.conflictTerm == NOT_SET && r.conflictIndex == |s.log|
               else r.conflictTerm == s.log[a.prevLogIndex - 1].term
                    && 1 <= r.conflictIndex <= a.prevLogIndex)
  {
    if 0 < a.prevLogIndex <= |s.log| {
      FirstOfTermIsFirst(s.log, s.log[a.prevLogIndex - 1].term, 1, a.prevLogIndex);
    }
  }

  /** What a consistent follower holds after the append is the leader's log as sent. */
  lemma AcceptedIsSnapshot(h: History, n: nat, p: int, s: NodeState, t: int, a: AppendArgs)
    requires HistoryInv(h, n) && NodeInv(h, n, p, s) && SnapshotInv(h, n, t, a) && Consistent(s, a)
    ensures s.log[..a.prevLogIndex] + a.entries == LeaderLog(h, t)[..a.prevLogIndex + |a.entries|]
  {
    var log, prev := LeaderLog(h, t), a.prevLogIndex;
    assert ElectionInv(h, n, t);
    if prev > 0 {
      RootedLogsMatch(h, s.log, log);
      assert s.log[..prev - 1 + 1] == log[..prev - 1 + 1];
    }
    assert log[..prev] + log[prev..prev + |a.entries|] == log[..prev + |a.entries|];
  }

  /** The append request that is being delivered, seen from the follower. */
  ghost predicate Delivery(h: History, n: nat, p: int, s: NodeState, t: int, a: AppendArgs) {
    && HistoryInv(h, n) && NodeInv(h, n, p, s) && SnapshotInv(h, n, t, a)
    && 0 <= p < n && p != a.leaderId && Acked(h, t, p) <= a.prevLogIndex + |a.entries|
  }

  ghost predicate Accepts(h: History, h': History, p: int, s: NodeState, t: int, a: AppendArgs)
    requires a.prevLogIndex >= 0
  {
    && s.term <= t && Consistent(s, a)
    && h' == h.(acked := h.acked[(t, p) := a.prevLogIndex + |a.entries|])
  }

  lemma AcceptHistory(h: History, h': History, n: nat, p: int, s: NodeState, t: int, a: AppendArgs)
    requires Delivery(h, n, p, s, t, a) && Accepts(h, h', p, s, t, a)
    ensures HistoryInv(h', n) && Grows(h, h') && forall k :: k != p ==> SameFor(h, h', k)
  {
    forall u, v ensures Acked(h', u, v) == if (u, v) == (t, p) then a.prevLogIndex + |a.entries| else Acked(h, u, v) {}
    assert Grows(h, h');
    forall u | u in h'.elections ensures ElectionInv(h', n, u) { ElectionKept(h, h', n, u); }
    forall u, k | (u, k) in h'.campaigns ensures CampaignInv(h', n, u, k) { CampaignKept(h, h', n, u, k); }
    forall u, v | (u, v) in h'.ballots ensures BallotInv(h', u, v) {
      assert v == p ==> u <= s.term;
      BallotKept(h, h', u, v);
    }
    forall u, v ensures Acked(h', u, v) >= 0 && AckInv(h', u, v) {
      assert Acked(h, u, v) >= 0 && AckInv(h, u, v);
    }
  }

  /** After the append the follower still remembers everything: older entries either
      lie in the new leader's initial log or have just been overwritten by it. */
  lemma AcceptRemembers(h: History, h': History, n: nat, p: int, s: NodeState, t: int, a: AppendArgs)
    requires Delivery(h, n, p, s, t, a) && Accepts(h, h', p, s, t, a)
    ensures RemembersAll(h', p, LeaderLog(h, t)[..a.prevLogIndex + |a.entries|], t + 1)
  {
    var log := LeaderLog(h, t)[..a.prevLogIndex + |a.entries|];
    assert ElectionInv(h, n, t);
    assert h.elections[t].base <= log;
    var hi := t + 1;
    forall u, j | u < hi && 0 < j <= Acked(h', u, p) ensures Remembered(h', u, j, log, hi) {
      if u < t {
        assert Acked(h', u, p) == Acked(h, u, p) && AckInv(h, u, p);
        OlderIsRemembered(h', t, u, j, log);
      } else {
        assert LeaderLog(h', u)[..j] == log[..j];
      }
    }
  }

  /** An entry of an older leader is in the log, or the new leader was elected without it. */
  lemma OlderIsRemembered(h: History, t: int, u: int, j: int, log: Log)
    requires t in h.elections && u in h.elections && u < t && 0 <= j <= |LeaderLog(h, u)|
    requires h.elections[t].base <= log
    ensures Remembered(h, u, j, log, t + 1)
  {
    if !(LeaderLog(h, u)[..j] <= h.elections[t].base) { assert Lacks(h, t, u, j); }
  }

  /** The follower's committed prefix survives the cut: it lies below a commit point
      of the same leader, or of an earlier one whose entries this leader has. */
  lemma AcceptKeepsCommitted(h: History, n: nat, p: int, s: NodeState, t: int, a: AppendArgs)
    requires Delivery(h, n, p, s, t, a) && s.term <= t && Consistent(s, a)
    ensures var end := a.prevLogIndex + |a.entries|;
      s.commitIndex <= end && LeaderLog(h, t)[..end][..s.commitIndex] == s.log[..s.commitIndex]
  {
    var log, c := LeaderLog(h, t), s.commitIndex;
    assert ElectionInv(h, n, t);
    if c > 0 {
      var u, j :| NodeCommittedVia(h, n, p, s, u, j);
      if u < t {
        LeaderCompleteness(h, n, u, j, t);
        var early := LeaderLog(h, u)[..j];
        assert early <= log && |early| == j;
        assert log[..c] == early[..c];
      }
    }
  }

  lemma AcceptCommit(h: History, h': History, n: nat, p: int, s: NodeState, s': NodeState, t: int, a: AppendArgs)
    requires Delivery(h, n, p, s, t, a) && Accepts(h, h', p, s, t, a)
    requires Taken(s, s', a)
    ensures CommitInv(h', n, p, s')
  {
    var end, log := a.prevLogIndex + |a.entries|, LeaderLog(h, t);
    AcceptHistory(h, h', n, p, s, t, a);
    AcceptedIsSnapshot(h, n, p, s, t, a);
    AcceptKeepsCommitted(h, n, p, s, t, a);
    assert s'.log == log[..end];
    assert Acked(h', t, p) == end;
    if s.commitIndex < a.leaderCommit {
      var u, j :| LeaderCommittedVia(h, n, t, a.leaderCommit, u, j);
      CommitPointGrows(h, h', n, u, j);
      assert s'.log[..s'.commitIndex] == log[..s'.commitIndex];
      assert NodeCommittedVia(h', n, p, s', u, j);
    } else if s.commitIndex > 0 {
      var u, j :| NodeCommittedVia(h, n, p, s, u, j);
      CommitPointGrows(h, h', n, u, j);
      assert NodeCommittedVia(h', n, p, s', u, j);
    }
  }

  lemma AcceptLog(h: History, h': History, n: nat, p: int, s: NodeState, s': NodeState, t: int, a: AppendArgs)
    requires Delivery(h, n, p, s, t, a) && Accepts(h, h', p, s, t, a) && Taken(s, s', a)
    ensures Rooted(h', s'.log) && TermsAtMost(s'.log, t) && RemembersAll(h', p, s'.log, t + 1)
  {
    var end := a.prevLogIndex + |a.entries|;
    AcceptHistory(h, h', n, p, s, t, a);
    AcceptedIsSnapshot(h, n, p, s, t, a);
    AcceptRooted(h, h', n, t, end);
    AcceptRemembers(h, h', n, p, s, t, a);
    assert s'.log == LeaderLog(h, t)[..end];
  }

  lemma AcceptNode(h: History, h': History, n: nat, p: int, s: NodeState, s': NodeState, t: int, a: AppendArgs)
    requires Delivery(h, n, p, s, t, a) && Accepts(h, h', p, s, t, a) && Taken(s, s', a)
    ensures NodeInv(h', n, p, s')
  {
    AcceptLog(h, h', n, p, s, s', t, a);
    AcceptCommit(h, h', n, p, s, s', t, a);
    FollowerTerm(h, h', n, p, s, s', t, a);
  }

  lemma AcceptRooted(h: History, h': History, n: nat, t: int, end: int)
    requires HistoryInv(h, n) && Grows(h, h') && t in h.elections && 0 <= end <= |LeaderLog(h, t)|
    ensures TermsAtMost(LeaderLog(h, t)[..end], t) && Rooted(h', LeaderLog(h, t)[..end])
  {
    var e := h.elections[t];
    assert ElectionInv(h, n, t);
    RootedPrefix(h, e.log, e.log[..end]);
    RootedGrows(h, h', e.log[..end]);
    forall k | 0 <= k < end ensures e.log[k].term <= t {
      if k < |e.base| { PrefixAt(e.base, e.log, k); }
    }
  }

  lemma FollowerTerm(h: History, h': History, n: nat, p: int, s: NodeState, s': NodeState, t: int, a: AppendArgs)
    requires Delivery(h, n, p, s, t, a) && s.term <= t && Adopted(s, s', a)
    requires h' == h || Accepts(h, h', p, s, t, a)
    ensures TermInv(h', p, s')
  {
    forall u | Acked(h', u, p) > 0 ensures u <= s'.term {
      if u != t { assert Acked(h', u, p) == Acked(h, u, p); }
    }
  }

  lemma RejectNode(h: History, n: nat, p: int, s: NodeState, s': NodeState, t: int, a: AppendArgs)
    requires Delivery(h, n, p, s, t, a) && !(s.term <= t && Consistent(s, a))
    requires s' == GuardedAppendEntries(s, a).0
    ensures NodeInv(h, n, p, s')
  {
    AppendEffect(s, a);
    if s.term <= t {
      SameForAll(h);
      FollowerTerm(h, h, n, p, s, s', t, a);
      QuietNode(h, h, n, p, s, s');
    }
  }

  /** A follower that the leader has a match with passes the consistency check. */
  lemma MatchedIsConsistent(h: History, n: nat, p: int, s: NodeState, i: int, leader: NodeState, t: int, a: AppendArgs)
    requires Delivery(h, n, p, s, t, a) && s.term <= t
    requires NodeInv(h, n, i, leader) && Leads(leader, t) && a.prevLogIndex == leader.nextIndex[p] - 1
    requires leader.matchIndex[p] > 0
    ensures Consistent(s, a)
  {
    assert ProgressInv(h, leader, p);
    var prev := a.prevLogIndex;
    assert Acked(h, t, p) >= prev > 0 && t == s.term;
    var hi := s.term + 1;
    assert RemembersAll(h, p, s.disk.log, hi);
    assert Remembered(h, t, prev, s.disk.log, hi);
    PrefixAt(LeaderLog(h, t)[..prev], s.log, prev - 1);
  }

  lemma DeliveryHolds(c: State, t: int, p: int)
    requires Inv(c) && Enabled(c, DeliverAppend(t, p))
    ensures Delivery(c.history, |c.nodes|, p, c.nodes[p], t, c.appends[(t, p)].args)
    ensures InRange(c, DeliverAppend(t, p))
  {
    assert AppendAt(c, t, p);
  }

  lemma DeliverReply(c: State, t: int, p: int)
    requires Enabled(c, DeliverAppend(t, p)) && InRange(c, DeliverAppend(t, p)) && AppendAt(c, t, p)
    requires Delivery(c.history, |c.nodes|, p, c.nodes[p], t, c.appends[(t, p)].args)
    requires var i := c.appends[(t, p)].args.leaderId; NodeInv(c.history, |c.nodes|, i, c.nodes[i])
    requires Grows(c.history, DoDeliverAppend(c, t, p).history)
    ensures AppendAt(DoDeliverAppend(c, t, p), t, p)
  {
    var c', a := DoDeliverAppend(c, t, p), c.appends[(t, p)].args;
    var i := a.leaderId;
    assert c'.nodes[i] == c.nodes[i] && c'.appends[(t, p)] == AppendReturn(a, GuardedAppendEntries(c.nodes[p], a).1);
    DeliveredReply(c.history, c'.history, |c.nodes|, p, c.nodes[p], i, c.nodes[i], t, a);
  }

  lemma DeliveredReply(h: History, h': History, n: nat, p: int, s: NodeState, i: int, leader: NodeState,
                       t: int, a: AppendArgs)
    requires Delivery(h, n, p, s, t, a) && NodeInv(h, n, i, leader) && AppendInv(h, n, leader, t, p, AppendCall(a))
    requires Grows(h, h') && h' == if GuardedAppendEntries(s, a).1.success
                                   then h.(acked := h.acked[(t, p) := a.prevLogIndex + |a.entries|]) else h
    ensures AppendInv(h', n, leader, t, p, AppendReturn(a, GuardedAppendEntries(s, a).1))
  {
    AppendEffect(s, a);
    SnapshotKept(h, h', n, t, a);
    RootedSorted(h, n, s.log);
    if s.term <= t && Leads(leader, t) && leader.matchIndex[p] > 0 {
      MatchedIsConsistent(h, n, p, s, i, leader, t, a);
    }
    if Leads(leader, t) { assert ProgressInv(h, leader, p); }
  }

  lemma DeliverNode(c: State, t: int, p: int)
    requires Inv(c) && Enabled(c, DeliverAppend(t, p)) && InRange(c, DeliverAppend(t, p))
    ensures var c' := DoDeliverAppend(c, t, p);
      && HistoryInv(c'.history, |c.nodes|) && Grows(c.history, c'.history)
      && NodeInv(c'.history, |c.nodes|, p, c'.nodes[p])
      && forall k :: k != p ==> SameFor(c.history, c'.history, k)
  {
    DeliveryHolds(c, t, p);
    DeliveredNode(c.history, DoDeliverAppend(c, t, p).history, |c.nodes|, p, c.nodes[p], t, c.appends[(t, p)].args);
  }

  lemma DeliveredNode(h: History, h': History, n: nat, p: int, s: NodeState, t: int, a: AppendArgs)
    requires Delivery(h, n, p, s, t, a)
    requires h' == if GuardedAppendEntries(s, a).1.success
                   then h.(acked := h.acked[(t, p) := a.prevLogIndex + |a.entries|]) else h
    ensures HistoryInv(h', n) && Grows(h, h') && NodeInv(h', n, p, GuardedAppendEntries(s, a).0)
    ensures forall k :: k != p ==> SameFor(h, h', k)
  {
    var s' := GuardedAppendEntries(s, a).0;
    AppendEffect(s, a);
    if s.term <= t && Consistent(s, a) {
      AcceptHistory(h, h', n, p, s, t, a);
      AcceptNode(h, h', n, p, s, s', t, a);
    } else {
      SameForAll(h);
      RejectNode(h, n, p, s, s', t, a);
    }
  }

  lemma DeliverNodes(c: State, t: int, p: int)
    requires Inv(c) && Enabled(c, DeliverAppend(t, p)) && InRange(c, DeliverAppend(t, p))
    ensures var c' := DoDeliverAppend(c, t, p);
      HistoryInv(c'.history, |c.nodes|) && Grows(c.history, c'.history) && NodesInv(c')
  {
    DeliverNode(c, t, p);
    NodesKept(c, DoDeliverAppend(c, t, p), p);
  }

  lemma DeliverKeeps(c: State, t: int, p: int)
    requires Inv(c) && Enabled(c, DeliverAppend(t, p)) && InRange(c, DeliverAppend(t, p))
    ensures Inv(DoDeliverAppend(c, t, p))
  {
    DeliverNodes(c, t, p);
    DeliverMessages(c, t, p);
    DeliverVotes(c, t, p);
  }

  lemma DeliverVotes(c: State, t: int, p: int)
    requires VotesInv(c) && Enabled(c, DeliverAppend(t, p)) && InRange(c, DeliverAppend(t, p))
    requires Grows(c.history, DoDeliverAppend(c, t, p).history)
    ensures VotesInv(DoDeliverAppend(c, t, p))
  {
    VoteMessagesKept(c, DoDeliverAppend(c, t, p));
  }

  lemma DeliverMessages(c: State, t: int, p: int)
    requires Inv(c) && Enabled(c, DeliverAppend(t, p)) && InRange(c, DeliverAppend(t, p))
    requires Grows(c.history, DoDeliverAppend(c, t, p).history)
    ensures AppendsInv(DoDeliverAppend(c, t, p))
  {
    assert AppendAt(c, t, p);
    DeliveryHolds(c, t, p);
    DeliverReply(c, t, p);
    DeliverOthers(c, t, p);
  }

  lemma DeliveredProgress(s: NodeState, a: AppendArgs, u: int, q: int)
    requires a.prevLogIndex >= 0
    ensures SameProgress(s, GuardedAppendEntries(s, a).0, u, q)
  {
    AppendEffect(s, a);
  }

  lemma DeliverOthers(c: State, t: int, p: int)
    requires Inv(c) && Enabled(c, DeliverAppend(t, p)) && InRange(c, DeliverAppend(t, p))
    requires Grows(c.history, DoDeliverAppend(c, t, p).history)
    ensures var c' := DoDeliverAppend(c, t, p);
      forall u, q :: (u, q) in c'.appends && (u, q) != (t, p) ==> AppendAt(c', u, q)
  {
    var c' := DoDeliverAppend(c, t, p);
    forall u, q | (u, q) in c'.appends && (u, q) != (t, p) ensures AppendAt(c', u, q) {
      OtherDelivered(c, t, p, u, q);
    }
  }

  lemma OtherDelivered(c: State, t: int, p: int, u: int, q: int)
    requires AppendsInv(c) && Enabled(c, DeliverAppend(t, p)) && InRange(c, DeliverAppend(t, p))
    requires Grows(c.history, DoDeliverAppend(c, t, p).history)
    requires (u, q) in c.appends && (u, q) != (t, p)
    ensures AppendAt(DoDeliverAppend(c, t, p), u, q)
  {
    var c' := DoDeliverAppend(c, t, p);
    assert AppendAt(c, u, q);
    var rpc := c.appends[(u, q)];
    var i := rpc.args.leaderId;
    DeliveredProgress(c.nodes[p], c.appends[(t, p)].args, u, q);
    AppendKept(c.history, c'.history, |c.nodes|, c.nodes[i], c'.nodes[i], u, q, rpc);
  }

  /** A step that neither counts votes nor touches vote messages keeps them. */
  lemma VoteMessagesKept(c: State, c': State)
    requires VotesInv(c) && |c'.nodes| == |c.nodes| && Grows(c.history, c'.history)
    requires c'.votes.Keys <= c.votes.Keys && (forall k :: k in c'.votes ==> c'.votes[k] == c.votes[k])
    requires c'.history.campaigns == c.history.campaigns
    ensures VotesInv(c')
  {
    forall t, k, v | (t, k, v) in c'.votes
      ensures (t, k) in c.history.campaigns ==> v !in c'.history.campaigns[(t, k)].counted
    {
      assert VoteInv(c.history, |c.nodes|, t, k, v, c.votes[(t, k, v)]);
    }
    VotesKept(c, c');
  }

  // ----- reply -----

  /** The leader's search finds the last entry of the term. */
  lemma {:induction false} LastOfTermIsLast(log: Log, term: int, k: int, at: int)
    requires 0 <= k <= |log| && 1 <= at <= k && log[at - 1].term == term
    ensures at <= LastOfTerm(log, term, k) <= k && log[LastOfTerm(log, term, k) - 1].term == term
    decreases k
  {
    if log[k - 1].term != term { LastOfTermIsLast(log, term, k - 1, at); }
  }

  /** What the leader's search finds is an entry of the term. */
  lemma {:induction false} LastOfTermHolds(log: Log, term: int, k: int)
    requires 0 <= k <= |log|
    ensures var at := LastOfTerm(log, term, k);
      at == NOT_SET || (1 <= at <= k && log[at - 1].term == term)
    decreases k
  {
    if k > 0 && log[k - 1].term != term { LastOfTermHolds(log, term, k - 1); }
  }

  /** A rejection strictly lowers nextIndex and keeps it at least 1. */
  lemma BackUpDecreases(log: Log, a: AppendArgs, r: AppendReply)
    requires 0 <= a.prevLogIndex <= |log| && RejectionInv(a, r)
    requires a.prevLogIndex > 0 ==> a.prevLogTerm == log[a.prevLogIndex - 1].term
    ensures 1 <= BackUp(log, a.prevLogIndex, r) <= a.prevLogIndex
  {
    LastOfTermHolds(log, r.conflictTerm, a.prevLogIndex);
  }

  /** The reply of a follower reaches the leader that still leads the term. */
  ghost predicate Answer(h: History, n: nat, i: int, s: NodeState, t: int, p: int, a: AppendArgs, r: AppendReply) {
    && HistoryInv(h, n) && NodeInv(h, n, i, s) && 0 <= i < n
    && AppendInv(h, n, s, t, p, AppendReturn(a, r)) && a.leaderId == i && Leads(s, t)
  }

  lemma MatchWithinLog(h: History, n: nat, s: NodeState)
    requires HistoryInv(h, n) && s.term in h.elections && |s.nextIndex| == |s.matchIndex| == n && n > 0
    requires forall p :: 0 <= p < n ==> ProgressInv(h, s, p)
    ensures Median(s.matchIndex) <= |LeaderLog(h, s.term)|
    ensures Median(s.matchIndex) >= 1 ==> 2 * |AckedBy(h, n, s.term, Median(s.matchIndex))| >= n
  {
    var m := Median(s.matchIndex);
    MedianIsQuorum(s.matchIndex, m);
    var peers := PeersReaching(s.matchIndex, m);
    forall v | v in peers ensures v in AckedBy(h, n, s.term, m) {
      assert ProgressInv(h, s, v);
    }
    SubsetSize(peers, AckedBy(h, n, s.term, m));
    assert peers != {};
    var v := AnyMember(peers);
    assert ProgressInv(h, s, v) && AckInv(h, s.term, v);
  }

  lemma RecordedProgress(h: History, n: nat, i: int, s: NodeState, t: int, p: int, a: AppendArgs, r: AppendReply)
    requires Answer(h, n, i, s, t, p, a, r) && r.success
    ensures var s1 := RecordSuccess(s, p, |a.entries|);
      forall q :: 0 <= q < n ==> ProgressInv(h, s1, q)
  {
    var s1 := RecordSuccess(s, p, |a.entries|);
    forall q | 0 <= q < n ensures ProgressInv(h, s1, q) { assert ProgressInv(h, s, q); }
  }

  lemma ReplyInRange(h: History, n: nat, i: int, s: NodeState, t: int, p: int, a: AppendArgs, r: AppendReply)
    requires Answer(h, n, i, s, t, p, a, r)
    ensures CanHandleReply(s, p, a, r)
  {
    if r.success {
      RecordedProgress(h, n, i, s, t, p, a, r);
      MatchWithinLog(h, n, RecordSuccess(s, p, |a.entries|));
    }
  }

  /** A commit index moved by the median rule is a commit point of this leader. */
  lemma AdvancedCommit(h: History, n: nat, i: int, s: NodeState)
    requires HistoryInv(h, n) && NodeInv(h, n, i, s) && s.role == LEADER && n > 0 && CanAdvanceCommit(s)
    ensures NodeInv(h, n, i, AdvanceCommit(s))
  {
    var s' := AdvanceCommit(s);
    if s' != s {
      AdvancedCommitPoint(h, n, i, s);
      NodeWithCommit(h, n, i, s, s'.commitIndex);
    }
  }

  lemma AdvancedCommitPoint(h: History, n: nat, i: int, s: NodeState)
    requires HistoryInv(h, n) && LeaderInv(h, n, i, s) && s.role == LEADER && n > 0 && CanAdvanceCommit(s)
    requires AdvanceCommit(s) != s && s.commitIndex >= 0
    ensures NodeCommittedVia(h, n, i, AdvanceCommit(s), s.term, AdvanceCommit(s).commitIndex)
  {
    MatchWithinLog(h, n, s);
  }

  lemma NodeWithCommit(h: History, n: nat, i: int, s: NodeState, c: int)
    requires NodeInv(h, n, i, s) && s.commitIndex <= c <= |s.log|
    requires exists t, j :: NodeCommittedVia(h, n, i, s.(commitIndex := c), t, j)
    ensures NodeInv(h, n, i, s.(commitIndex := c))
  {
    var s' := s.(commitIndex := c);
    SameForAll(h);
    LeaderKept(h, h, n, i, s, s');
    assert TermInv(h, i, s');
    assert CandidateInv(h, i, s');
    assert CommitInv(h, n, i, s');
    var hi := s.term + 1;
    assert RemembersAll(h, i, s'.disk.log, hi);
  }

  lemma ProgressNode(h: History, n: nat, i: int, s: NodeState, s': NodeState)
    requires NodeInv(h, n, i, s) && s.role == LEADER && |s'.nextIndex| == |s'.matchIndex| == n
    requires s' == s.(nextIndex := s'.nextIndex, matchIndex := s'.matchIndex)
    requires forall q :: 0 <= q < n ==> ProgressInv(h, s', q)
    ensures NodeInv(h, n, i, s')
  {
    SameForAll(h);
    assert TermInv(h, i, s');
    QuietNode(h, h, n, i, s, s');
  }

  lemma SavedNode(h: History, n: nat, i: int, s: NodeState)
    requires NodeInv(h, n, i, s)
    ensures NodeInv(h, n, i, Save(s))
  {
    var s' := Save(s);
    SameForAll(h);
    assert TermInv(h, i, s');
    LeaderKept(h, h, n, i, s, s');
    QuietNode(h, h, n, i, s, s');
  }

  lemma ReplyNode(h: History, n: nat, i: int, s: NodeState, t: int, p: int, a: AppendArgs, r: AppendReply)
    requires Answer(h, n, i, s, t, p, a, r) && CanHandleReply(s, p, a, r)
    ensures NodeInv(h, n, i, HandleAppendReply(s, p, a, r))
  {
    if r.term > s.term {
      StepDownKeeps(h, n, i, s, HandleAppendReply(s, p, a, r));
    } else if r.success {
      var s1 := RecordSuccess(s, p, |a.entries|);
      RecordedProgress(h, n, i, s, t, p, a, r);
      ProgressNode(h, n, i, s, s1);
      AdvancedCommit(h, n, i, s1);
      SavedNode(h, n, i, AdvanceCommit(s1));
    } else {
      BackUpDecreases(s.log, a, r);
      var s1 := s.(nextIndex := s.nextIndex[p := BackUp(s.log, a.prevLogIndex, r)]);
      forall q | 0 <= q < n ensures ProgressInv(h, s1, q) { assert ProgressInv(h, s, q); }
      ProgressNode(h, n, i, s, s1);
      SavedNode(h, n, i, s1);
    }
  }

  lemma AnswerHolds(c: State, t: int, p: int)
    requires Inv(c) && Enabled(c, HandleReply(t, p))
    ensures var rpc := c.appends[(t, p)];
      Answer(c.history, |c.nodes|, rpc.args.leaderId, c.nodes[rpc.args.leaderId], t, p, rpc.args, rpc.reply)
    ensures InRange(c, HandleReply(t, p))
  {
    var rpc := c.appends[(t, p)];
    assert AppendAt(c, t, p);
    ReplyInRange(c.history, |c.nodes|, rpc.args.leaderId, c.nodes[rpc.args.leaderId], t, p, rpc.args, rpc.reply);
  }

  lemma ReplyEffect(s: NodeState, p: int, a: AppendArgs, r: AppendReply)
    requires CanHandleReply(s, p, a, r)
    ensures var s' := HandleAppendReply(s, p, a, r);
      && (s'.role == LEADER ==> s.role == LEADER && s'.term == s.term)
      && |s'.nextIndex| == |s.nextIndex| && |s'.matchIndex| == |s.matchIndex|
      && forall q :: 0 <= q < |s.nextIndex| && q != p ==>
           s'.nextIndex[q] == s.nextIndex[q] && s'.matchIndex[q] == s.matchIndex[q]
  {}

  lemma ReplyMessages(c: State, t: int, p: int)
    requires AppendsInv(c) && Enabled(c, HandleReply(t, p)) && InRange(c, HandleReply(t, p))
    ensures AppendsInv(DoHandleReply(c, t, p))
  {
    var c' := DoHandleReply(c, t, p);
    var rpc := c.appends[(t, p)];
    ReplyEffect(c.nodes[rpc.args.leaderId], p, rpc.args, rpc.reply);
    SameForAll(c.history);
    AppendsKept(c, c');
  }

  lemma ReplyKeeps(c: State, t: int, p: int)
    requires Inv(c) && Enabled(c, HandleReply(t, p)) && InRange(c, HandleReply(t, p))
    ensures Inv(DoHandleReply(c, t, p))
  {
    var c' := DoHandleReply(c, t, p);
    var rpc, h, n := c.appends[(t, p)], c.history, |c.nodes|;
    var i := rpc.args.leaderId;
    AnswerHolds(c, t, p);
    ReplyNode(h, n, i, c.nodes[i], t, p, rpc.args, rpc.reply);
    SameForAll(h);
    NodesKept(c, c', i);
    VoteMessagesKept(c, c');
    ReplyMessages(c, t, p);
  }

  // ----- the rest -----

  lemma ApplyKeeps(c: State, i: int)
    requires Inv(c) && Enabled(c, ApplyLog(i))
    ensures Inv(Do(c, ApplyLog(i)))
  {
    var c' := Do(c, ApplyLog(i));
    var h, n, s, s' := c.history, |c.nodes|, c.nodes[i], c'.nodes[i];
    SameForAll(h);
    AppliedNode(h, n, i, s);
    NodesKept(c, c', i);
    VoteMessagesKept(c, c');
    AppendsKept(c, c');
  }

  lemma AppliedNode(h: History, n: nat, i: int, s: NodeState)
    requires NodeInv(h, n, i, s)
    ensures NodeInv(h, n, i, ApplyCommitted(s))
  {
    var s' := ApplyCommitted(s);
    SameForAll(h);
    assert TermInv(h, i, s');
    LeaderKept(h, h, n, i, s, s');
    if s.commitIndex > 0 {
      var t, j :| NodeCommittedVia(h, n, i, s, t, j);
      assert NodeCommittedVia(h, n, i, s', t, j);
    }
    assert RemembersAll(h, i, s'.disk.log, s'.term + 1);
  }

  lemma CrashKeeps(c: State, i: int)
    requires Inv(c) && Enabled(c, Crash(i))
    ensures Inv(Do(c, Crash(i)))
  {
    var c' := Do(c, Crash(i));
    var h, n, s, s' := c.history, |c.nodes|, c.nodes[i], c'.nodes[i];
    SameForAll(h);
    CrashedNode(h, n, i, s);
    NodesKept(c, c', i);
    VoteMessagesKept(c, c');
    AppendsKept(c, c');
  }

  lemma CrashedNode(h: History, n: nat, i: int, s: NodeState)
    requires NodeInv(h, n, i, s)
    ensures NodeInv(h, n, i, Boot(n, s.disk))
  {
    var s' := Boot(n, s.disk);
    RootedPrefix(h, s.log, s'.log);
    assert TermInv(h, i, s');
    var hi := s.term + 1;
    assert RemembersAll(h, i, s'.disk.log, hi);
  }

  lemma LossKeeps(c: State, c': State)
    requires Inv(c) && c'.nodes == c.nodes && c'.history == c.history
    requires c'.votes.Keys <= c.votes.Keys && (forall k :: k in c'.votes ==> c'.votes[k] == c.votes[k])
    requires c'.appends.Keys <= c.appends.Keys && (forall k :: k in c'.appends ==> c'.appends[k] == c.appends[k])
    ensures Inv(c')
  {
    SameForAll(c.history);
    VoteMessagesKept(c, c');
    AppendsKept(c, c');
  }
}
