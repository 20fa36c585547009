/** Parts of the invariant that a step does not disturb. */
module Frames {
  import opened RaftTypes
  import opened RaftHandlers
  import opened Cluster
  import opened ClusterInvariant
  import opened HistoryGrowth

  /** The history recorded nothing new about node i. */
  ghost predicate SameFor(h: History, h': History, i: int) {
    && (forall t :: (t, i) in h'.ballots ==> (t, i) in h.ballots)
    && (forall t :: (t, i) in h'.campaigns ==>
          (t, i) in h.campaigns && h'.campaigns[(t, i)] == h.campaigns[(t, i)])
    && (forall t :: t in h'.elections && h'.elections[t].leader == i ==>
          t in h.elections && h'.elections[t] == h.elections[t])
    && (forall t :: Acked(h', t, i) == Acked(h, t, i))
  }

  lemma CommitKept(h: History, h': History, n: nat, i: int, s: NodeState)
    requires Grows(h, h') && CommitInv(h, n, i, s)
    ensures CommitInv(h', n, i, s)
  {
    if s.commitIndex > 0 {
      var t, j :| NodeCommittedVia(h, n, i, s, t, j);
      CommittedViaGrows(h, h', n, s.log, s.commitIndex, t, j);
      assert Acked(h, t, i) <= Acked(h', t, i);
      assert NodeCommittedVia(h', n, i, s, t, j);
    }
  }

  /** A node that does not start to lead and, while leading, changes neither its log
      nor its progress table keeps the leader part. */
  lemma LeaderKept(h: History, h': History, n: nat, i: int, s: NodeState, s': NodeState)
    requires Grows(h, h') && LeaderInv(h, n, i, s)
    requires s'.nextIndex == s.nextIndex && s'.matchIndex == s.matchIndex
    requires s'.role == LEADER ==> s.role == LEADER && s'.term == s.term && s'.log == s.log
    requires s.role == LEADER && s.term in h.elections ==> h'.elections[s.term] == h.elections[s.term]
    ensures LeaderInv(h', n, i, s')
  {
    if s'.role == LEADER {
      forall p | 0 <= p < n ensures ProgressInv(h', s', p) {
        assert ProgressInv(h, s, p);
        assert Acked(h, s.term, p) <= Acked(h', s.term, p);
      }
    }
  }

  lemma NodeKept(h: History, h': History, n: nat, i: int, s: NodeState)
    requires Grows(h, h') && SameFor(h, h', i) && NodeInv(h, n, i, s)
    ensures NodeInv(h', n, i, s)
  {
    RootedGrows(h, h', s.log);
    RemembersAllGrows(h, h', i, s.disk.log, s.disk.log, s.term + 1, s.term + 1);
    CommitKept(h, h', n, i, s);
    LeaderKept(h, h', n, i, s, s);
    assert TermInv(h', i, s);
    assert CandidateInv(h', i, s);
  }

  /** A node that keeps its log and commit index, does not fall back in term, and
      shows the parts about its vote, role and file, keeps the whole invariant. */
  lemma QuietNode(h: History, h': History, n: nat, i: int, s: NodeState, s': NodeState)
    requires NodeInv(h, n, i, s) && Grows(h, h')
    requires s'.log == s.log && s'.commitIndex == s.commitIndex && s'.lastApplied == s.lastApplied
    requires s'.term >= s.term && s.disk.log <= s'.disk.log
    requires DiskInv(s') && TermInv(h', i, s') && CandidateInv(h', i, s') && LeaderInv(h', n, i, s')
    requires h'.acked == h.acked
    ensures NodeInv(h', n, i, s')
  {
    RootedGrows(h, h', s.log);
    forall t ensures Acked(h', t, i) == Acked(h, t, i) {}
    RemembersAllGrows(h, h', i, s.disk.log, s'.disk.log, s.term + 1, s'.term + 1);
    CommitAtTerm(h, h', n, i, s, s');
  }

  /** A node that keeps its log and commit index stays committed in a later term. */
  lemma CommitAtTerm(h: History, h': History, n: nat, i: int, s: NodeState, s': NodeState)
    requires Grows(h, h') && CommitInv(h, n, i, s)
    requires s'.log == s.log && s'.commitIndex == s.commitIndex && s'.lastApplied == s.lastApplied
    requires s'.term >= s.term
    ensures CommitInv(h', n, i, s')
  {
    if s.commitIndex > 0 {
      var t, j :| NodeCommittedVia(h, n, i, s, t, j);
      CommittedViaGrows(h, h', n, s.log, s.commitIndex, t, j);
      assert Acked(h, t, i) <= Acked(h', t, i);
      assert NodeCommittedVia(h', n, i, s', t, j);
    }
  }

  lemma SameForAll(h: History)
    ensures Grows(h, h) && forall i :: SameFor(h, h, i)
  {}

  lemma StepDownKeeps(h: History, n: nat, i: int, s: NodeState, s': NodeState)
    requires NodeInv(h, n, i, s) && s'.term > s.term && s'.role == FOLLOWER && s'.votedFor == NO_VOTE
    requires s'.log == s.log && s'.disk == Persisted(s'.term, s'.votedFor, s'.log)
    requires s'.commitIndex == s.commitIndex && s'.lastApplied == s.lastApplied
    requires s'.nextIndex == s.nextIndex && s'.matchIndex == s.matchIndex
    ensures NodeInv(h, n, i, s')
  {
    SameForAll(h);
    assert TermInv(h, i, s');
    QuietNode(h, h, n, i, s, s');
  }

  lemma NodesKept(c: State, c': State, i: int)
    requires NodesInv(c) && |c'.nodes| == |c.nodes| && Grows(c.history, c'.history)
    requires forall k :: 0 <= k < |c.nodes| && k != i ==>
      c'.nodes[k] == c.nodes[k] && SameFor(c.history, c'.history, k)
    requires 0 <= i < |c.nodes| ==> NodeInv(c'.history, |c.nodes|, i, c'.nodes[i])
    ensures NodesInv(c')
  {
    forall k | 0 <= k < |c.nodes| ensures NodeInv(c'.history, |c.nodes|, k, c'.nodes[k]) {
      if k != i { NodeKept(c.history, c'.history, |c.nodes|, k, c.nodes[k]); }
    }
  }

  lemma VoteKept(h: History, h': History, n: nat, t: int, i: int, v: int, rpc: VoteRpc)
    requires Grows(h, h') && VoteInv(h, n, t, i, v, rpc)
    requires (t, i) in h.campaigns && v !in h'.campaigns[(t, i)].counted
    ensures VoteInv(h', n, t, i, v, rpc)
  {}

  lemma SnapshotKept(h: History, h': History, n: nat, t: int, a: AppendArgs)
    requires Grows(h, h') && SnapshotInv(h, n, t, a)
    ensures SnapshotInv(h', n, t, a)
  {
    var log, log' := LeaderLog(h, t), LeaderLog(h', t);
    var end := a.prevLogIndex + |a.entries|;
    assert log'[a.prevLogIndex..end] == log[a.prevLogIndex..end];
    if a.leaderCommit > 0 {
      var u, j :| LeaderCommittedVia(h, n, t, a.leaderCommit, u, j);
      CommitPointGrows(h, h', n, u, j);
      assert log'[..a.leaderCommit] == log[..a.leaderCommit];
      assert LeaderLog(h', u)[..a.leaderCommit] == LeaderLog(h, u)[..a.leaderCommit];
      assert LeaderCommittedVia(h', n, t, a.leaderCommit, u, j);
    }
  }

  /** What an append exchange with p relies on in its leader did not change. */
  ghost predicate SameProgress(s: NodeState, s': NodeState, t: int, p: int) {
    Leads(s', t) ==>
      && Leads(s, t) && |s'.nextIndex| == |s.nextIndex| && |s'.matchIndex| == |s.matchIndex|
      && (0 <= p < |s.nextIndex| ==> s'.nextIndex[p] == s.nextIndex[p])
      && (0 <= p < |s.matchIndex| ==> s'.matchIndex[p] == s.matchIndex[p])
  }

  lemma AppendKept(h: History, h': History, n: nat, s: NodeState, s': NodeState, t: int, p: int, rpc: AppendRpc)
    requires Grows(h, h') && AppendInv(h, n, s, t, p, rpc)
    requires Acked(h', t, p) == Acked(h, t, p) && SameProgress(s, s', t, p)
    ensures AppendInv(h', n, s', t, p, rpc)
  {
    SnapshotKept(h, h', n, t, rpc.args);
  }

  lemma AppendsKept(c: State, c': State)
    requires AppendsInv(c) && |c'.nodes| == |c.nodes| && Grows(c.history, c'.history)
    requires forall t, p :: (t, p) in c'.appends ==>
      && (t, p) in c.appends && c'.appends[(t, p)] == c.appends[(t, p)]
      && Acked(c'.history, t, p) == Acked(c.history, t, p)
      && forall i :: 0 <= i < |c.nodes| ==> SameProgress(c.nodes[i], c'.nodes[i], t, p)
    ensures AppendsInv(c')
  {
    forall t, p | (t, p) in c'.appends ensures AppendAt(c', t, p) {
      assert AppendAt(c, t, p);
      var rpc := c.appends[(t, p)];
      var i := rpc.args.leaderId;
      AppendKept(c.history, c'.history, |c.nodes|, c.nodes[i], c'.nodes[i], t, p, rpc);
    }
  }

  lemma VotesKept(c: State, c': State)
    requires VotesInv(c) && |c'.nodes| == |c.nodes| && Grows(c.history, c'.history)
    requires forall t, i, v :: (t, i, v) in c'.votes ==>
      && (t, i, v) in c.votes && c'.votes[(t, i, v)] == c.votes[(t, i, v)]
      && ((t, i) in c.history.campaigns ==> v !in c'.history.campaigns[(t, i)].counted)
    ensures VotesInv(c')
  {
    forall t, i, v | (t, i, v) in c'.votes ensures VoteInv(c'.history, |c.nodes|, t, i, v, c'.votes[(t, i, v)]) {
      VoteKept(c.history, c'.history, |c.nodes|, t, i, v, c.votes[(t, i, v)]);
    }
  }

  // ----- the history -----

  lemma ElectionKept(h: History, h': History, n: nat, t: int)
    requires Grows(h, h') && t in h.elections && ElectionInv(h, n, t) && h'.elections[t] == h.elections[t]
    ensures ElectionInv(h', n, t)
  {
    RootedGrows(h, h', h.elections[t].log);
  }

  lemma CampaignKept(h: History, h': History, n: nat, t: int, i: int)
    requires Grows(h, h') && (t, i) in h.campaigns && CampaignInv(h, n, t, i)
    requires h'.campaigns[(t, i)] == h.campaigns[(t, i)]
    ensures CampaignInv(h', n, t, i)
  {
    RootedGrows(h, h', h.campaigns[(t, i)].log);
  }

  lemma BallotKept(h: History, h': History, t: int, v: int)
    requires Grows(h, h') && (t, v) in h.ballots && BallotInv(h, t, v)
    requires forall u :: u < t ==> Acked(h', u, v) == Acked(h, u, v)
    ensures BallotInv(h', t, v)
  {
    var b := h.ballots[(t, v)];
    RootedGrows(h, h', b.log);
    if Decisive(h', t, v) {
      assert Decisive(h, t, v);
      forall u, j | u < t && 0 < j <= Acked(h', u, v) ensures Remembered(h', u, j, b.log, t) {
        assert Remembered(h, u, j, b.log, t);
        RememberedGrows(h, h', u, j, b.log, b.log, t, t);
      }
    }
  }

  /** Everything already in the history keeps its invariant when the step accepted no
      append; what the step added or changed has to be shown. */
  lemma HistoryKept(h: History, h': History, n: nat)
    requires HistoryInv(h, n) && Grows(h, h') && h'.acked == h.acked
    requires forall t :: t in h'.elections ==>
      ElectionInv(h', n, t) || (t in h.elections && h'.elections[t] == h.elections[t])
    requires forall t, i :: (t, i) in h'.campaigns ==>
      || CampaignInv(h', n, t, i)
      || ((t, i) in h.campaigns && h'.campaigns[(t, i)] == h.campaigns[(t, i)])
    requires forall t, v :: (t, v) in h'.ballots ==> (t, v) in h.ballots || BallotInv(h', t, v)
    ensures HistoryInv(h', n)
  {
    forall t | t in h'.elections ensures ElectionInv(h', n, t) {
      if t in h.elections && h'.elections[t] == h.elections[t] { ElectionKept(h, h', n, t); }
    }
    forall t, i | (t, i) in h'.campaigns ensures CampaignInv(h', n, t, i) {
      if (t, i) in h.campaigns && h'.campaigns[(t, i)] == h.campaigns[(t, i)] { CampaignKept(h, h', n, t, i); }
    }
    forall t, v | (t, v) in h'.ballots ensures BallotInv(h', t, v) {
      if (t, v) in h.ballots { BallotKept(h, h', t, v); }
    }
    forall t, v ensures Acked(h', t, v) >= 0 && AckInv(h', t, v) {
      assert Acked(h, t, v) >= 0 && AckInv(h, t, v);
    }
  }
}
