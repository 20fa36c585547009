/** The election steps keep the invariant: timeout, vote, count, win. */
module ElectionSteps {
  import opened RaftTypes
  import opened RaftHandlers
  import opened Quorum
  import opened Cluster
  import opened ClusterInvariant
  import opened HistoryGrowth
  import opened Frames
  import PeerCursor

  lemma RecipientsAreOthers(n: nat, i: int, p: int)
    requires 0 <= i < n
    ensures p in Recipients(n, i) <==> 0 <= p < n && p != i
  {
    var targets := PeerCursor.Targets(n, i, 0, n - 1);
    if n >= 2 {
      assert PeerCursor.After(n, i, 0, 0) == 0;
      PeerCursor.RoundIsFair(n, i, 0);
      assert PeerCursor.EachOtherOnce(targets, n, i);
    }
  }

  // ----- timeout -----

  lemma TimeoutHistory(c: State, i: int)
    requires Inv(c) && Enabled(c, Timeout(i))
    ensures var h' := DoTimeout(c, i).history;
      HistoryInv(h', |c.nodes|) && Grows(c.history, h') && forall k :: k != i ==> SameFor(c.history, h', k)
  {
    var s, h := c.nodes[i], c.history;
    assert NodeInv(h, |c.nodes|, i, s);
    CampaignStarts(h, DoTimeout(c, i).history, |c.nodes|, i, s);
  }

  /** A node that starts an election records a campaign and a ballot for itself. */
  lemma CampaignStarts(h: History, h': History, n: nat, i: int, s: NodeState)
    requires HistoryInv(h, n) && NodeInv(h, n, i, s) && 0 <= i < n && s.role != LEADER
    requires h' == h.(campaigns := h.campaigns[(s.term + 1, i) := Campaign(s.log, {i})],
                      ballots := h.ballots[(s.term + 1, i) := Ballot(i, s.log)])
    ensures HistoryInv(h', n) && Grows(h, h') && forall k :: k != i ==> SameFor(h, h', k)
  {
    var t := s.term + 1;
    assert (t, i) !in h.campaigns && (t, i) !in h.ballots;
    assert Grows(h, h');
    RootedGrows(h, h', s.log);
    assert CampaignInv(h', n, t, i);
    RemembersAllGrows(h, h', i, s.disk.log, s.log, t, t);
    assert BallotInv(h', t, i);
    HistoryKept(h, h', n);
  }

  lemma TimeoutNode(c: State, i: int)
    requires Inv(c) && Enabled(c, Timeout(i))
    ensures var c' := DoTimeout(c, i); NodeInv(c'.history, |c.nodes|, i, c'.nodes[i])
  {
    TimeoutHistory(c, i);
    var c' := DoTimeout(c, i);
    var s, s', h, h' := c.nodes[i], c'.nodes[i], c.history, c'.history;
    assert NodeInv(h, |c.nodes|, i, s);
    assert TermInv(h', i, s');
    assert CandidateInv(h', i, s');
    QuietNode(h, h', |c.nodes|, i, s, s');
  }

  lemma TimeoutMessages(c: State, i: int)
    requires Inv(c) && Enabled(c, Timeout(i))
    ensures var c' := DoTimeout(c, i); VotesInv(c') && AppendsInv(c')
  {
    TimeoutHistory(c, i);
    AppendsKept(c, DoTimeout(c, i));
    TimeoutVotes(c, i);
  }

  lemma TimeoutVotes(c: State, i: int)
    requires Inv(c) && Enabled(c, Timeout(i)) && Grows(c.history, DoTimeout(c, i).history)
    ensures VotesInv(DoTimeout(c, i))
  {
    var c' := DoTimeout(c, i);
    var s', h, h' := c'.nodes[i], c.history, c'.history;
    assert NodeInv(h, |c.nodes|, i, c.nodes[i]);
    forall t, k, v | (t, k, v) in c'.votes ensures VoteInv(h', |c.nodes|, t, k, v, c'.votes[(t, k, v)]) {
      if (t, k, v) in RecipientKeys(|c.nodes|, s'.term, i) {
        RequestedVote(h', |c.nodes|, i, v, s');
      } else {
        assert VoteInv(h, |c.nodes|, t, k, v, c.votes[(t, k, v)]);
        VoteKept(h, h', |c.nodes|, t, k, v, c.votes[(t, k, v)]);
      }
    }
  }

  lemma RequestedVote(h: History, n: nat, i: int, v: int, s: NodeState)
    requires 0 <= i < n && v in Recipients(n, i)
    requires (s.term, i) in h.campaigns && h.campaigns[(s.term, i)] == Campaign(s.log, {i})
    ensures VoteInv(h, n, s.term, i, v, VoteCall(BuildVoteArgs(s, i)))
  {
    RecipientsAreOthers(n, i, v);
  }

  lemma TimeoutKeeps(c: State, i: int)
    requires Inv(c) && Enabled(c, Timeout(i))
    ensures Inv(DoTimeout(c, i))
  {
    TimeoutHistory(c, i);
    TimeoutNode(c, i);
    TimeoutMessages(c, i);
    NodesKept(c, DoTimeout(c, i), i);
  }

  // ----- vote -----

  lemma VoteEffect(s: NodeState, a: VoteArgs)
    ensures var (s', r) := GuardedRequestVote(s, a);
      && s'.log == s.log && s'.commitIndex == s.commitIndex && s'.lastApplied == s.lastApplied
      && s'.nextIndex == s.nextIndex && s'.matchIndex == s.matchIndex && s'.recvVotes == s.recvVotes
      && (s' == s || s'.disk == Persisted(s'.term, s'.votedFor, s'.log))
      && s'.term == (if a.term > s.term then a.term else s.term)
      && s'.role == (if a.term > s.term then FOLLOWER else s.role)
      && (r.granted ==>
            && r.term <= a.term && s'.term == a.term && s'.votedFor == a.candidateId
            && (s.term < a.term || s.votedFor == NO_VOTE || s.votedFor == a.candidateId)
            && UpToDate(s.log, a.lastLogTerm, a.lastLogIndex))
      && (!r.granted ==> s'.votedFor == if a.term > s.term then NO_VOTE else s.votedFor)
  {}

  lemma VoteHistory(c: State, t: int, i: int, v: int)
    requires Inv(c) && Enabled(c, DeliverVote(t, i, v))
    ensures var h' := DoDeliverVote(c, t, i, v).history;
      HistoryInv(h', |c.nodes|) && Grows(c.history, h') && forall k :: k != v ==> SameFor(c.history, h', k)
  {
    var n, s, h, h' := |c.nodes|, c.nodes[v], c.history, DoDeliverVote(c, t, i, v).history;
    var rpc := c.votes[(t, i, v)];
    VoteEffect(s, rpc.args);
    assert NodeInv(h, n, v, s);
    assert VoteInv(h, n, t, i, v, rpc);
    if h' == h { SameForAll(h); } else { BallotCast(h, h', n, t, i, v, s); }
  }

  lemma BallotCast(h: History, h': History, n: nat, t: int, i: int, v: int, s: NodeState)
    requires HistoryInv(h, n) && NodeInv(h, n, v, s) && s.term <= t && (t, v) !in h.ballots && (t, i) in h.campaigns
    requires UpToDate(s.log, LastTerm(h.campaigns[(t, i)].log), |h.campaigns[(t, i)].log|)
    requires h' == h.(ballots := h.ballots[(t, v) := Ballot(i, s.log)])
    ensures HistoryInv(h', n) && Grows(h, h') && forall k :: k != v ==> SameFor(h, h', k)
  {
    assert Grows(h, h');
    RootedGrows(h, h', s.log);
    if Decisive(h', t, v) { NewBallotRemembers(h, h', n, t, v, s); }
    assert BallotInv(h', t, v);
    HistoryKept(h, h', n);
  }

  lemma NewBallotRemembers(h: History, h': History, n: nat, t: int, v: int, s: NodeState)
    requires HistoryInv(h, n) && NodeInv(h, n, v, s) && Grows(h, h')
    requires h'.acked == h.acked && h'.elections == h.elections
    requires (t, v) !in h.ballots && s.term <= t && Decisive(h, t, v)
    ensures RemembersAll(h', v, s.log, t)
  {
    assert t in h.elections ==> ElectionInv(h, n, t);
    forall u, j | u < t && 0 < j <= Acked(h', u, v) ensures Remembered(h', u, j, s.log, t) {
      assert Acked(h', u, v) == Acked(h, u, v);
      assert Remembered(h, u, j, s.disk.log, s.term + 1);
      if !(LeaderLog(h, u)[..j] <= s.disk.log) {
        var x :| u < x < s.term + 1 && Lacks(h, x, u, j);
        assert x != t;
        assert Overwritten(h, u, j, t);
      }
      RememberedGrows(h, h', u, j, s.log, s.log, t, t);
    }
  }

  lemma VoteNode(c: State, t: int, i: int, v: int)
    requires Inv(c) && Enabled(c, DeliverVote(t, i, v))
    ensures var c' := DoDeliverVote(c, t, i, v); NodeInv(c'.history, |c.nodes|, v, c'.nodes[v])
  {
    VoteHistory(c, t, i, v);
    var c' := DoDeliverVote(c, t, i, v);
    var n, s, s', h, h' := |c.nodes|, c.nodes[v], c'.nodes[v], c.history, c'.history;
    VoteEffect(s, c.votes[(t, i, v)].args);
    assert NodeInv(h, n, v, s);
    VoterTerm(c, t, i, v);
    assert CandidateInv(h', v, s');
    LeaderKept(h, h', n, v, s, s');
    QuietNode(h, h', n, v, s, s');
  }

  lemma VoterTerm(c: State, t: int, i: int, v: int)
    requires Inv(c) && Enabled(c, DeliverVote(t, i, v))
    ensures var c' := DoDeliverVote(c, t, i, v); TermInv(c'.history, v, c'.nodes[v])
  {
    var h, h', s, s' := c.history, DoDeliverVote(c, t, i, v).history, c.nodes[v], DoDeliverVote(c, t, i, v).nodes[v];
    VoteEffect(s, c.votes[(t, i, v)].args);
    assert NodeInv(h, |c.nodes|, v, s);
    assert VoteInv(h, |c.nodes|, t, i, v, c.votes[(t, i, v)]);
    forall u | Acked(h', u, v) > 0 ensures u <= s'.term { assert Acked(h', u, v) == Acked(h, u, v); }
  }

  lemma VoteKeeps(c: State, t: int, i: int, v: int)
    requires Inv(c) && Enabled(c, DeliverVote(t, i, v))
    ensures Inv(DoDeliverVote(c, t, i, v))
  {
    VoteHistory(c, t, i, v);
    VoteNode(c, t, i, v);
    var c' := DoDeliverVote(c, t, i, v);
    var n, h, h' := |c.nodes|, c.history, c'.history;
    NodesKept(c, c', v);
    VoteMessages(c, t, i, v);
    VoteAppends(c, t, i, v);
  }

  lemma VoteAppends(c: State, t: int, i: int, v: int)
    requires Inv(c) && Enabled(c, DeliverVote(t, i, v))
    requires Grows(c.history, DoDeliverVote(c, t, i, v).history)
    ensures AppendsInv(DoDeliverVote(c, t, i, v))
  {
    VoteEffect(c.nodes[v], c.votes[(t, i, v)].args);
    AppendsKept(c, DoDeliverVote(c, t, i, v));
  }

  lemma VoteMessages(c: State, t: int, i: int, v: int)
    requires Inv(c) && Enabled(c, DeliverVote(t, i, v))
    requires Grows(c.history, DoDeliverVote(c, t, i, v).history)
    ensures VotesInv(DoDeliverVote(c, t, i, v))
  {
    var c' := DoDeliverVote(c, t, i, v);
    var n, h, h' := |c.nodes|, c.history, c'.history;
    forall x, k, w | (x, k, w) in c'.votes ensures VoteInv(h', n, x, k, w, c'.votes[(x, k, w)]) {
      assert VoteInv(h, n, x, k, w, c.votes[(x, k, w)]);
      VoteKept(h, h', n, x, k, w, c.votes[(x, k, w)]);
      if (x, k, w) == (t, i, v) { VoteReplyOk(c, t, i, v); }
    }
  }

  lemma VoteReplyOk(c: State, t: int, i: int, v: int)
    requires Inv(c) && Enabled(c, DeliverVote(t, i, v))
    ensures var c' := DoDeliverVote(c, t, i, v);
      var r := c'.votes[(t, i, v)].reply;
      r.granted ==>
        r.term <= t && (t, v) in c'.history.ballots && c'.history.ballots[(t, v)].candidate == i
  {
    var s := c.nodes[v];
    VoteEffect(s, c.votes[(t, i, v)].args);
    assert NodeInv(c.history, |c.nodes|, v, s);
    assert VoteInv(c.history, |c.nodes|, t, i, v, c.votes[(t, i, v)]);
  }

  // ----- count -----

  lemma CountHistory(c: State, t: int, i: int, v: int)
    requires Inv(c) && Enabled(c, CountVote(t, i, v))
    ensures var h' := DoCountVote(c, t, i, v).history;
      HistoryInv(h', |c.nodes|) && Grows(c.history, h') && forall k :: k != i ==> SameFor(c.history, h', k)
  {
    var n, h, h' := |c.nodes|, c.history, DoCountVote(c, t, i, v).history;
    assert VoteInv(h, n, t, i, v, c.votes[(t, i, v)]);
    if h' == h { SameForAll(h); } else { VoteCounted(h, h', n, t, i, v); }
  }

  lemma VoteCounted(h: History, h': History, n: nat, t: int, i: int, v: int)
    requires HistoryInv(h, n) && (t, i) in h.campaigns && 0 <= v < n
    requires (t, v) in h.ballots && h.ballots[(t, v)].candidate == i
    requires h' == h.(campaigns := h.campaigns[(t, i) :=
      Campaign(h.campaigns[(t, i)].log, h.campaigns[(t, i)].counted + {v})])
    ensures HistoryInv(h', n) && Grows(h, h') && forall k :: k != i ==> SameFor(h, h', k)
  {
    assert Grows(h, h');
    assert CampaignInv(h, n, t, i);
    RootedGrows(h, h', h.campaigns[(t, i)].log);
    assert CampaignInv(h', n, t, i);
    HistoryKept(h, h', n);
  }

  lemma CountNode(c: State, t: int, i: int, v: int)
    requires Inv(c) && Enabled(c, CountVote(t, i, v))
    ensures var c' := DoCountVote(c, t, i, v); NodeInv(c'.history, |c.nodes|, i, c'.nodes[i])
  {
    CountHistory(c, t, i, v);
    var c' := DoCountVote(c, t, i, v);
    var n, s, s', h, h' := |c.nodes|, c.nodes[i], c'.nodes[i], c.history, c'.history;
    assert NodeInv(h, n, i, s);
    assert VoteInv(h, n, t, i, v, c.votes[(t, i, v)]);
    if c.votes[(t, i, v)].reply.term > s.term {
      StepDownKeeps(h, n, i, s, s');
    } else {
      CountTerm(c, t, i, v);
      LeaderKept(h, h', n, i, s, s');
      QuietNode(h, h', n, i, s, s');
    }
  }

  lemma CountTerm(c: State, t: int, i: int, v: int)
    requires Inv(c) && Enabled(c, CountVote(t, i, v)) && c.votes[(t, i, v)].reply.term <= c.nodes[i].term
    ensures var c' := DoCountVote(c, t, i, v);
      TermInv(c'.history, i, c'.nodes[i]) && CandidateInv(c'.history, i, c'.nodes[i])
  {
    var h, h' := c.history, DoCountVote(c, t, i, v).history;
    assert NodeInv(h, |c.nodes|, i, c.nodes[i]);
    assert VoteInv(h, |c.nodes|, t, i, v, c.votes[(t, i, v)]);
    forall u ensures Acked(h', u, i) == Acked(h, u, i) {}
  }

  lemma CountKeeps(c: State, t: int, i: int, v: int)
    requires Inv(c) && Enabled(c, CountVote(t, i, v))
    ensures Inv(DoCountVote(c, t, i, v))
  {
    CountHistory(c, t, i, v);
    CountNode(c, t, i, v);
    var c' := DoCountVote(c, t, i, v);
    NodesKept(c, c', i);
    CountVotes(c, t, i, v);
    CountAppends(c, t, i, v);
  }

  lemma CountVotes(c: State, t: int, i: int, v: int)
    requires Inv(c) && Enabled(c, CountVote(t, i, v))
    requires Grows(c.history, DoCountVote(c, t, i, v).history)
    ensures VotesInv(DoCountVote(c, t, i, v))
  {
    var c' := DoCountVote(c, t, i, v);
    var n, h, h' := |c.nodes|, c.history, c'.history;
    forall x, k, w | (x, k, w) in c'.votes
      ensures (x, k) in h.campaigns ==> w !in h'.campaigns[(x, k)].counted
    {
      assert VoteInv(h, n, x, k, w, c.votes[(x, k, w)]);
    }
    VotesKept(c, c');
  }

  lemma CountAppends(c: State, t: int, i: int, v: int)
    requires Inv(c) && Enabled(c, CountVote(t, i, v))
    requires Grows(c.history, DoCountVote(c, t, i, v).history)
    ensures AppendsInv(DoCountVote(c, t, i, v))
  {
    AppendsKept(c, DoCountVote(c, t, i, v));
  }

  // ----- win -----

  /** No other election was won in the candidate's term: two majorities of voters
      would share a voter, and a ballot names one candidate. */
  lemma TermIsFree(c: State, i: int)
    requires Inv(c) && Enabled(c, Win(i))
    ensures c.nodes[i].term !in c.history.elections
  {
    var n, s, h := |c.nodes|, c.nodes[i], c.history;
    assert NodeInv(h, n, i, s);
    var t := s.term;
    assert CampaignInv(h, n, t, i);
    if t in h.elections {
      assert ElectionInv(h, n, t);
      var v := QuorumsMeet(n, h.elections[t].voters, h.campaigns[(t, i)].counted);
      assert false;
    }
  }

  lemma WinHistory(c: State, i: int)
    requires Inv(c) && Enabled(c, Win(i))
    ensures var h' := DoWin(c, i).history;
      HistoryInv(h', |c.nodes|) && Grows(c.history, h') && forall k :: k != i ==> SameFor(c.history, h', k)
  {
    TermIsFree(c, i);
    var n, s, h, h' := |c.nodes|, c.nodes[i], c.history, DoWin(c, i).history;
    assert NodeInv(h, n, i, s);
    assert CampaignInv(h, n, s.term, i);
    WonElection(h, h', n, i, s);
    HistoryKept(h, h', n);
  }

  lemma WonElection(h: History, h': History, n: nat, i: int, s: NodeState)
    requires HistoryInv(h, n) && NodeInv(h, n, i, s) && WinsElection(s, n) && s.term !in h.elections && 0 <= i < n
    requires (s.term, i) in h.campaigns
    requires h' == h.(elections :=
      h.elections[s.term := Election(i, h.campaigns[(s.term, i)].counted, s.log, s.log)])
    ensures Grows(h, h') && ElectionInv(h', n, s.term)
  {
    assert CampaignInv(h, n, s.term, i);
    assert Grows(h, h');
    RootedGrows(h, h', s.log);
    RootedSorted(h, n, s.log);
  }

  lemma WinNode(c: State, i: int)
    requires Inv(c) && Enabled(c, Win(i))
    ensures var c' := DoWin(c, i); NodeInv(c'.history, |c.nodes|, i, c'.nodes[i])
  {
    TermIsFree(c, i);
    WinHistory(c, i);
    var c' := DoWin(c, i);
    var n, s, s', h, h' := |c.nodes|, c.nodes[i], c'.nodes[i], c.history, c'.history;
    assert NodeInv(h, n, i, s);
    forall u ensures Acked(h', u, i) == Acked(h, u, i) {}
    assert TermInv(h', i, s');
    forall p | 0 <= p < n ensures ProgressInv(h', s', p) {
      assert Acked(h, s.term, p) >= 0 && Acked(h', s.term, p) == Acked(h, s.term, p);
    }
    assert LeaderInv(h', n, i, s');
    QuietNode(h, h', n, i, s, s');
  }

  lemma WinKeeps(c: State, i: int)
    requires Inv(c) && Enabled(c, Win(i))
    ensures Inv(DoWin(c, i))
  {
    TermIsFree(c, i);
    WinHistory(c, i);
    WinNode(c, i);
    var c' := DoWin(c, i);
    NodesKept(c, c', i);
    WinVotes(c, i);
    WinAppends(c, i);
  }

  lemma WinVotes(c: State, i: int)
    requires Inv(c) && Enabled(c, Win(i)) && Grows(c.history, DoWin(c, i).history)
    ensures VotesInv(DoWin(c, i))
  {
    var c' := DoWin(c, i);
    forall t, k, v | (t, k, v) in c'.votes ensures (t, k) in c.history.campaigns ==>
      v !in c'.history.campaigns[(t, k)].counted
    {
      assert VoteInv(c.history, |c.nodes|, t, k, v, c.votes[(t, k, v)]);
    }
    VotesKept(c, c');
  }

  lemma WinAppends(c: State, i: int)
    requires Inv(c) && Enabled(c, Win(i)) && Grows(c.history, DoWin(c, i).history)
    requires c.nodes[i].term !in c.history.elections
    ensures AppendsInv(DoWin(c, i))
  {
    var c' := DoWin(c, i);
    forall t, p | (t, p) in c'.appends ensures AppendAt(c', t, p) {
      assert AppendAt(c, t, p);
      var rpc := c.appends[(t, p)];
      var k := rpc.args.leaderId;
      assert t != c.nodes[i].term;
      AppendKept(c.history, c'.history, |c.nodes|, c.nodes[k], c'.nodes[k], t, p, rpc);
    }
  }
}
