/** What every run of the cluster guarantees: the five safety properties of Figure 3
    of the Raft paper, between any two moments of a run and across crashes, and the
    index bounds that keep every log access in range. */
module Safety {
  import opened RaftTypes
  import opened RaftHandlers
  import opened Cluster
  import opened ClusterInvariant
  import opened HistoryGrowth
  import opened Frames
  import opened ElectionSteps
  import opened ReplicationSteps
  import opened Sets

  lemma InitHolds(c: State, n: nat)
    requires Init(c, n) && n > 0
    ensures Inv(c)
  {
    forall i | 0 <= i < n ensures NodeInv(c.history, n, i, c.nodes[i]) {
      assert c.nodes[i] == Boot(n, FRESH_DISK);
    }
  }

  /** In every state that satisfies the invariant, an enabled step finds all the log
      positions it reads. */
  lemma StepsInRange(c: State, step: Step)
    requires Inv(c) && Enabled(c, step)
    ensures InRange(c, step)
  {
    match step
    case SendAppend(i, p) => SendInRange(c, i, p);
    case DeliverAppend(t, p) => DeliveryHolds(c, t, p);
    case HandleReply(t, p) => AnswerHolds(c, t, p);
    case _ =>
  }

  lemma StepKeeps(c: State, step: Step)
    requires Inv(c) && Enabled(c, step) && InRange(c, step)
    ensures Inv(Do(c, step))
  {
    match step
    case Timeout(i) => TimeoutKeeps(c, i);
    case DeliverVote(t, i, v) => VoteKeeps(c, t, i, v);
    case CountVote(t, i, v) => CountKeeps(c, t, i, v);
    case LoseVote(t, i, v) => LossKeeps(c, Do(c, step));
    case Win(i) => WinKeeps(c, i);
    case ClientStart(i, command) => StartKeeps(c, i, command);
    case SendAppend(i, p) => SendKeeps(c, i, p);
    case DeliverAppend(t, p) => DeliverKeeps(c, t, p);
    case HandleReply(t, p) => ReplyKeeps(c, t, p);
    case LoseAppend(t, p) => LossKeeps(c, Do(c, step));
    case ApplyLog(i) => ApplyKeeps(c, i);
    case Crash(i) => CrashKeeps(c, i);
  }

  lemma StepGrows(c: State, step: Step)
    requires Inv(c) && Enabled(c, step) && InRange(c, step)
    ensures Grows(c.history, Do(c, step).history)
  {
    SameForAll(c.history);
    match step
    case Timeout(i) => TimeoutHistory(c, i);
    case DeliverVote(t, i, v) => VoteHistory(c, t, i, v);
    case CountVote(t, i, v) => CountHistory(c, t, i, v);
    case Win(i) => WinHistory(c, i);
    case ClientStart(i, command) =>
      assert NodeInv(c.history, |c.nodes|, i, c.nodes[i]);
      StartGrows(c.history, Do(c, step).history, |c.nodes|, i, c.nodes[i], Do(c, step).nodes[i], command);
    case DeliverAppend(t, p) => DeliverNode(c, t, p);
    case _ =>
  }

  lemma StepSize(c: State, step: Step)
    requires Enabled(c, step) && InRange(c, step)
    ensures |Do(c, step).nodes| == |c.nodes|
  {}

  /** The invariant holds in every state of every run. */
  lemma {:induction false} RunHolds(run: seq<State>, n: nat, k: nat)
    requires IsRun(run, n) && k < |run|
    ensures Inv(run[k]) && |run[k].nodes| == n
  {
    if k == 0 {
      InitHolds(run[0], n);
    } else {
      RunHolds(run, n, k - 1);
      assert StepsAt(run, k);
      var step :| TakesStep(run[k - 1], step, run[k]);
      StepKeeps(run[k - 1], step);
      StepSize(run[k - 1], step);
    }
  }

  lemma RunStepGrows(run: seq<State>, n: nat, b: nat)
    requires IsRun(run, n) && 0 < b < |run|
    ensures Grows(run[b - 1].history, run[b].history)
  {
    RunHolds(run, n, b - 1);
    assert StepsAt(run, b);
    var step :| TakesStep(run[b - 1], step, run[b]);
    StepGrows(run[b - 1], step);
  }

  lemma {:induction false} RunGrows(run: seq<State>, n: nat, a: nat, b: nat)
    requires IsRun(run, n) && a <= b < |run|
    ensures Grows(run[a].history, run[b].history)
    decreases b
  {
    if a == b {
      SameForAll(run[a].history);
    } else {
      var h, h', h'' := run[a].history, run[b - 1].history, run[b].history;
      assert Grows(h, h') by { RunGrows(run, n, a, b - 1); }
      assert Grows(h', h'') by { RunStepGrows(run, n, b); }
      GrowsTrans(h, h', h'');
    }
  }

  /** Node i at moment k of a run. */
  ghost predicate At(run: seq<State>, n: nat, k: nat, i: int, s: NodeState) {
    IsRun(run, n) && k < |run| && IsNode(run[k], i) && s == run[k].nodes[i]
  }

  /** Everything that was ever recorded, by the end of the run. */
  ghost function Final(run: seq<State>): History
    requires run != []
  {
    run[|run| - 1].history
  }

  lemma AtEnd(run: seq<State>, n: nat, k: nat, i: int, s: NodeState)
    requires At(run, n, k, i, s)
    ensures |run[k].nodes| == n && Inv(run[k]) && NodeInv(run[k].history, n, i, s)
    ensures HistoryInv(Final(run), n) && Grows(run[k].history, Final(run))
  {
    RunHolds(run, n, k);
    RunHolds(run, n, |run| - 1);
    RunGrows(run, n, k, |run| - 1);
  }

  /** Election safety: at most one node ever leads a given term. */
  lemma ElectionSafety(run: seq<State>, n: nat, a: nat, i: int, s: NodeState, b: nat, j: int, s': NodeState)
    requires At(run, n, a, i, s) && At(run, n, b, j, s')
    requires s.role == LEADER && s'.role == LEADER && s.term == s'.term
    ensures i == j
  {
    AtEnd(run, n, a, i, s);
    AtEnd(run, n, b, j, s');
  }

  /** A node never votes for two candidates in one term, crash and restart included. */
  lemma VotesOnce(run: seq<State>, n: nat, a: nat, b: nat, i: int, s: NodeState, s': NodeState)
    requires At(run, n, a, i, s) && At(run, n, b, i, s')
    requires s.term == s'.term && s.votedFor != NO_VOTE && s'.votedFor != NO_VOTE
    ensures s.votedFor == s'.votedFor
  {
    AtEnd(run, n, a, i, s);
    AtEnd(run, n, b, i, s');
  }

  /** The nodes whose vote in a term went to the given candidate. */
  ghost function BallotsFor(c: State, term: int, i: int): set<int> {
    set v | 0 <= v < |c.nodes| && (term, v) in c.history.ballots && c.history.ballots[(term, v)].candidate == i
  }

  /** A candidate never counts more votes than were cast for it in its term. */
  lemma VotesAreBallots(run: seq<State>, n: nat, k: nat, i: int, s: NodeState)
    requires At(run, n, k, i, s) && s.role == CANDIDATE
    ensures s.recvVotes <= |BallotsFor(run[k], s.term, i)|
  {
    AtEnd(run, n, k, i, s);
    var h := run[k].history;
    assert CampaignInv(h, n, s.term, i);
    var counted, ballots := h.campaigns[(s.term, i)].counted, BallotsFor(run[k], s.term, i);
    forall v | v in counted ensures v in ballots {
      assert 0 <= v < n && (s.term, v) in h.ballots && h.ballots[(s.term, v)].candidate == i;
    }
    SubsetSize(counted, ballots);
  }

  /** Log matching: two logs, of any nodes at any moments, that hold the same term at
      the same position are identical up to it. */
  lemma LogMatching(run: seq<State>, n: nat, a: nat, i: int, s: NodeState, b: nat, j: int, s': NodeState)
    requires At(run, n, a, i, s) && At(run, n, b, j, s')
    ensures LogsMatch(s.log, s'.log)
  {
    RootedAtEnd(run, n, a, i, s);
    RootedAtEnd(run, n, b, j, s');
    RootedLogsMatch(Final(run), s.log, s'.log);
  }

  /** Log matching for the entries in flight: an entry of a request that has the same
      term as a node's entry at that position is the same entry, and so are the
      request's entries before it. */
  lemma MessageMatching(run: seq<State>, n: nat, a: nat, i: int, s: NodeState, b: nat, t: int, p: int, k: int)
    requires At(run, n, a, i, s) && b < |run| && (t, p) in run[b].appends
    requires 0 <= k < |run[b].appends[(t, p)].args.entries|
    requires var m := run[b].appends[(t, p)].args;
      0 <= m.prevLogIndex && m.prevLogIndex + k < |s.log| && s.log[m.prevLogIndex + k].term == m.entries[k].term
    ensures var m := run[b].appends[(t, p)].args;
      s.log[m.prevLogIndex..m.prevLogIndex + k + 1] == m.entries[..k + 1]
  {
    RootedAtEnd(run, n, a, i, s);
    SnapshotAtEnd(run, n, b, t, p);
    SnapshotMatches(Final(run), n, s.log, t, run[b].appends[(t, p)].args, k);
  }

  lemma RootedAtEnd(run: seq<State>, n: nat, a: nat, i: int, s: NodeState)
    requires At(run, n, a, i, s)
    ensures HistoryInv(Final(run), n) && Rooted(Final(run), s.log)
  {
    AtEnd(run, n, a, i, s);
    RootedGrows(run[a].history, Final(run), s.log);
  }

  lemma SnapshotAtEnd(run: seq<State>, n: nat, b: nat, t: int, p: int)
    requires IsRun(run, n) && b < |run| && (t, p) in run[b].appends
    ensures SnapshotInv(Final(run), n, t, run[b].appends[(t, p)].args)
  {
    RunHolds(run, n, b);
    RunGrows(run, n, b, |run| - 1);
    assert AppendAt(run[b], t, p);
    SnapshotKept(run[b].history, Final(run), n, t, run[b].appends[(t, p)].args);
  }

  lemma SnapshotMatches(h: History, n: nat, log: Log, t: int, m: AppendArgs, k: int)
    requires HistoryInv(h, n) && Rooted(h, log) && SnapshotInv(h, n, t, m) && 0 <= k < |m.entries|
    requires m.prevLogIndex + k < |log| && log[m.prevLogIndex + k].term == m.entries[k].term
    ensures log[m.prevLogIndex..m.prevLogIndex + k + 1] == m.entries[..k + 1]
  {
    var whole, prev, at := LeaderLog(h, t), m.prevLogIndex, m.prevLogIndex + k;
    assert ElectionInv(h, n, t);
    assert whole[at] == m.entries[k];
    RootedLogsMatch(h, log, whole);
    assert log[..at + 1] == whole[..at + 1];
    assert log[prev..at + 1] == log[..at + 1][prev..];
    assert m.entries[..k + 1] == whole[..at + 1][prev..];
  }

  /** The commit point below which a node's committed entries lie, seen from the end. */
  lemma CommittedAtEnd(run: seq<State>, n: nat, a: nat, i: int, s: NodeState) returns (t: int, k: int)
    requires At(run, n, a, i, s) && s.commitIndex > 0
    ensures HistoryInv(Final(run), n) && t <= s.term
    ensures CommittedVia(Final(run), n, s.log, s.commitIndex, t, k)
  {
    AtEnd(run, n, a, i, s);
    t, k :| NodeCommittedVia(run[a].history, n, i, s, t, k);
    CommittedViaGrows(run[a].history, Final(run), n, s.log, s.commitIndex, t, k);
  }

  /** Leader completeness: what a node has committed is in the log of every leader of
      a later term, whichever of the two moments comes first. */
  lemma CommittedReachesLeaders(run: seq<State>, n: nat, a: nat, i: int, s: NodeState, b: nat, j: int, s': NodeState)
    requires At(run, n, a, i, s) && At(run, n, b, j, s')
    requires s'.role == LEADER && s'.term > s.term
    ensures 0 <= s.commitIndex <= |s.log| && s.commitIndex <= |s'.log|
    ensures s'.log[..s.commitIndex] == s.log[..s.commitIndex]
  {
    CommitBounds(run, n, a, i, s);
    if s.commitIndex > 0 {
      var t, k := CommittedAtEnd(run, n, a, i, s);
      LeaderAtEnd(run, n, b, j, s');
      LeaderCompleteness(Final(run), n, t, k, s'.term);
      var early := LeaderLog(Final(run), t)[..k];
      assert early <= s'.log && |early| == k;
      assert s'.log[..s.commitIndex] == early[..s.commitIndex];
    }
  }

  lemma LeaderAtEnd(run: seq<State>, n: nat, b: nat, j: int, s: NodeState)
    requires At(run, n, b, j, s) && s.role == LEADER
    ensures s.term in Final(run).elections && Final(run).elections[s.term].base <= s.log
  {
    AtEnd(run, n, b, j, s);
    assert ElectionInv(run[b].history, n, s.term);
  }

  /** State machine safety: any two nodes, at any two moments, agree on every position
      that both have committed. */
  lemma StateMachineSafety(run: seq<State>, n: nat, a: nat, i: int, s: NodeState, b: nat, j: int, s': NodeState)
    requires At(run, n, a, i, s) && At(run, n, b, j, s')
    ensures 0 <= s.commitIndex <= |s.log| && 0 <= s'.commitIndex <= |s'.log|
    ensures var c := Min(s.commitIndex, s'.commitIndex); s.log[..c] == s'.log[..c]
  {
    CommitBounds(run, n, a, i, s);
    CommitBounds(run, n, b, j, s');
    if s.commitIndex > 0 && s'.commitIndex > 0 { CommitsAgree(run, n, a, i, s, b, j, s'); }
  }

  lemma CommitBounds(run: seq<State>, n: nat, a: nat, i: int, s: NodeState)
    requires At(run, n, a, i, s)
    ensures 0 <= s.commitIndex <= |s.log|
  {
    AtEnd(run, n, a, i, s);
  }

  lemma CommitsAgree(run: seq<State>, n: nat, a: nat, i: int, s: NodeState, b: nat, j: int, s': NodeState)
    requires At(run, n, a, i, s) && At(run, n, b, j, s')
    requires 0 < s.commitIndex <= |s.log| && 0 < s'.commitIndex <= |s'.log|
    ensures var c := Min(s.commitIndex, s'.commitIndex); s.log[..c] == s'.log[..c]
  {
    var h := Final(run);
    var t, k := CommittedAtEnd(run, n, a, i, s);
    var t', k' := CommittedAtEnd(run, n, b, j, s');
    if t <= t' {
      PointsAgree(h, n, s.log, s.commitIndex, t, k, s'.log, s'.commitIndex, t', k');
    } else {
      PointsAgree(h, n, s'.log, s'.commitIndex, t', k', s.log, s.commitIndex, t, k);
    }
  }

  lemma PointsAgree(h: History, n: nat, a: Log, c: int, t: int, k: int, b: Log, c': int, t': int, k': int)
    requires HistoryInv(h, n) && t <= t'
    requires CommittedVia(h, n, a, c, t, k) && CommittedVia(h, n, b, c', t', k')
    ensures a[..Min(c, c')] == b[..Min(c, c')]
  {
    var m := Min(c, c');
    var early, late := LeaderLog(h, t), LeaderLog(h, t');
    if t < t' {
      LeaderCompleteness(h, n, t, k, t');
      assert ElectionInv(h, n, t');
      assert early[..k] <= late;
      assert late[..m] == early[..k][..m];
    }
    assert a[..m] == a[..c][..m] == early[..c][..m] == early[..m];
    assert b[..m] == b[..c'][..m] == late[..c'][..m] == late[..m];
  }

  /** matchIndex soundness: a follower in the leader's term holds the leader's first
      matchIndex entries, in its file as well as in memory. */
  lemma MatchIndexSound(run: seq<State>, n: nat, k: nat, i: int, s: NodeState, p: int, s': NodeState)
    requires At(run, n, k, i, s) && At(run, n, k, p, s')
    requires s.role == LEADER && s'.term == s.term && p != i
    ensures 0 <= p < |s.matchIndex| && 0 <= s.matchIndex[p] <= |s.log| && s.matchIndex[p] <= |s'.log|
    ensures s'.log[..s.matchIndex[p]] == s.log[..s.matchIndex[p]]
    ensures s.log[..s.matchIndex[p]] <= s'.disk.log
  {
    RunHolds(run, n, k);
    MatchIsHeld(run[k].history, n, i, s, p, s');
  }

  lemma MatchIsHeld(h: History, n: nat, i: int, s: NodeState, p: int, s': NodeState)
    requires HistoryInv(h, n) && NodeInv(h, n, i, s) && NodeInv(h, n, p, s') && 0 <= p < n
    requires s.role == LEADER && s'.term == s.term
    ensures p < |s.matchIndex| && 0 <= s.matchIndex[p] <= |s.log| && s.matchIndex[p] <= |s'.log|
    ensures s'.log[..s.matchIndex[p]] == s.log[..s.matchIndex[p]]
    ensures s.log[..s.matchIndex[p]] <= s'.disk.log
  {
    var m := s.matchIndex[p];
    assert ProgressInv(h, s, p);
    if m > 0 {
      assert AckInv(h, s.term, p);
      var hi := s'.term + 1;
      assert RemembersAll(h, p, s'.disk.log, hi);
      assert Remembered(h, s.term, m, s'.disk.log, hi);
      assert s.log[..m] <= s'.disk.log <= s'.log;
    }
  }

  /** The bounds of every index a node keeps, in every reachable state. */
  lemma IndexBounds(run: seq<State>, n: nat, k: nat, i: int, s: NodeState)
    requires At(run, n, k, i, s)
    ensures SortedLog(s.log) && TermsAtMost(s.log, s.term)
    ensures 0 <= s.lastApplied <= s.commitIndex <= |s.log|
    ensures |s.nextIndex| == |s.matchIndex| == n
    ensures s.role == LEADER ==>
      forall p :: 0 <= p < n ==> 0 <= s.matchIndex[p] < s.nextIndex[p] <= |s.log| + 1
  {
    AtEnd(run, n, k, i, s);
    RootedSorted(run[k].history, n, s.log);
    if s.role == LEADER {
      forall p | 0 <= p < n ensures 0 <= s.matchIndex[p] < s.nextIndex[p] <= |s.log| + 1 {
        assert ProgressInv(run[k].history, s, p);
      }
    }
  }

  /** Every step that a run could take next stays within the logs it reads. */
  lemma NoAccessOutOfRange(run: seq<State>, n: nat, k: nat, step: Step)
    requires IsRun(run, n) && k < |run| && Enabled(run[k], step)
    ensures InRange(run[k], step)
  {
    RunHolds(run, n, k);
    StepsInRange(run[k], step);
  }

  /** Between two consecutive moments of a run a node that does not crash loses no
      committed entry and never moves its commit index back, even though accepted
      appends cut the log. */
  lemma CommitsOnlyGrow(run: seq<State>, n: nat, k: nat, step: Step, i: int, s: NodeState, s': NodeState)
    requires k + 1 < |run| && At(run, n, k, i, s) && At(run, n, k + 1, i, s')
    requires TakesStep(run[k], step, run[k + 1]) && step != Crash(i)
    ensures 0 <= s.commitIndex <= s'.commitIndex && s.commitIndex <= |s.log| && s.commitIndex <= |s'.log|
    ensures s'.log[..s.commitIndex] == s.log[..s.commitIndex]
  {
    StateMachineSafety(run, n, k, i, s, k + 1, i, s');
    RunHolds(run, n, k);
    CommitMonotone(run[k], step, i);
  }

  lemma CommitMonotone(c: State, step: Step, i: int)
    requires Inv(c) && Enabled(c, step) && InRange(c, step) && IsNode(c, i) && step != Crash(i)
    ensures IsNode(Do(c, step), i) && c.nodes[i].commitIndex <= Do(c, step).nodes[i].commitIndex
  {
    match step
    case DeliverAppend(t, p) => if p == i { DeliverMonotone(c, t, p); }
    case HandleReply(t, p) => ReplyStepMonotone(c, t, p, i);
    case DeliverVote(t, k, v) => VoteStepMonotone(c, t, k, v, i);
    case CountVote(t, k, v) => CountStepMonotone(c, t, k, v, i);
    case _ =>
  }

  lemma ReplyStepMonotone(c: State, t: int, p: int, i: int)
    requires Enabled(c, HandleReply(t, p)) && InRange(c, HandleReply(t, p)) && IsNode(c, i)
    ensures c.nodes[i].commitIndex <= DoHandleReply(c, t, p).nodes[i].commitIndex
  {
    var rpc := c.appends[(t, p)];
    ReplyMonotone(c.nodes[rpc.args.leaderId], p, rpc.args, rpc.reply);
  }

  lemma VoteStepMonotone(c: State, t: int, k: int, v: int, i: int)
    requires Enabled(c, DeliverVote(t, k, v)) && IsNode(c, i)
    ensures c.nodes[i].commitIndex <= DoDeliverVote(c, t, k, v).nodes[i].commitIndex
  {
    VoteEffect(c.nodes[v], c.votes[(t, k, v)].args);
  }

  lemma CountStepMonotone(c: State, t: int, k: int, v: int, i: int)
    requires Enabled(c, CountVote(t, k, v)) && IsNode(c, i)
    ensures c.nodes[i].commitIndex <= DoCountVote(c, t, k, v).nodes[i].commitIndex
  {}

  lemma ReplyMonotone(s: NodeState, p: int, a: AppendArgs, r: AppendReply)
    requires CanHandleReply(s, p, a, r)
    ensures s.commitIndex <= HandleAppendReply(s, p, a, r).commitIndex
  {}

  lemma DeliverMonotone(c: State, t: int, p: int)
    requires Inv(c) && Enabled(c, DeliverAppend(t, p)) && InRange(c, DeliverAppend(t, p))
    ensures c.nodes[p].commitIndex <= DoDeliverAppend(c, t, p).nodes[p].commitIndex
  {
    var s, a := c.nodes[p], c.appends[(t, p)].args;
    AppendEffect(s, a);
    if s.term <= t && Consistent(s, a) {
      DeliveryHolds(c, t, p);
      AcceptKeepsCommitted(c.history, |c.nodes|, p, s, t, a);
    }
  }
}
