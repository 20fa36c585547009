/** The inductive invariant of the cluster. It relates every node and every message
    to the history. The commit argument rests on Remembered: what a follower once
    accepted from a leader stays in its file until the leader of a later term, whose
    own log lacks it, overwrites it. */
module ClusterInvariant {
  import opened RaftTypes
  import opened RaftHandlers
  import opened Quorum
  import opened Cluster

  /** The log a term's leader has built. */
  ghost function LeaderLog(h: History, t: int): Log
    requires t in h.elections
  {
    h.elections[t].log
  }

  ghost function Acked(h: History, t: int, v: int): int {
    if (t, v) in h.acked then h.acked[(t, v)] else 0
  }

  /** Every prefix of log that ends in an entry of term t is a prefix of the log of
      the leader of t. */
  ghost predicate RootedAt(h: History, log: Log, k: int)
    requires 0 <= k < |log|
  {
    var t := log[k].term;
    t in h.elections && log[..k + 1] <= LeaderLog(h, t)
  }

  ghost predicate Rooted(h: History, log: Log) {
    forall k :: 0 <= k < |log| ==> RootedAt(h, log, k)
  }

  ghost predicate TermsAtMost(log: Log, t: int) {
    forall k :: 0 <= k < |log| ==> log[k].term <= t
  }

  ghost predicate TermsFrom(log: Log, start: int, t: int) {
    forall k :: 0 <= start <= k < |log| ==> log[k].term == t
  }

  /** Some leader of a term strictly between t and hi was elected without the first
      j entries of the leader of t. */
  ghost predicate Lacks(h: History, u: int, t: int, j: int)
    requires t in h.elections && 0 <= j <= |LeaderLog(h, t)|
  {
    u in h.elections && !(LeaderLog(h, t)[..j] <= h.elections[u].base)
  }

  ghost predicate Overwritten(h: History, t: int, j: int, hi: int)
    requires t in h.elections && 0 <= j <= |LeaderLog(h, t)|
  {
    exists u :: t < u < hi && Lacks(h, u, t, j)
  }

  ghost predicate Remembered(h: History, t: int, j: int, log: Log, hi: int) {
    && t in h.elections && 0 <= j <= |LeaderLog(h, t)|
    && (LeaderLog(h, t)[..j] <= log || Overwritten(h, t, j, hi))
  }

  /** Everything v has accepted from leaders of terms below hi is remembered by log. */
  ghost predicate RemembersAll(h: History, v: int, log: Log, hi: int) {
    forall t, j :: t < hi && 0 < j <= Acked(h, t, v) ==> Remembered(h, t, j, log, hi)
  }

  ghost function AckedBy(h: History, n: nat, t: int, j: int): set<int> {
    set v | 0 <= v < n && Acked(h, t, v) >= j
  }

  /** Position j of the leader of t is committed: a majority of followers accepted
      it, and its entry is of the leader's own term. */
  ghost predicate CommitPoint(h: History, n: nat, t: int, j: int) {
    && t in h.elections && 1 <= j <= |LeaderLog(h, t)|
    && LeaderLog(h, t)[j - 1].term == t
    && 2 * |AckedBy(h, n, t, j)| >= n
  }

  /** The first c entries of log lie below a commit point of the leader of t. */
  ghost predicate CommittedVia(h: History, n: nat, log: Log, c: int, t: int, j: int) {
    && CommitPoint(h, n, t, j)
    && 0 <= c <= j && c <= |log| && log[..c] == LeaderLog(h, t)[..c]
  }

  // ----- the history -----

  ghost predicate ElectionInv(h: History, n: nat, t: int)
    requires t in h.elections
  {
    var e := h.elections[t];
    && t >= 1 && 0 <= e.leader < n
    && IdsBelow(e.voters, n) && 2 * |e.voters| > n
    && e.base <= e.log && Rooted(h, e.log)
    && TermsAtMost(e.base, t - 1) && TermsFrom(e.log, |e.base|, t)
    && SortedLog(e.log)
    && (t, e.leader) in h.campaigns && h.campaigns[(t, e.leader)].log == e.base
    && forall v :: v in e.voters ==> (t, v) in h.ballots && h.ballots[(t, v)].candidate == e.leader
  }

  ghost predicate CampaignInv(h: History, n: nat, t: int, i: int)
    requires (t, i) in h.campaigns
  {
    var k := h.campaigns[(t, i)];
    && t >= 1
    && Rooted(h, k.log) && TermsAtMost(k.log, t - 1)
    && IdsBelow(k.counted, n)
    && forall v :: v in k.counted ==> (t, v) in h.ballots && h.ballots[(t, v)].candidate == i
  }

  /** A ballot that an election can rest on. */
  ghost predicate Decisive(h: History, t: int, v: int) {
    t in h.elections ==> v in h.elections[t].voters
  }

  ghost predicate BallotInv(h: History, t: int, v: int)
    requires (t, v) in h.ballots
  {
    var b := h.ballots[(t, v)];
    && (t, b.candidate) in h.campaigns
    && UpToDate(b.log, LastTerm(h.campaigns[(t, b.candidate)].log), |h.campaigns[(t, b.candidate)].log|)
    && Rooted(h, b.log)
    && (Decisive(h, t, v) ==> RemembersAll(h, v, b.log, t))
  }

  ghost predicate AckInv(h: History, t: int, v: int) {
    Acked(h, t, v) > 0 ==>
      t in h.elections && Acked(h, t, v) <= |LeaderLog(h, t)| && h.elections[t].leader != v
  }

  ghost predicate HistoryInv(h: History, n: nat) {
    && (forall t :: t in h.elections ==> ElectionInv(h, n, t))
    && (forall t, i :: (t, i) in h.campaigns ==> CampaignInv(h, n, t, i))
    && (forall t, v :: (t, v) in h.ballots ==> BallotInv(h, t, v))
    && (forall t, v :: Acked(h, t, v) >= 0 && AckInv(h, t, v))
  }

  // ----- one node -----

  ghost predicate DiskInv(s: NodeState) {
    && s.disk.term == s.term && s.disk.votedFor == s.votedFor
    && s.disk.log <= s.log
    && (s.role != LEADER ==> s.disk.log == s.log)
  }

  /** The node's vote and term cover everything the history knows of it. */
  ghost predicate TermInv(h: History, i: int, s: NodeState) {
    && s.term >= 0
    && (s.votedFor == NO_VOTE <==> (s.term, i) !in h.ballots)
    && (s.votedFor != NO_VOTE ==> h.ballots[(s.term, i)].candidate == s.votedFor)
    && (forall t :: (t, i) in h.ballots ==> t <= s.term)
    && (forall t :: (t, i) in h.campaigns ==> t <= s.term)
    && (forall t :: t in h.elections && h.elections[t].leader == i ==> t <= s.term)
    && (forall t :: Acked(h, t, i) > 0 ==> t <= s.term)
  }

  ghost predicate CandidateInv(h: History, i: int, s: NodeState) {
    s.role == CANDIDATE ==>
      && (s.term, i) in h.campaigns && s.log == h.campaigns[(s.term, i)].log
      && s.recvVotes == |h.campaigns[(s.term, i)].counted|
      && (s.term in h.elections ==> h.elections[s.term].leader != i)
  }

  /** What a leader knows about one follower. */
  ghost predicate ProgressInv(h: History, s: NodeState, p: int)
    requires 0 <= p < |s.nextIndex| == |s.matchIndex|
  {
    && 1 <= s.nextIndex[p] <= |s.log| + 1
    && 0 <= s.matchIndex[p] <= Acked(h, s.term, p)
    && (s.matchIndex[p] == 0 || s.matchIndex[p] == s.nextIndex[p] - 1)
  }

  ghost predicate LeaderInv(h: History, n: nat, i: int, s: NodeState) {
    && |s.nextIndex| == |s.matchIndex| == n
    && (s.role == LEADER ==>
      && s.term in h.elections && h.elections[s.term].leader == i && s.log == LeaderLog(h, s.term)
      && forall p :: 0 <= p < n ==> ProgressInv(h, s, p))
  }

  ghost predicate NodeCommittedVia(h: History, n: nat, i: int, s: NodeState, t: int, j: int) {
    && CommittedVia(h, n, s.log, s.commitIndex, t, j)
    && t <= s.term
    && (t == s.term ==> h.elections[t].leader == i || s.commitIndex <= Acked(h, t, i))
  }

  ghost predicate CommitInv(h: History, n: nat, i: int, s: NodeState) {
    && 0 <= s.lastApplied <= s.commitIndex <= |s.log|
    && (s.commitIndex > 0 ==> exists t, j :: NodeCommittedVia(h, n, i, s, t, j))
  }

  ghost predicate NodeInv(h: History, n: nat, i: int, s: NodeState) {
    && DiskInv(s)
    && Rooted(h, s.log) && TermsAtMost(s.log, s.term)
    && TermInv(h, i, s)
    && CandidateInv(h, i, s)
    && LeaderInv(h, n, i, s)
    && RemembersAll(h, i, s.disk.log, s.term + 1)
    && CommitInv(h, n, i, s)
  }

  // ----- messages -----

  /** A vote exchange carries the candidate's campaign and is not counted yet. */
  ghost predicate VoteInv(h: History, n: nat, t: int, i: int, v: int, rpc: VoteRpc) {
    && 0 <= i < n && 0 <= v < n && v != i
    && (t, i) in h.campaigns
    && rpc.args == VoteArgs(t, i, LastTerm(h.campaigns[(t, i)].log), |h.campaigns[(t, i)].log|)
    && v !in h.campaigns[(t, i)].counted
    && (rpc.VoteReturn? && rpc.reply.granted ==>
          rpc.reply.term <= t && (t, v) in h.ballots && h.ballots[(t, v)].candidate == i)
  }

  ghost predicate LeaderCommittedVia(h: History, n: nat, t: int, c: int, u: int, j: int)
    requires t in h.elections
  {
    u <= t && CommittedVia(h, n, LeaderLog(h, t), c, u, j)
  }

  /** An append request is a snapshot of its leader's log from prevLogIndex on. */
  ghost predicate SnapshotInv(h: History, n: nat, t: int, a: AppendArgs) {
    && t in h.elections && a.term == t && a.leaderId == h.elections[t].leader
    && var log := LeaderLog(h, t);
    && var end := a.prevLogIndex + |a.entries|;
    && 0 <= a.prevLogIndex && |h.elections[t].base| <= end <= |log|
    && a.entries == log[a.prevLogIndex..end]
    && (a.prevLogIndex > 0 ==> a.prevLogTerm == log[a.prevLogIndex - 1].term)
    && 0 <= a.leaderCommit <= end
    && (a.leaderCommit > 0 ==> exists u, j :: LeaderCommittedVia(h, n, t, a.leaderCommit, u, j))
  }

  /** A rejection tells the leader where to back up to: below the rejected position. */
  ghost predicate RejectionInv(a: AppendArgs, r: AppendReply) {
    if r.conflictTerm == NOT_SET then 0 <= r.conflictIndex < a.prevLogIndex
    else r.conflictTerm != a.prevLogTerm && 1 <= r.conflictIndex <= a.prevLogIndex
  }

  ghost predicate AppendInv(h: History, n: nat, leader: NodeState, t: int, p: int, rpc: AppendRpc) {
    && SnapshotInv(h, n, t, rpc.args)
    && 0 <= p < n && p != rpc.args.leaderId
    && var a := rpc.args;
    && (Leads(leader, t) ==> p < |leader.nextIndex| && a.prevLogIndex == leader.nextIndex[p] - 1)
    && match rpc
       case AppendCall(_) => Acked(h, t, p) <= a.prevLogIndex + |a.entries|
       case AppendReturn(_, r) =>
         if r.success then r.term <= t && Acked(h, t, p) == a.prevLogIndex + |a.entries|
         else if r.term > t then true
         else
           && RejectionInv(a, r)
           && (Leads(leader, t) ==> p < |leader.matchIndex| && leader.matchIndex[p] == 0)
  }

  ghost predicate AppendAt(c: State, t: int, p: int)
    requires (t, p) in c.appends
  {
    var rpc := c.appends[(t, p)];
    && 0 <= rpc.args.leaderId < |c.nodes|
    && AppendInv(c.history, |c.nodes|, c.nodes[rpc.args.leaderId], t, p, rpc)
  }

  ghost predicate NodesInv(c: State) {
    forall i :: 0 <= i < |c.nodes| ==> NodeInv(c.history, |c.nodes|, i, c.nodes[i])
  }

  ghost predicate VotesInv(c: State) {
    forall t, i, v :: (t, i, v) in c.votes ==> VoteInv(c.history, |c.nodes|, t, i, v, c.votes[(t, i, v)])
  }

  ghost predicate AppendsInv(c: State) {
    forall t, p :: (t, p) in c.appends ==> AppendAt(c, t, p)
  }

  ghost predicate Inv(c: State) {
    HistoryInv(c.history, |c.nodes|) && NodesInv(c) && VotesInv(c) && AppendsInv(c)
  }
}
