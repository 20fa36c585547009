/** What each handler of a Raft node does to the node's fields, as functions.
    The first part follows the code branch by branch. The second part is the form
    the cluster runs: the same handlers with the guards G1 to G5 (README.md) written
    out. Module Guards says exactly when the two agree. */
module RaftHandlers {
  import opened RaftTypes
  import opened Quorum

  // ----- the code -----

  /** saveRaftState. */
  function Save(s: NodeState): NodeState {
    s.(disk := Persisted(s.term, s.votedFor, s.log))
  }

  /** Make on an existing or missing persister file: the state after a restart. */
  function Boot(n: nat, disk: Persisted): NodeState {
    NodeState(disk.term, disk.votedFor, disk.log, seq(n, _ => 1), seq(n, _ => 0),
              0, 0, 0, 0, FOLLOWER, disk)
  }

  /** readRaftState: the file's term and vote, and its log pushed behind m_logs. */
  function Reload(s: NodeState): NodeState {
    s.(term := s.disk.term, votedFor := s.disk.votedFor, log := s.log + s.disk.log)
  }

  /** A follower or candidate whose election timer fired. */
  function StartElection(s: NodeState, self: int): NodeState {
    Save(s.(role := CANDIDATE, term := s.term + 1, votedFor := self)).(recvVotes := 1, finishedVote := 1)
  }

  function BuildVoteArgs(s: NodeState, self: int): VoteArgs {
    VoteArgs(s.term, self, LastTerm(s.log), |s.log|)
  }

  /** checkLogUptodate. */
  predicate UpToDate(log: Log, lastTerm: int, lastIndex: int) {
    || |log| == 0
    || lastTerm > LastTerm(log)
    || (lastTerm == LastTerm(log) && lastIndex >= |log|)
  }

  /** The part of requestVote before the vote test: a higher term is adopted. */
  function AdoptVoteTerm(s: NodeState, term: int): NodeState {
    if s.term < term then s.(role := FOLLOWER, term := term, votedFor := NO_VOTE) else s
  }

  predicate MayVote(s: NodeState, a: VoteArgs) {
    s.votedFor == NO_VOTE || s.votedFor == a.candidateId
  }

  /** The part of requestVote after the vote test. */
  function GrantVote(s: NodeState, a: VoteArgs): NodeState {
    Save(s.(votedFor := a.candidateId))
  }

  /** requestVote. A vote refused for the log is returned without a save. */
  function RequestVote(s: NodeState, a: VoteArgs): (NodeState, VoteReply) {
    if s.term > a.term then (s, VoteReply(s.term, false))
    else
      var s1 := AdoptVoteTerm(s, a.term);
      if !MayVote(s1, a) then (Save(s1), VoteReply(s.term, false))
      else if !UpToDate(s1.log, a.lastLogTerm, a.lastLogIndex) then (s1, VoteReply(s.term, false))
      else (GrantVote(s1, a), VoteReply(s.term, true))
  }

  /** The reply part of callRequestVote: reload on a higher term, otherwise count. */
  function HandleVoteReply(s: NodeState, r: VoteReply): NodeState {
    var s1 := s.(finishedVote := s.finishedVote + 1);
    if r.term > s.term then Reload(s1.(role := FOLLOWER, term := r.term, votedFor := NO_VOTE))
    else if r.granted then s1.(recvVotes := s.recvVotes + 1)
    else s1
  }

  /** electionLoop waits until it has a majority or all answers before it goes on; a node
      that has not stood yet does not wait. */
  predicate DoneWaiting(s: NodeState, n: nat) {
    s.recvVotes == 0 || s.recvVotes > n / 2 || s.finishedVote == n
  }

  predicate WinsElection(s: NodeState, n: nat) {
    s.role == CANDIDATE && s.recvVotes > n / 2
  }

  function BecomeLeader(s: NodeState, n: nat): NodeState {
    s.(role := LEADER, nextIndex := seq(n, _ => |s.log| + 1), matchIndex := seq(n, _ => 0))
  }

  /** start on a leader. The new entry is not saved here. */
  function Start(s: NodeState, command: string): NodeState {
    s.(log := s.log + [LogEntry(command, s.term)])
  }

  /** The request part of sendAppendEntries can read its log positions. */
  predicate CanBuildAppend(s: NodeState, peer: int) {
    0 <= peer < |s.nextIndex| && 1 <= s.nextIndex[peer] <= |s.log| + 1
  }

  function BuildAppend(s: NodeState, self: int, peer: int): AppendArgs
    requires CanBuildAppend(s, peer)
  {
    var prev := s.nextIndex[peer] - 1;
    AppendArgs(s.term, self, prev,
               if prev == 0 then (if |s.log| != 0 then s.log[0].term else 0) else s.log[prev - 1].term,
               s.commitIndex, s.log[prev..])
  }

  /** The follower's commit index after an accepted append. */
  function FollowCommit(s: NodeState, leaderCommit: int): NodeState {
    if s.commitIndex < leaderCommit then s.(commitIndex := Min(leaderCommit, |s.log|)) else s
  }

  /** The first position of log whose entry has the given term, looking from position k. */
  function FirstOfTerm(log: Log, term: int, k: int): int
    requires 1 <= k <= |log| + 1
    decreases |log| - k
  {
    if k > |log| then NOT_SET
    else if log[k - 1].term == term then k
    else FirstOfTerm(log, term, k + 1)
  }

  /** The last position at or before k whose entry has the given term. */
  function LastOfTerm(log: Log, term: int, k: int): int
    requires 0 <= k <= |log|
    decreases k
  {
    if k == 0 then NOT_SET
    else if log[k - 1].term == term then k
    else LastOfTerm(log, term, k - 1)
  }

  /** The term part of appendEntries: a higher term clears the vote and saves before the
      term is assigned. */
  function AdoptAppendTerm(s: NodeState, term: int): NodeState {
    (if term > s.term then Save(s.(votedFor := NO_VOTE)) else s).(term := term, role := FOLLOWER)
  }

  /** Cut the log at the previous position, push the entries, save, follow the commit. */
  function TakeEntries(s: NodeState, prev: int, entries: Log, leaderCommit: int): NodeState
    requires 0 <= prev <= |s.log|
  {
    FollowCommit(Save(s.(log := s.log[..prev] + entries)), leaderCommit)
  }

  /** appendEntries. An empty log takes whatever entries arrive. The length test compares
      unsigned numbers, so a negative previous position counts as beyond every log. */
  function AppendEntries(s: NodeState, a: AppendArgs): (NodeState, AppendReply) {
    var refuse := AppendReply(s.term, false, NOT_SET, NOT_SET);
    if a.term < s.term then (s, refuse)
    else
      var s2 := AdoptAppendTerm(s, a.term);
      if |s2.log| == 0 then
        (TakeEntries(s2, 0, a.entries, a.leaderCommit), refuse.(success := true))
      else if a.prevLogIndex < 0 || |s2.log| < a.prevLogIndex then
        (s2, refuse.(conflictIndex := |s2.log|))
      else if a.prevLogIndex > 0 && s2.log[a.prevLogIndex - 1].term != a.prevLogTerm then
        var t := s2.log[a.prevLogIndex - 1].term;
        (s2, refuse.(conflictTerm := t, conflictIndex := FirstOfTerm(s2.log, t, 1)))
      else
        (TakeEntries(s2, a.prevLogIndex, a.entries, a.leaderCommit), refuse.(success := true))
  }

  /** The leader's new nextIndex after a rejection. */
  function BackUp(log: Log, prev: int, r: AppendReply): int
    requires 0 <= prev <= |log|
  {
    if r.conflictTerm != NOT_SET then
      var k := LastOfTerm(log, r.conflictTerm, prev);
      if k != NOT_SET then k + 1 else r.conflictIndex
    else r.conflictIndex + 1
  }

  /** The commit rule: the majority match index, if it is ahead and its entry is of
      the current term. */
  predicate CanAdvanceCommit(s: NodeState) {
    s.matchIndex != [] &&
    (Median(s.matchIndex) > s.commitIndex ==> 1 <= Median(s.matchIndex) <= |s.log|)
  }

  function AdvanceCommit(s: NodeState): NodeState
    requires CanAdvanceCommit(s)
  {
    var m := Median(s.matchIndex);
    if m > s.commitIndex && s.log[m - 1].term == s.term then s.(commitIndex := m) else s
  }

  /** nextIndex and matchIndex after a success that carried count entries. */
  function RecordSuccess(s: NodeState, peer: int, count: int): NodeState
    requires 0 <= peer < |s.nextIndex| == |s.matchIndex|
  {
    var next := s.nextIndex[peer] + count;
    s.(nextIndex := s.nextIndex[peer := next], matchIndex := s.matchIndex[peer := next - 1])
  }

  /** The reply part of sendAppendEntries can read its log positions. */
  predicate CanHandleReply(s: NodeState, peer: int, a: AppendArgs, r: AppendReply) {
    && 0 <= peer < |s.nextIndex| == |s.matchIndex|
    && (r.term <= s.term && r.success ==> CanAdvanceCommit(RecordSuccess(s, peer, |a.entries|)))
    && (r.term <= s.term && !r.success ==> 0 <= a.prevLogIndex <= |s.log|)
  }

  function HandleAppendReply(s: NodeState, peer: int, a: AppendArgs, r: AppendReply): NodeState
    requires CanHandleReply(s, peer, a, r)
  {
    if r.term > s.term then
      Save(s.(role := FOLLOWER, term := r.term, votedFor := NO_VOTE))
    else if r.success then
      Save(AdvanceCommit(RecordSuccess(s, peer, |a.entries|)))
    else
      Save(s.(nextIndex := s.nextIndex[peer := BackUp(s.log, a.prevLogIndex, r)]))
  }

  /** One turn of applyLogLoop. */
  function ApplyCommitted(s: NodeState): NodeState {
    s.(lastApplied := s.commitIndex)
  }

  // ----- the guarded form -----

  /** requestVote as one atomic step (G2) that saves on every term change (G4). */
  function GuardedRequestVote(s: NodeState, a: VoteArgs): (NodeState, VoteReply) {
    var (s1, r) := RequestVote(s, a);
    (if a.term > s.term then Save(s1) else s1, r)
  }

  /** A vote counts only for the election it was requested in (G1); stepping down
      saves the adopted term instead of reloading (G3). */
  function GuardedVoteReply(s: NodeState, election: int, r: VoteReply): NodeState {
    if r.term > s.term then
      Save(s.(finishedVote := s.finishedVote + 1, role := FOLLOWER, term := r.term, votedFor := NO_VOTE))
    else if r.granted && !(s.role == CANDIDATE && s.term == election) then
      s.(finishedVote := s.finishedVote + 1)
    else HandleVoteReply(s, r)
  }

  /** An append that reaches an empty log but starts behind its end (G5). */
  predicate HitsEmptyLog(s: NodeState, a: AppendArgs) {
    a.term >= s.term && |s.log| == 0 && a.prevLogIndex > 0
  }

  /** appendEntries that rejects as short what an empty log cannot place (G5) and
      saves after every term change (G4). */
  function GuardedAppendEntries(s: NodeState, a: AppendArgs): (NodeState, AppendReply) {
    var (s1, r) :=
      if HitsEmptyLog(s, a) then
        (s.(term := a.term, role := FOLLOWER, votedFor := if a.term > s.term then NO_VOTE else s.votedFor),
         AppendReply(s.term, false, NOT_SET, 0))
      else AppendEntries(s, a);
    (if a.term > s.term then Save(s1) else s1, r)
  }
}
