/** Where the code departs from the protocol, and exactly when it matters: for each guard
    the condition on the input under which the code still does what the protocol needs,
    and a concrete failure. Modules Votes (G1, G9), Overwrite (G7) and Request (G10) have
    the conditions that need an argument of their own. */
module Guards {
  import opened RaftTypes
  import opened RaftHandlers
  import opened ReplicationSteps

  // ----- G1: a vote counts only for the election it was requested in (see Votes) -----

  /** A late vote from election 2 elects a candidate of term 3 that nobody voted for. */
  lemma LateVoteElects(s: NodeState)
    requires s.role == CANDIDATE && s.term == 3 && s.recvVotes == 1
    ensures WinsElection(HandleVoteReply(s, VoteReply(2, true)), 3)
    ensures !WinsElection(GuardedVoteReply(s, 2, VoteReply(2, true)), 3)
  {}

  // ----- G2: the vote test and the vote are one step -----

  /** The node after a series of vote requests, each handled as one step. */
  function Handled(s: NodeState, requests: seq<VoteArgs>): NodeState {
    if requests == [] then s
    else RequestVote(Handled(s, requests[..|requests| - 1]), requests[|requests| - 1]).0
  }

  /** The request at position k of the series is granted. */
  predicate Granted(s: NodeState, requests: seq<VoteArgs>, k: int)
    requires 0 <= k < |requests|
  {
    RequestVote(Handled(s, requests[..k]), requests[k]).1.granted
  }

  /** The node's term has passed that of a request, or its vote in that term is given. */
  predicate Voted(s: NodeState, a: VoteArgs) {
    s.term > a.term || (s.term == a.term && s.votedFor == a.candidateId)
  }

  lemma {:induction false} StaysVoted(s: NodeState, requests: seq<VoteArgs>, a: VoteArgs)
    requires Voted(s, a) && a.candidateId != NO_VOTE
    ensures Voted(Handled(s, requests), a)
  {
    if requests != [] { StaysVoted(s, requests[..|requests| - 1], a); }
  }

  lemma {:induction false} HandledSplit(s: NodeState, a: seq<VoteArgs>, b: seq<VoteArgs>)
    ensures Handled(s, a + b) == Handled(Handled(s, a), b)
  {
    if b == [] {
      assert a + b == a;
    } else {
      assert (a + b)[..|a + b| - 1] == a + b[..|b| - 1];
      HandledSplit(s, a, b[..|b| - 1]);
    }
  }

  /** As atomic steps, requests of one term are never granted to two candidates. */
  lemma AtomicVotesAgree(s: NodeState, requests: seq<VoteArgs>, j: nat, k: nat)
    requires j < k < |requests| && requests[j].term == requests[k].term
    requires requests[j].candidateId != NO_VOTE && Granted(s, requests, j) && Granted(s, requests, k)
    ensures requests[j].candidateId == requests[k].candidateId
  {
    var before, between := requests[..j + 1], requests[j + 1..k];
    assert before[..j] == requests[..j] && requests[..k] == before + between;
    HandledSplit(s, before, between);
    assert Voted(Handled(s, before), requests[j]);
    StaysVoted(Handled(s, before), between, requests[j]);
  }

  /** The test a request passes before the lock is released. */
  predicate PassesTest(s: NodeState, a: VoteArgs) {
    s.term <= a.term && MayVote(AdoptVoteTerm(s, a.term), a) && UpToDate(s.log, a.lastLogTerm, a.lastLogIndex)
  }

  /** When the handler gets the lock back it gives the vote, whatever the node has become.
      That is what handling the request then as one step would do exactly when the node
      is still in the request's term, still free to vote so, and its log still no newer. */
  lemma ResumedVoteIff(s: NodeState, a: VoteArgs)
    ensures GrantVote(s, a) == RequestVote(s, a).0 && RequestVote(s, a).1.granted <==>
      s.term == a.term && MayVote(s, a) && UpToDate(s.log, a.lastLogTerm, a.lastLogIndex)
  {}

  /** If the election timer fires in between, the node votes for itself in the next term
      and then, in that same term, for the old candidate; a request of that candidate in
      the new term is granted as well. */
  lemma TimerVotesTwice(s: NodeState, self: int, a: VoteArgs)
    requires PassesTest(s, a) && a.candidateId != self && self != NO_VOTE
    ensures var s1 := StartElection(AdoptVoteTerm(s, a.term), self);
      var s2 := GrantVote(s1, a);
      && s1.term == s2.term == a.term + 1 && s1.disk == Persisted(s1.term, self, s1.log)
      && s2.disk == Persisted(s2.term, a.candidateId, s2.log)
      && RequestVote(s2, a.(term := a.term + 1)).1.granted
      && !RequestVote(s1, a.(term := a.term + 1)).1.granted
  {}

  // ----- G3: stepping down keeps the adopted term -----

  /** After a higher vote reply the code has adopted the reply's term exactly when the
      file already held it, and kept its log exactly when the file held no entries. */
  lemma ReloadKeepsIff(s: NodeState, r: VoteReply)
    requires r.term > s.term
    ensures HandleVoteReply(s, r).term == r.term <==> s.disk.term == r.term
    ensures HandleVoteReply(s, r).log == s.log <==> s.disk.log == []
  {
    assert |s.log + s.disk.log| == |s.log| + |s.disk.log|;
    if s.disk.log == [] { assert s.log + [] == s.log; }
  }

  /** So a node whose file is current never steps down to the reply's term, and the
      guarded form always does. */
  lemma StepDownNeverSticks(s: NodeState, election: int, r: VoteReply)
    requires r.term > s.term && s.disk.term == s.term
    ensures HandleVoteReply(s, r).term == s.term
    ensures GuardedVoteReply(s, election, r).term == r.term && GuardedVoteReply(s, election, r).disk.term == r.term
  {}

  // ----- G4: term and vote are saved whenever they change -----

  ghost predicate DiskCurrent(s: NodeState) {
    s.disk.term == s.term && s.disk.votedFor == s.votedFor
  }

  /** appendEntries leaves term and vote on disk unless it adopts a new term with a
      request that its log is not empty for and not consistent with. */
  lemma AppendSavesIff(s: NodeState, a: AppendArgs)
    requires a.prevLogIndex >= 0 && DiskCurrent(s)
    ensures DiskCurrent(AppendEntries(s, a).0) <==> a.term <= s.term || |s.log| == 0 || Consistent(s, a)
    ensures DiskCurrent(GuardedAppendEntries(s, a).0)
  {}

  /** requestVote leaves term and vote on disk unless it adopts a new term for a
      candidate whose log is behind. */
  lemma VoteSavesIff(s: NodeState, a: VoteArgs)
    requires DiskCurrent(s)
    ensures DiskCurrent(RequestVote(s, a).0) <==>
      a.term <= s.term || UpToDate(s.log, a.lastLogTerm, a.lastLogIndex)
    ensures DiskCurrent(GuardedRequestVote(s, a).0)
  {}

  /** On a node of any state the file is current after a vote request exactly when the vote
      was given, or refused for one given earlier in the same term, or when it was current
      before and the term stays. */
  lemma VoteFileIff(s: NodeState, a: VoteArgs)
    requires s.disk.term <= s.term
    ensures var (s', r) := RequestVote(s, a);
      Saved(s') <==>
        || r.granted
        || (a.term == s.term && s.votedFor != NO_VOTE && s.votedFor != a.candidateId)
        || (a.term <= s.term && Saved(s))
  {}

  /** A node that voted for peer 0 in term 2 rejects an append of term 3, crashes, and
      then votes for peer 2 in term 2 as well. */
  lemma VotesTwiceAfterCrash(s: NodeState)
    requires s.term == 2 && s.votedFor == 0 && s.log == [LogEntry("x", 1)] && Saved(s)
    ensures
      var (s1, r1) := AppendEntries(s, AppendArgs(3, 1, 5, 2, 0, []));
      var (s2, r2) := RequestVote(Boot(3, s1.disk), VoteArgs(2, 2, 1, 1));
      !r1.success && r2.granted && s2.term == 2 && s2.votedFor == 2
  {}

  ghost predicate Saved(s: NodeState) {
    s.disk == Persisted(s.term, s.votedFor, s.log)
  }

  /** On a node whose file is current, requestVote as one step does what the guarded form
      does unless it adopts a new term for a candidate whose log is behind. */
  lemma VoteHandlersAgreeIff(s: NodeState, a: VoteArgs)
    requires Saved(s)
    ensures RequestVote(s, a) == GuardedRequestVote(s, a) <==>
      a.term <= s.term || UpToDate(s.log, a.lastLogTerm, a.lastLogIndex)
  {}

  /** A negative previous position is answered like one beyond the log. */
  lemma NegativeIsBeyond(s: NodeState, a: AppendArgs)
    requires a.prevLogIndex < 0
    ensures AppendEntries(s, a) == AppendEntries(s, a.(prevLogIndex := |s.log| + 1))
  {}

  /** The term that a request names is looked at only when its previous position is one of
      the follower's log. */
  lemma PrevTermMattersIff(s: NodeState, a: AppendArgs)
    ensures (forall t :: AppendEntries(s, a.(prevLogTerm := t)) == AppendEntries(s, a)) <==>
      a.term < s.term || !(1 <= a.prevLogIndex <= |s.log|)
  {
    if a.term >= s.term && 1 <= a.prevLogIndex <= |s.log| {
      var t := s.log[a.prevLogIndex - 1].term;
      assert AppendEntries(s, a.(prevLogTerm := t)).1.success;
      assert !AppendEntries(s, a.(prevLogTerm := t + 1)).1.success;
    }
  }

  /** And appendEntries does what the guarded form does unless it hits an empty log behind
      its end, or adopts a new term with an inconsistent request. */
  lemma AppendHandlersAgreeIff(s: NodeState, a: AppendArgs)
    requires a.prevLogIndex >= 0 && Saved(s)
    ensures AppendEntries(s, a) == GuardedAppendEntries(s, a) <==>
      !HitsEmptyLog(s, a) && (a.term <= s.term || |s.log| == 0 || Consistent(s, a))
  {}

  // ----- G5: an empty log places only what starts at its beginning -----

  /** A log the request was cut from. */
  ghost predicate SnapshotOf(a: AppendArgs, log: Log) {
    && 0 <= a.prevLogIndex && a.prevLogIndex + |a.entries| <= |log|
    && a.entries == log[a.prevLogIndex..a.prevLogIndex + |a.entries|]
    && (a.prevLogIndex > 0 ==> a.prevLogTerm == log[a.prevLogIndex - 1].term)
  }

  /** A successful append leaves the follower with the leader's log as sent, except
      exactly when it hit an empty log behind its end. */
  lemma AcceptedLogIff(s: NodeState, a: AppendArgs, log: Log)
    requires SnapshotOf(a, log) && LogsMatch(s.log, log) && AppendEntries(s, a).1.success
    ensures AppendEntries(s, a).0.log == log[..a.prevLogIndex + |a.entries|] <==> !HitsEmptyLog(s, a)
  {
    var prev := a.prevLogIndex;
    if HitsEmptyLog(s, a) {
      assert |AppendEntries(s, a).0.log| == |a.entries|;
    } else {
      if prev > 0 { assert s.log[..prev - 1 + 1] == log[..prev - 1 + 1]; }
      assert s.log[..prev] == log[..prev];
      assert log[..prev] + a.entries == log[..prev + |a.entries|];
    }
  }

  /** A leader of term 2 with the log a@1, b@2, c@2 sends entries 2 and 3; a follower with
      an empty log takes them as its entries 1 and 2, and position 2 now has term 2 in
      both logs and another entry in each. */
  lemma EmptyLogBreaksMatching(s: NodeState)
    requires s.term <= 2 && s.log == []
    ensures
      var log := [LogEntry("a", 1), LogEntry("b", 2), LogEntry("c", 2)];
      var (s1, r) := AppendEntries(s, AppendArgs(2, 0, 1, 1, 0, log[1..]));
      r.success && s1.log == log[1..] && !LogsMatch(s1.log, log)
  {
    var log := [LogEntry("a", 1), LogEntry("b", 2), LogEntry("c", 2)];
    var s1 := AppendEntries(s, AppendArgs(2, 0, 1, 1, 0, log[1..])).0;
    assert s1.log == log[1..];
    assert s1.log[1].term == log[1].term && s1.log[..1 + 1][1] != log[..1 + 1][1];
  }

  // ----- G6: one append exchange at a time, answered while still leading the term -----

  /** After a rejection the next request can be built exactly when the reply names a
      position of the log, or a term that the leader finds before the rejected position;
      the refusal of a stale request names neither. */
  lemma NextRequestIff(s: NodeState, p: int, a: AppendArgs, r: AppendReply)
    requires CanHandleReply(s, p, a, r) && r.term <= s.term && !r.success
    ensures CanBuildAppend(HandleAppendReply(s, p, a, r), p) <==>
      if r.conflictTerm == NOT_SET then 0 <= r.conflictIndex <= |s.log|
      else 1 <= r.conflictIndex <= |s.log| + 1 || exists k :: 0 <= k < a.prevLogIndex && s.log[k].term == r.conflictTerm
  {
    LastOfTermHolds(s.log, r.conflictTerm, a.prevLogIndex);
    forall k | 0 <= k < a.prevLogIndex && s.log[k].term == r.conflictTerm
      ensures LastOfTerm(s.log, r.conflictTerm, a.prevLogIndex) != NOT_SET
    {
      LastOfTermIsLast(s.log, r.conflictTerm, a.prevLogIndex, k + 1);
    }
  }

  /** The refusal of a stale request drives nextIndex to 0. */
  lemma StaleRefusalBreaks(s: NodeState, p: int, a: AppendArgs, f: NodeState)
    requires a.term < f.term <= s.term && CanHandleReply(s, p, a, AppendEntries(f, a).1)
    ensures var s' := HandleAppendReply(s, p, a, AppendEntries(f, a).1);
      s'.nextIndex[p] == 0 && !CanBuildAppend(s', p)
  {}

  /** The answer to a request that reached to the end of the log, handled a second time,
      pushes nextIndex past the log exactly when the request carried entries. */
  lemma SecondAnswerIff(s: NodeState, p: int, a: AppendArgs)
    requires 0 <= p < |s.nextIndex| == |s.matchIndex|
    requires a.prevLogIndex == s.nextIndex[p] - 1 >= 0 && a.prevLogIndex + |a.entries| == |s.log|
    ensures var once := RecordSuccess(s, p, |a.entries|);
      && once.matchIndex[p] == |s.log| && CanBuildAppend(once, p)
      && (CanBuildAppend(RecordSuccess(once, p, |a.entries|), p) <==> |a.entries| == 0)
  {}

  /** Of two requests that a leader cut from its log, the one handled later decides what
      the follower keeps: the matchIndex that the first one earned stays sound exactly
      when the second does not end before it. */
  lemma LaterAppendKeepsIff(f: NodeState, a: AppendArgs, b: AppendArgs, log: Log)
    requires SnapshotOf(a, log) && SnapshotOf(b, log) && LogsMatch(f.log, log) && a.term == b.term
    requires GuardedAppendEntries(f, a).1.success
    requires GuardedAppendEntries(GuardedAppendEntries(f, a).0, b).1.success
    ensures var f2 := GuardedAppendEntries(GuardedAppendEntries(f, a).0, b).0;
      var matched, end := a.prevLogIndex + |a.entries|, b.prevLogIndex + |b.entries|;
      log[..matched] <= f2.log <==> matched <= end
  {
    var f1 := GuardedAppendEntries(f, a).0;
    TakesSnapshot(f, a, log);
    PrefixMatches(log, a.prevLogIndex + |a.entries|);
    TakesSnapshot(f1, b, log);
    var matched, end := a.prevLogIndex + |a.entries|, b.prevLogIndex + |b.entries|;
    assert matched <= end ==> log[..end][..matched] == log[..matched];
  }

  lemma PrefixMatches(log: Log, k: nat)
    requires k <= |log|
    ensures LogsMatch(log[..k], log)
  {
    forall j | 0 <= j < k && log[..k][j].term == log[j].term ensures log[..k][..j + 1] == log[..j + 1] {}
  }

  /** An accepted request leaves the log it was cut from, up to its end. */
  lemma TakesSnapshot(f: NodeState, a: AppendArgs, log: Log)
    requires SnapshotOf(a, log) && LogsMatch(f.log, log) && GuardedAppendEntries(f, a).1.success
    ensures GuardedAppendEntries(f, a).0.log == log[..a.prevLogIndex + |a.entries|]
  {
    var prev := a.prevLogIndex;
    AppendEffect(f, a);
    if prev > 0 { assert f.log[..prev - 1 + 1] == log[..prev - 1 + 1]; }
    assert f.log[..prev] == log[..prev];
    assert log[..prev] + a.entries == log[..prev + |a.entries|];
  }

  // ----- G8: a request is built only while its sender leads -----

  /** A request that a node builds under the term it has reached, whether it leads that
      term or not, makes a consistent follower take the sender's log, and lose nothing
      exactly when its own log was a prefix of the sender's. */
  lemma SenderLogIsTaken(s: NodeState, f: NodeState, self: int, p: int)
    requires CanBuildAppend(s, p) && LogsMatch(f.log, s.log)
    requires f.term <= s.term && Consistent(f, BuildAppend(s, self, p))
    ensures var (f1, r) := GuardedAppendEntries(f, BuildAppend(s, self, p));
      r.success && f1.log == s.log && (f.log <= f1.log <==> f.log <= s.log)
  {
    var a := BuildAppend(s, self, p);
    AppendEffect(f, a);
    TakesSnapshot(f, a, s.log);
    assert s.log[..a.prevLogIndex + |a.entries|] == s.log;
  }

  /** So a former leader of term 1 that adopted term 2 before its sending thread got the
      lock erases the entry that the leader of term 2 had replicated. */
  lemma DemotedRequestErases(s: NodeState, f: NodeState)
    requires s.role == FOLLOWER && s.term == 2 && s.log == [LogEntry("a", 1)] && s.nextIndex == [1, 1, 1]
    requires f.term == 2 && f.log == [LogEntry("b", 2)]
    ensures CanBuildAppend(s, 2)
    ensures var (f1, r) := GuardedAppendEntries(f, BuildAppend(s, 0, 2));
      r.success && f1.log == [LogEntry("a", 1)]
  {
    SenderLogIsTaken(s, f, 0, 2);
  }

  // ----- G9: every peer is asked once in an election -----

  /** A voter asked again in the same election says yes again. */
  lemma GrantedAgain(s: NodeState, a: VoteArgs)
    requires RequestVote(s, a).1.granted
    ensures RequestVote(RequestVote(s, a).0, a).1.granted
  {}

  /** So with five nodes a candidate wins on its own vote and the two answers of one peer. */
  lemma OnePeerElects(s: NodeState, v: NodeState, a: VoteArgs)
    requires s.role == CANDIDATE && s.recvVotes == 1 && s.term == a.term && v.term <= a.term
    requires RequestVote(v, a).1.granted
    ensures
      var (v1, r1) := RequestVote(v, a);
      var (v2, r2) := RequestVote(v1, a);
      WinsElection(HandleVoteReply(HandleVoteReply(s, r1), r2), 5)
  {
    GrantedAgain(v, a);
  }

  // ----- G10: a request arrives whole -----

  /** A follower takes what arrives of a request, and the leader counts what it sent: the
      matchIndex it records is within the follower's log, and the follower holds the
      leader's log that far, exactly when nothing was cut off. */
  lemma CutRequestIff(l: NodeState, f: NodeState, self: int, p: int, k: nat)
    requires CanBuildAppend(l, p) && |l.nextIndex| == |l.matchIndex|
    requires LogsMatch(f.log, l.log) && f.term <= l.term && Consistent(f, BuildAppend(l, self, p))
    requires k <= |BuildAppend(l, self, p).entries|
    ensures var a := BuildAppend(l, self, p);
      var (f1, r) := GuardedAppendEntries(f, a.(entries := a.entries[..k]));
      var matched := RecordSuccess(l, p, |a.entries|).matchIndex[p];
      && r.success && matched == |l.log|
      && (matched <= |f1.log| <==> k == |a.entries|)
      && (l.log[..matched] <= f1.log <==> k == |a.entries|)
  {
    var a := BuildAppend(l, self, p);
    var b := a.(entries := a.entries[..k]);
    AppendEffect(f, b);
    TakesSnapshot(f, b, l.log);
    assert k == |a.entries| ==> l.log[..b.prevLogIndex + k] == l.log;
  }
}
