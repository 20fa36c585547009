/** Elections are always possible: from every reachable state any majority of the nodes
    can elect a leader by itself, with the other nodes silent and with every node waiting
    for its last election's answers as electionLoop does. */
module Availability {
  import opened RaftTypes
  import opened RaftHandlers
  import opened Sets
  import opened Cluster
  import opened ClusterInvariant
  import opened ElectionSteps
  import opened Safety
  import opened Progress

  // ----- the up-to-date test as an order on logs -----

  /** A candidate with the log b passes the test of a voter with the log a. */
  predicate NoOlder(b: Log, a: Log) {
    UpToDate(a, LastTerm(b), |b|)
  }

  /** Of any two logs one is up to date for the other; both are, with terms that are not
      negative, exactly when they have the same length and end in the same term. An empty log
      refuses nobody. */
  lemma OneIsUpToDate(a: Log, b: Log)
    ensures NoOlder(a, b) || NoOlder(b, a)
    ensures NoOlder(a, [])
    ensures LastTerm(a) >= 0 && LastTerm(b) >= 0 ==>
      (NoOlder(a, b) && NoOlder(b, a) <==> |a| == |b| && LastTerm(a) == LastTerm(b))
  {}

  lemma NoOlderTrans(a: Log, b: Log, c: Log)
    requires NoOlder(a, b) && NoOlder(b, c) && LastTerm(a) >= 0 && LastTerm(b) >= 0
    ensures NoOlder(a, c)
  {}

  ghost predicate AreNodes(c: State, group: set<int>) {
    forall q :: q in group ==> IsNode(c, q)
  }

  lemma LogTermsAreTerms(c: State, q: int)
    requires Inv(c) && IsNode(c, q)
    ensures LastTerm(c.nodes[q].log) >= 0
  {
    var log := c.nodes[q].log;
    assert NodeInv(c.history, |c.nodes|, q, c.nodes[q]);
    if log != [] {
      assert RootedAt(c.history, log, |log| - 1);
      assert ElectionInv(c.history, |c.nodes|, LastTerm(log));
    }
  }

  /** So every group of nodes has one whose log is up to date for all of them. */
  lemma {:induction false} MostUpToDate(c: State, group: set<int>) returns (i: int)
    requires Inv(c) && AreNodes(c, group) && group != {}
    ensures i in group
    ensures forall q :: q in group ==> NoOlder(c.nodes[i].log, c.nodes[q].log)
    decreases |group|
  {
    var one := AnyMember(group);
    var rest := group - {one};
    i := one;
    if rest != {} {
      var j := MostUpToDate(c, rest);
      OneIsUpToDate(c.nodes[one].log, c.nodes[j].log);
      LogTermsAreTerms(c, one);
      LogTermsAreTerms(c, j);
      if NoOlder(c.nodes[j].log, c.nodes[one].log) { i := j; }
      forall q | q in rest ensures NoOlder(c.nodes[i].log, c.nodes[q].log) {
        NoOlderTrans(c.nodes[i].log, c.nodes[j].log, c.nodes[q].log);
      }
    }
    forall q | q in group ensures NoOlder(c.nodes[i].log, c.nodes[q].log) {
      if q != one { assert q in rest; }
    }
  }

  lemma {:induction false} HighestTerm(c: State, group: set<int>) returns (j: int)
    requires AreNodes(c, group) && group != {}
    ensures j in group && forall q :: q in group ==> c.nodes[q].term <= c.nodes[j].term
    decreases |group|
  {
    var one := AnyMember(group);
    var rest := group - {one};
    j := one;
    if rest != {} {
      var k := HighestTerm(c, rest);
      if c.nodes[k].term > c.nodes[one].term { j := k; }
      assert forall q :: q in rest ==> c.nodes[q].term <= c.nodes[j].term;
    }
    forall q | q in group ensures c.nodes[q].term <= c.nodes[j].term {
      if q != one { assert q in rest; }
    }
  }

  // ----- runs in which nodes wait -----

  /** A step that the wait in electionLoop allows. */
  ghost predicate Waited(c: State, step: Step) {
    step.Timeout? && IsNode(c, step.node) ==> DoneWaiting(c.nodes[step.node], |c.nodes|)
  }

  ghost predicate WaitedAt(run: seq<State>, k: int)
    requires 0 < k < |run|
  {
    WaitedNext(run[k - 1], run[k])
  }

  ghost predicate WaitedNext(c: State, c': State) {
    exists step :: TakesStep(c, step, c') && Waited(c, step)
  }

  /** run' continues run with steps that the wait allows. */
  ghost predicate Continues(run: seq<State>, run': seq<State>, n: nat) {
    && IsRun(run', n) && run != [] && run <= run'
    && forall k :: |run| <= k < |run'| ==> WaitedAt(run', k)
  }

  lemma ContinuesHere(run: seq<State>, n: nat)
    requires IsRun(run, n)
    ensures Continues(run, run, n)
  {}

  lemma ContinuesStep(run: seq<State>, run': seq<State>, n: nat, step: Step, c: State)
    requires Continues(run, run', n) && TakesStep(Last(run'), step, c) && Waited(Last(run'), step)
    ensures Continues(run, run' + [c], n)
  {
    RunExtends(run', n, step, c);
    var longer := run' + [c];
    forall k | |run| <= k < |longer| ensures WaitedAt(longer, k) {
      if k < |run'| {
        assert WaitedAt(run', k);
      } else {
        assert longer[k - 1] == Last(run') && longer[k] == c;
      }
    }
  }

  lemma ContinuesTrans(run: seq<State>, run': seq<State>, run'': seq<State>, n: nat)
    requires Continues(run, run', n) && Continues(run', run'', n)
    ensures Continues(run, run'', n)
  {
    forall k | |run| <= k < |run''| ensures WaitedAt(run'', k) {
      if k < |run'| { assert WaitedAt(run', k); }
    }
  }

  /** The nodes outside the group are as they were. */
  ghost predicate Silent(c: State, c': State, group: set<int>) {
    && |c'.nodes| == |c.nodes|
    && forall q :: 0 <= q < |c.nodes| && q !in group ==> c'.nodes[q] == c.nodes[q]
  }

  /** And so is every log. */
  ghost predicate OnlyGroup(c: State, c': State, group: set<int>) {
    Silent(c, c', group) && forall q :: 0 <= q < |c.nodes| ==> c'.nodes[q].log == c.nodes[q].log
  }

  // ----- a node can stand -----

  /** A node that hangs in its last election is restarted; as it does not lead, it loses
      neither term nor log. */
  lemma Ready(run: seq<State>, n: nat, i: int) returns (run': seq<State>)
    requires IsRun(run, n) && IsNode(Last(run), i) && Last(run).nodes[i].role != LEADER
    ensures Continues(run, run', n)
    ensures var c, c' := Last(run), Last(run');
      && OnlyGroup(c, c', {i}) && |c'.nodes| == n
      && c'.nodes[i].term == c.nodes[i].term && c'.nodes[i].role != LEADER && DoneWaiting(c'.nodes[i], n)
  {
    var c := Last(run);
    RunHolds(run, n, |run| - 1);
    ContinuesHere(run, n);
    if DoneWaiting(c.nodes[i], n) {
      run' := run;
    } else {
      assert NodeInv(c.history, n, i, c.nodes[i]);
      var c' := c.(nodes := c.nodes[i := Boot(n, c.nodes[i].disk)]);
      ContinuesStep(run, run, n, Crash(i), c');
      run' := run + [c'];
    }
  }

  /** Candidate i of term t with the given log has asked the nodes of the group from k on. */
  ghost predicate Asks(c: State, group: set<int>, i: int, k: int, t: int, log: Log) {
    forall q :: q in group && q != i && q >= k ==> Asked(c, i, q, t, log)
  }

  ghost predicate Asked(c: State, i: int, q: int, t: int, log: Log) {
    IsNode(c, q) && c.nodes[q].term < t && NoOlder(log, c.nodes[q].log) && Sent(c, i, q, t, log)
  }

  ghost predicate Sent(c: State, i: int, q: int, t: int, log: Log) {
    (t, i, q) in c.votes && c.votes[(t, i, q)] == VoteCall(VoteArgs(t, i, LastTerm(log), |log|))
  }

  /** The members of the group whose votes have been counted: the candidate and those
      below k. */
  ghost function Counted(group: set<int>, i: int, k: int): set<int> {
    set q | q in group && (q == i || q < k)
  }

  ghost predicate Standing(c: State, n: nat, group: set<int>, i: int, k: int, t: int, log: Log) {
    && |c.nodes| == n && AreNodes(c, group) && i in group
    && (forall q :: q in group ==> c.nodes[q].term <= t)
    && var s := c.nodes[i];
    && s.role == CANDIDATE && s.term == t && s.log == log && s.recvVotes == |Counted(group, i, k)|
    && Asks(c, group, i, k, t, log)
  }

  lemma CountedMore(group: set<int>, i: int, k: int)
    ensures Counted(group, i, k + 1) == Counted(group, i, k) + if k in group then {k} else {}
    ensures k in group && k != i ==> |Counted(group, i, k + 1)| == |Counted(group, i, k)| + 1
  {}

  /** A time-out: the candidate and the requests it sends. */
  lemma StandStep(c: State, i: int) returns (c': State)
    requires IsNode(c, i) && c.nodes[i].role != LEADER
    ensures TakesStep(c, Timeout(i), c') && OnlyGroup(c, c', {i})
    ensures c'.nodes[i].role == CANDIDATE && c'.nodes[i].term == c.nodes[i].term + 1 && c'.nodes[i].recvVotes == 1
    ensures forall q :: IsNode(c, q) && q != i ==> Sent(c', i, q, c.nodes[i].term + 1, c.nodes[i].log)
  {
    c' := DoTimeout(c, i);
    forall q | IsNode(c, q) && q != i ensures Sent(c', i, q, c.nodes[i].term + 1, c.nodes[i].log) {
      RequestSent(c, i, q);
    }
  }

  /** The node of a group with the highest term and no older log starts an election. */
  lemma Stands(run: seq<State>, n: nat, group: set<int>, i: int) returns (run': seq<State>)
    requires IsRun(run, n) && |Last(run).nodes| == n && CanStand(Last(run), group, i)
    ensures Continues(run, run', n)
    ensures var c := Last(run);
      && OnlyGroup(c, Last(run'), {i})
      && Standing(Last(run'), n, group, i, 0, c.nodes[i].term + 1, c.nodes[i].log)
  {
    var c := Last(run);
    var c' := StandStep(c, i);
    ContinuesHere(run, n);
    ContinuesStep(run, run, n, Timeout(i), c');
    run' := run + [c'];
    StandsIn(c, c', group, i);
  }

  ghost predicate CanStand(c: State, group: set<int>, i: int) {
    && AreNodes(c, group) && i in group && c.nodes[i].role != LEADER && DoneWaiting(c.nodes[i], |c.nodes|)
    && forall q :: q in group ==> c.nodes[q].term <= c.nodes[i].term && NoOlder(c.nodes[i].log, c.nodes[q].log)
  }

  lemma StandsIn(c: State, c': State, group: set<int>, i: int)
    requires CanStand(c, group, i) && OnlyGroup(c, c', {i})
    requires c'.nodes[i].role == CANDIDATE && c'.nodes[i].term == c.nodes[i].term + 1 && c'.nodes[i].recvVotes == 1
    requires forall q :: IsNode(c, q) && q != i ==> Sent(c', i, q, c.nodes[i].term + 1, c.nodes[i].log)
    ensures Standing(c', |c.nodes|, group, i, 0, c.nodes[i].term + 1, c.nodes[i].log)
  {
    assert Counted(group, i, 0) == {i};
    forall q | q in group && q != i ensures Asked(c', i, q, c.nodes[i].term + 1, c.nodes[i].log) {
      assert Sent(c', i, q, c.nodes[i].term + 1, c.nodes[i].log);
    }
  }

  lemma RequestSent(c: State, i: int, q: int)
    requires IsNode(c, i) && IsNode(c, q) && q != i
    ensures var t, log := c.nodes[i].term + 1, c.nodes[i].log;
      Sent(DoTimeout(c, i), i, q, t, log)
  {
    RecipientsAreOthers(|c.nodes|, i, q);
    assert (c.nodes[i].term + 1, i, q) in RecipientKeys(|c.nodes|, c.nodes[i].term + 1, i);
  }

  lemma VoteGranted(c: State, i: int, q: int, t: int, log: Log) returns (c': State)
    requires Asked(c, i, q, t, log)
    ensures TakesStep(c, DeliverVote(t, i, q), c')
    ensures OnlyGroup(c, c', {q}) && c'.nodes[q].term == t && c'.nodes == c.nodes[q := c'.nodes[q]]
    ensures c'.votes == c.votes[(t, i, q) :=
      VoteReturn(VoteArgs(t, i, LastTerm(log), |log|), VoteReply(c.nodes[q].term, true))]
  {
    c' := DoDeliverVote(c, t, i, q);
  }

  lemma VoteCounted(c: State, i: int, q: int, t: int, a: VoteArgs, r: VoteReply) returns (c': State)
    requires IsNode(c, i) && c.nodes[i].role == CANDIDATE && c.nodes[i].term == t && r.granted && r.term <= t
    requires (t, i, q) in c.votes && c.votes[(t, i, q)] == VoteReturn(a, r)
    ensures TakesStep(c, CountVote(t, i, q), c')
    ensures c'.votes == c.votes - {(t, i, q)}
    ensures c'.nodes == c.nodes[i := c.nodes[i].(recvVotes := c.nodes[i].recvVotes + 1,
                                                 finishedVote := c.nodes[i].finishedVote + 1)]
  {
    c' := DoCountVote(c, t, i, q);
  }

  lemma VoteStep(c: State, n: nat, group: set<int>, i: int, k: nat, t: int, log: Log) returns (c1: State, c2: State)
    requires Standing(c, n, group, i, k, t, log) && k in group && k != i
    ensures TakesStep(c, DeliverVote(t, i, k), c1) && TakesStep(c1, CountVote(t, i, k), c2)
    ensures OnlyGroup(c, c2, group) && Standing(c2, n, group, i, k + 1, t, log)
  {
    assert Asked(c, i, k, t, log);
    c1 := VoteGranted(c, i, k, t, log);
    c2 := VoteCounted(c1, i, k, t, VoteArgs(t, i, LastTerm(log), |log|), VoteReply(c.nodes[k].term, true));
    CountedMore(group, i, k);
    StillAsked(c, c2, group, i, k, t, log);
  }

  /** One more member of the group is asked, votes, and its vote is counted. */
  lemma OneVotes(run: seq<State>, n: nat, group: set<int>, i: int, k: nat, t: int, log: Log) returns (run': seq<State>)
    requires IsRun(run, n) && Standing(Last(run), n, group, i, k, t, log) && k in group && k != i
    ensures Continues(run, run', n) && OnlyGroup(Last(run), Last(run'), group)
    ensures Standing(Last(run'), n, group, i, k + 1, t, log)
  {
    var c1, c2 := VoteStep(Last(run), n, group, i, k, t, log);
    ContinuesHere(run, n);
    ContinuesStep(run, run, n, DeliverVote(t, i, k), c1);
    ContinuesStep(run, run + [c1], n, CountVote(t, i, k), c2);
    run' := run + [c1] + [c2];
  }

  lemma StillAsked(c: State, c': State, group: set<int>, i: int, k: int, t: int, log: Log)
    requires Asks(c, group, i, k, t, log) && |c'.nodes| == |c.nodes|
    requires forall q :: 0 <= q < |c.nodes| && q != i && q != k ==> c'.nodes[q] == c.nodes[q]
    requires forall q :: (t, i, q) in c.votes && q != k ==>
      (t, i, q) in c'.votes && c'.votes[(t, i, q)] == c.votes[(t, i, q)]
    ensures Asks(c', group, i, k + 1, t, log)
  {
    forall q | q in group && q != i && q >= k + 1 ensures Asked(c', i, q, t, log) {
      assert Asked(c, i, q, t, log);
    }
  }

  lemma NextMember(run: seq<State>, n: nat, group: set<int>, i: int, k: nat, t: int, log: Log)
      returns (run': seq<State>)
    requires IsRun(run, n) && Standing(Last(run), n, group, i, k, t, log)
    ensures Continues(run, run', n) && OnlyGroup(Last(run), Last(run'), group)
    ensures Standing(Last(run'), n, group, i, k + 1, t, log)
  {
    if k in group && k != i {
      run' := OneVotes(run, n, group, i, k, t, log);
    } else {
      ContinuesHere(run, n);
      CountedMore(group, i, k);
      assert k in group ==> Counted(group, i, k + 1) == Counted(group, i, k);
      run' := run;
    }
  }

  lemma {:induction false} AllVote(run: seq<State>, n: nat, group: set<int>, i: int, k: nat, t: int, log: Log)
      returns (run': seq<State>)
    requires IsRun(run, n) && Standing(Last(run), n, group, i, 0, t, log)
    ensures Continues(run, run', n) && OnlyGroup(Last(run), Last(run'), group)
    ensures Standing(Last(run'), n, group, i, k, t, log)
  {
    if k == 0 {
      ContinuesHere(run, n);
      run' := run;
    } else {
      var before := AllVote(run, n, group, i, k - 1, t, log);
      run' := NextMember(before, n, group, i, k - 1, t, log);
      ContinuesTrans(run, before, run', n);
    }
  }

  /** Node i leads, and nobody in the group is ahead of it. */
  ghost predicate LeadsGroup(c: State, group: set<int>, i: int) {
    && i in group && AreNodes(c, group) && c.nodes[i].role == LEADER
    && forall q :: q in group ==> c.nodes[q].term <= c.nodes[i].term
  }

  lemma TakesOffice(run: seq<State>, n: nat, group: set<int>, i: int, t: int, log: Log) returns (run': seq<State>)
    requires IsRun(run, n) && Standing(Last(run), n, group, i, n, t, log) && 2 * |group| > n
    ensures Continues(run, run', n) && OnlyGroup(Last(run), Last(run'), group)
    ensures LeadsGroup(Last(run'), group, i) && Last(run').nodes[i].term == t && Last(run').nodes[i].log == log
  {
    var c := Last(run);
    assert Counted(group, i, n) == group;
    ContinuesHere(run, n);
    ContinuesStep(run, run, n, Win(i), DoWin(c, i));
    run' := run + [DoWin(c, i)];
  }

  /** A majority that includes a node with the highest term and no older log elects it. */
  lemma Elects(run: seq<State>, n: nat, group: set<int>, i: int) returns (run': seq<State>)
    requires IsRun(run, n) && |Last(run).nodes| == n && CanStand(Last(run), group, i) && 2 * |group| > n
    ensures Continues(run, run', n) && OnlyGroup(Last(run), Last(run'), group)
    ensures LeadsGroup(Last(run'), group, i)
    ensures Last(run').nodes[i].term == Last(run).nodes[i].term + 1
    ensures Last(run').nodes[i].log == Last(run).nodes[i].log
  {
    var t, log := Last(run).nodes[i].term + 1, Last(run).nodes[i].log;
    var stood := Stands(run, n, group, i);
    var voted := AllVote(stood, n, group, i, n, t, log);
    run' := TakesOffice(voted, n, group, i, t, log);
    ContinuesTrans(run, stood, voted, n);
    ContinuesTrans(run, voted, run', n);
  }

  // ----- from any state -----

  /** A request of a higher term brings a node to that term and out of office. */
  lemma TermTaken(c: State, j: int, i: int, t: int, log: Log) returns (c': State)
    requires IsNode(c, i) && c.nodes[i].term < t && Sent(c, j, i, t, log)
    ensures TakesStep(c, DeliverVote(t, j, i), c') && OnlyGroup(c, c', {i})
    ensures c'.nodes[i].term == t && c'.nodes[i].role != LEADER
  {
    c' := DoDeliverVote(c, t, j, i);
  }

  /** Nobody in the group is ahead of node i, which does not lead. */
  ghost predicate OnTop(c: State, group: set<int>, i: int) {
    && AreNodes(c, group) && i in group && c.nodes[i].role != LEADER
    && forall q :: q in group ==> c.nodes[q].term <= c.nodes[i].term
  }

  lemma TermPasses(c: State, group: set<int>, j: int, i: int) returns (c1: State, c2: State)
    requires OnTop(c, group, j) && i in group && i != j
    ensures TakesStep(c, Timeout(j), c1) && TakesStep(c1, DeliverVote(c.nodes[j].term + 1, j, i), c2)
    ensures OnlyGroup(c, c2, group) && OnTop(c2, group, i)
  {
    c1 := StandStep(c, j);
    assert Sent(c1, j, i, c.nodes[j].term + 1, c.nodes[j].log);
    c2 := TermTaken(c1, j, i, c.nodes[j].term + 1, c.nodes[j].log);
  }

  /** A node with the highest term of the group stands, so that node i takes over its
      term and gives up any office it holds. */
  lemma CatchesTerm(run: seq<State>, n: nat, group: set<int>, j: int, i: int) returns (run': seq<State>)
    requires IsRun(run, n) && |Last(run).nodes| == n && OnTop(Last(run), group, j) && DoneWaiting(Last(run).nodes[j], n)
    requires i in group && i != j
    ensures Continues(run, run', n) && OnlyGroup(Last(run), Last(run'), group) && OnTop(Last(run'), group, i)
  {
    var c := Last(run);
    var c1, c2 := TermPasses(c, group, j, i);
    ContinuesHere(run, n);
    ContinuesStep(run, run, n, Timeout(j), c1);
    ContinuesStep(run, run + [c1], n, DeliverVote(c.nodes[j].term + 1, j, i), c2);
    run' := run + [c1] + [c2];
  }

  /** A group without a leader in its highest term brings the node with the best log on top. */
  lemma BestOnTop(run: seq<State>, n: nat, group: set<int>, j: int, i: int) returns (run': seq<State>)
    requires IsRun(run, n) && AreNodes(Last(run), group) && j in group && i in group
    requires var c := Last(run);
      && (forall q :: q in group ==> c.nodes[q].term <= c.nodes[j].term)
      && (forall q :: q in group && c.nodes[q].term == c.nodes[j].term ==> c.nodes[q].role != LEADER)
    ensures Continues(run, run', n) && OnlyGroup(Last(run), Last(run'), group) && OnTop(Last(run'), group, i)
  {
    if Last(run).nodes[i].term < Last(run).nodes[j].term {
      var ready := Ready(run, n, j);
      run' := CatchesTerm(ready, n, group, j, i);
      ContinuesTrans(run, ready, run', n);
    } else {
      ContinuesHere(run, n);
      run' := run;
    }
  }

  lemma BestElected(run: seq<State>, n: nat, group: set<int>, i: int) returns (run': seq<State>)
    requires IsRun(run, n) && OnTop(Last(run), group, i) && 2 * |group| > n
    requires forall q :: q in group ==> NoOlder(Last(run).nodes[i].log, Last(run).nodes[q].log)
    ensures Continues(run, run', n) && OnlyGroup(Last(run), Last(run'), group) && LeadsGroup(Last(run'), group, i)
  {
    var ready := Ready(run, n, i);
    run' := Elects(ready, n, group, i);
    ContinuesTrans(run, ready, run', n);
  }

  /** From every reachable state any majority of the nodes can come to have a leader that
      none of them is ahead of, while no log changes and the others do nothing at all. */
  lemma MajorityElects(run: seq<State>, n: nat, group: set<int>) returns (run': seq<State>, i: int)
    requires IsRun(run, n) && AreNodes(Last(run), group) && 2 * |group| > n
    ensures Continues(run, run', n) && OnlyGroup(Last(run), Last(run'), group)
    ensures LeadsGroup(Last(run'), group, i)
  {
    var j := HighestTerm(Last(run), group);
    if q :| q in group && Last(run).nodes[q].role == LEADER && Last(run).nodes[q].term == Last(run).nodes[j].term {
      ContinuesHere(run, n);
      run', i := run, q;
    } else {
      RunHolds(run, n, |run| - 1);
      i := MostUpToDate(Last(run), group);
      var level := BestOnTop(run, n, group, j, i);
      run' := BestElected(level, n, group, i);
      ContinuesTrans(run, level, run', n);
    }
  }
}
