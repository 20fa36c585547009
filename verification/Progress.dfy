/** Catch-up inside a cluster: a leader and a follower of any reachable state satisfy
    what CatchUp asks of them, and each of its rounds is three steps of the cluster, so
    every run can be continued until the follower holds the leader's log. */
module Progress {
  import opened RaftTypes
  import opened RaftHandlers
  import opened Quorum
  import opened Cluster
  import opened ClusterInvariant
  import opened HistoryGrowth
  import opened ReplicationSteps
  import opened CatchUp
  import opened Safety

  /** Node i leads, p is another node that is not ahead of it in term, and no append
      between the two is under way. */
  ghost predicate Idle(c: State, i: int, p: int) {
    && IsNode(c, i) && IsNode(c, p) && p != i
    && c.nodes[i].role == LEADER && c.nodes[p].term <= c.nodes[i].term
    && (c.nodes[i].term, p) !in c.appends
  }

  /** Any leader and any follower not ahead of it are a catch-up pair. */
  lemma PairHolds(c: State, i: int, p: int)
    requires Inv(c) && IsNode(c, i) && IsNode(c, p)
    requires c.nodes[i].role == LEADER && c.nodes[p].term <= c.nodes[i].term
    ensures Pair(c.nodes[i], c.nodes[p], p)
  {
    var h, n, l, f := c.history, |c.nodes|, c.nodes[i], c.nodes[p];
    assert NodeInv(h, n, i, l) && NodeInv(h, n, p, f);
    RootedSorted(h, n, l.log);
    RootedSorted(h, n, f.log);
    RootedLogsMatch(h, l.log, f.log);
    forall q | 0 <= q < n ensures l.matchIndex[q] <= |l.log| && 1 <= l.nextIndex[q] <= |l.log| + 1 {
      assert ProgressInv(h, l, q);
      assert AckInv(h, l.term, q);
    }
  }

  /** Three consecutive steps of the cluster. */
  ghost predicate Exchange(c: State, i: int, p: int, c1: State, c2: State, c3: State)
    requires IsNode(c, i)
  {
    var t := c.nodes[i].term;
    TakesStep(c, SendAppend(i, p), c1) && TakesStep(c1, DeliverAppend(t, p), c2) && TakesStep(c2, HandleReply(t, p), c3)
  }

  lemma SendStep(c: State, i: int, p: int) returns (c1: State)
    requires Inv(c) && Idle(c, i, p)
    ensures Inv(c1) && TakesStep(c, SendAppend(i, p), c1) && CanBuildAppend(c.nodes[i], p)
    ensures c1 == c.(appends := c.appends[(c.nodes[i].term, p) := AppendCall(BuildAppend(c.nodes[i], i, p))])
  {
    SendInRange(c, i, p);
    SendKeeps(c, i, p);
    c1 := DoSendAppend(c, i, p);
  }

  lemma DeliverStep(c: State, t: int, p: int) returns (c': State)
    requires Inv(c) && Enabled(c, DeliverAppend(t, p))
    ensures Inv(c') && TakesStep(c, DeliverAppend(t, p), c')
    ensures var a := c.appends[(t, p)].args;
      && a.prevLogIndex >= 0
      && var (f, r) := GuardedAppendEntries(c.nodes[p], a);
      c'.nodes == c.nodes[p := f] && c'.appends == c.appends[(t, p) := AppendReturn(a, r)]
  {
    DeliveryHolds(c, t, p);
    DeliverKeeps(c, t, p);
    c' := DoDeliverAppend(c, t, p);
  }

  lemma ReplyStep(c: State, t: int, p: int) returns (c': State)
    requires Inv(c) && Enabled(c, HandleReply(t, p))
    ensures Inv(c') && TakesStep(c, HandleReply(t, p), c')
    ensures var rpc := c.appends[(t, p)];
      && CanHandleReply(c.nodes[rpc.args.leaderId], p, rpc.args, rpc.reply)
      && c'.nodes == c.nodes[rpc.args.leaderId := HandleAppendReply(c.nodes[rpc.args.leaderId], p, rpc.args, rpc.reply)]
      && c'.appends == c.appends - {(t, p)}
  {
    AnswerHolds(c, t, p);
    ReplyKeeps(c, t, p);
    c' := DoHandleReply(c, t, p);
  }

  lemma ExchangeSteps(c: State, i: int, p: int) returns (c1: State, c2: State, c3: State)
    requires Inv(c) && Idle(c, i, p)
    ensures Exchange(c, i, p, c1, c2, c3) && Exchanged(c, i, p, c3)
  {
    var t := c.nodes[i].term;
    c1 := SendStep(c, i, p);
    c2 := DeliverStep(c1, t, p);
    c3 := ReplyStep(c2, t, p);
  }

  /** What an exchange leaves behind: the follower handled the leader's request, the
      leader the reply, no other node changed, and the exchange is over. */
  ghost predicate Exchanged(c: State, i: int, p: int, c3: State)
    requires IsNode(c, i) && IsNode(c, p)
  {
    && CanBuildAppend(c.nodes[i], p)
    && var a := BuildAppend(c.nodes[i], i, p);
    && a.prevLogIndex >= 0
    && var (f, r) := GuardedAppendEntries(c.nodes[p], a);
    && CanHandleReply(c.nodes[i], p, a, r)
    && c3.nodes == c.nodes[p := f][i := HandleAppendReply(c.nodes[i], p, a, r)]
    && c3.appends.Keys <= c.appends.Keys
  }

  lemma RoundParts(l: NodeState, f: NodeState, i: int, p: int)
    requires Pair(l, f, p) && CanBuildAppend(l, p)
    ensures var a := BuildAppend(l, i, p);
      && a.prevLogIndex >= 0
      && var (f', r) := GuardedAppendEntries(f, a);
      CanHandleReply(l, p, a, r) && Round(l, f, i, p) == (HandleAppendReply(l, p, a, r), f')
  {
    RoundInRange(l, f, i, p);
  }

  lemma RunExtends(run: seq<State>, n: nat, step: Step, c: State)
    requires IsRun(run, n) && TakesStep(run[|run| - 1], step, c)
    ensures IsRun(run + [c], n)
  {
    var run' := run + [c];
    forall k | 0 < k < |run'| ensures StepsAt(run', k) {
      if k < |run| {
        assert StepsAt(run, k);
      } else {
        assert run'[k - 1] == run[|run| - 1];
      }
    }
  }

  lemma ExchangeExtends(run: seq<State>, n: nat, i: int, p: int, c1: State, c2: State, c3: State)
    requires IsRun(run, n) && IsNode(run[|run| - 1], i) && Exchange(run[|run| - 1], i, p, c1, c2, c3)
    ensures IsRun(run + [c1, c2, c3], n)
  {
    var t := run[|run| - 1].nodes[i].term;
    RunExtends(run, n, SendAppend(i, p), c1);
    RunExtends(run + [c1], n, DeliverAppend(t, p), c2);
    RunExtends(run + [c1] + [c2], n, HandleReply(t, p), c3);
    assert run + [c1] + [c2] + [c3] == run + [c1, c2, c3];
  }

  lemma ExchangeInRun(run: seq<State>, n: nat, i: int, p: int) returns (three: seq<State>)
    requires IsRun(run, n) && Idle(run[|run| - 1], i, p)
    ensures IsRun(run + three, n) && |three| == 3 && Exchanged(run[|run| - 1], i, p, three[2])
  {
    RunHolds(run, n, |run| - 1);
    var c1, c2, c3 := ExchangeSteps(run[|run| - 1], i, p);
    ExchangeExtends(run, n, i, p, c1, c2, c3);
    three := [c1, c2, c3];
  }

  lemma PairInRun(run: seq<State>, n: nat, i: int, p: int)
    requires IsRun(run, n) && Idle(run[|run| - 1], i, p)
    ensures Pair(run[|run| - 1].nodes[i], run[|run| - 1].nodes[p], p)
  {
    RunHolds(run, n, |run| - 1);
    PairHolds(run[|run| - 1], i, p);
  }

  /** The two nodes took one catch-up round; no other node and no other exchange changed. */
  ghost predicate TookRound(c: State, c': State, i: int, p: int)
    requires IsNode(c, i) && IsNode(c, p)
  {
    && Pair(c.nodes[i], c.nodes[p], p) && c'.appends.Keys <= c.appends.Keys
    && var (l, f) := Round(c.nodes[i], c.nodes[p], i, p); c'.nodes == c.nodes[i := l][p := f]
  }

  lemma ExchangedIsRound(c: State, c': State, i: int, p: int)
    requires IsNode(c, i) && IsNode(c, p) && p != i
    requires Exchanged(c, i, p, c') && Pair(c.nodes[i], c.nodes[p], p)
    ensures TookRound(c, c', i, p)
  {
    RoundParts(c.nodes[i], c.nodes[p], i, p);
  }

  /** A catch-up round is a send, its delivery and the handling of its reply. */
  lemma RoundInRun(run: seq<State>, n: nat, i: int, p: int) returns (three: seq<State>)
    requires IsRun(run, n) && Idle(run[|run| - 1], i, p)
    ensures IsRun(run + three, n) && |three| == 3
    ensures TookRound(run[|run| - 1], three[2], i, p)
  {
    PairInRun(run, n, i, p);
    three := ExchangeInRun(run, n, i, p);
    ExchangedIsRound(run[|run| - 1], three[2], i, p);
  }

  /** The rejections that catch-up of p still needs. */
  ghost function Rejections(c: State, i: int, p: int): nat
    requires IsNode(c, i) && IsNode(c, p)
  {
    if Pair(c.nodes[i], c.nodes[p], p) then CatchUp.CatchUp(c.nodes[i], c.nodes[p], i, p).0 else 0
  }

  /** What a catch-up of p leaves alone in the leader. */
  ghost predicate SameLeader(l: NodeState, l': NodeState, p: int) {
    && l'.role == l.role && l'.term == l.term && l'.log == l.log && |l'.matchIndex| == |l.matchIndex|
    && l'.commitIndex >= l.commitIndex
    && forall q :: 0 <= q < |l.matchIndex| && q != p ==> l'.matchIndex[q] == l.matchIndex[q]
  }

  /** The leader has committed what the median of its table lets it commit. */
  ghost predicate MedianCommitted(l: NodeState) {
    l.matchIndex != [] &&
    var m := Median(l.matchIndex);
    1 <= m <= |l.log| && l.log[m - 1].term == l.term ==> m <= l.commitIndex
  }

  /** The follower holds the leader's log, and the leader knows it and acted on it. */
  ghost predicate Settled(l: NodeState, f: NodeState, p: int) {
    && f.log == l.log && 0 <= p < |l.matchIndex| && l.matchIndex[p] == |l.log| && MedianCommitted(l)
  }

  /** The follower has committed what the leader had. */
  ghost predicate Heard(l: NodeState, f: NodeState) {
    f.commitIndex >= Min(l.commitIndex, |l.log|)
  }

  /** What a catch-up of p by i leaves alone in the cluster. */
  ghost predicate Stays(c: State, c': State, i: int, p: int)
    requires IsNode(c, i) && IsNode(c, p)
  {
    && |c'.nodes| == |c.nodes| && c'.appends.Keys <= c.appends.Keys
    && (forall q :: 0 <= q < |c.nodes| && q != i && q != p ==> c'.nodes[q] == c.nodes[q])
    && SameLeader(c.nodes[i], c'.nodes[i], p) && c'.nodes[p].term <= c.nodes[i].term
  }

  lemma AdvanceSettles(l: NodeState)
    requires CanAdvanceCommit(l)
    ensures MedianCommitted(AdvanceCommit(l))
  {
    assert AdvanceCommit(l).matchIndex == l.matchIndex;
  }

  /** What the leader does with the answer of an accepted request. */
  lemma SuccessHandled(l: NodeState, p: int, a: AppendArgs, r: AppendReply)
    requires CanHandleReply(l, p, a, r) && r.success && r.term <= l.term
    ensures var l' := HandleAppendReply(l, p, a, r);
      SameLeader(l, l', p) && MedianCommitted(l')
  {
    var s := RecordSuccess(l, p, |a.entries|);
    AdvanceSettles(s);
    assert HandleAppendReply(l, p, a, r).matchIndex == AdvanceCommit(s).matchIndex;
  }

  lemma AcceptedLeader(l: NodeState, f: NodeState, i: int, p: int)
    requires Pair(l, f, p) && CanBuildAppend(l, p) && Agrees(l, f, i, p)
    ensures var (l', f') := Round(l, f, i, p);
      SameLeader(l, l', p) && f'.term == l.term && MedianCommitted(l')
  {
    var a := BuildAppend(l, i, p);
    RoundParts(l, f, i, p);
    AppendEffect(f, a);
    SuccessHandled(l, p, a, GuardedAppendEntries(f, a).1);
  }

  /** An accepted request tells the follower how far the leader has committed. */
  lemma AcceptedHeard(l: NodeState, f: NodeState, i: int, p: int)
    requires Pair(l, f, p) && CanBuildAppend(l, p) && Agrees(l, f, i, p)
    ensures Heard(l, Round(l, f, i, p).1)
  {
    var a := BuildAppend(l, i, p);
    AppendEffect(f, a);
    AcceptedRound(l, f, i, p);
  }

  lemma AcceptedSettles(l: NodeState, f: NodeState, i: int, p: int)
    requires Pair(l, f, p) && CanBuildAppend(l, p) && Agrees(l, f, i, p)
    ensures var (l', f') := Round(l, f, i, p);
      SameLeader(l, l', p) && f'.term == l.term && Settled(l', f', p) && Heard(l, f')
  {
    AcceptedRound(l, f, i, p);
    AcceptedLeader(l, f, i, p);
    AcceptedHeard(l, f, i, p);
  }

  lemma RejectedStays(l: NodeState, f: NodeState, i: int, p: int)
    requires Pair(l, f, p) && CanBuildAppend(l, p) && !Agrees(l, f, i, p)
    ensures var (l', f') := Round(l, f, i, p);
      SameLeader(l, l', p) && f'.term == l.term && Pair(l', f', p)
  {
    RejectedRound(l, f, i, p);
    AppendEffect(f, BuildAppend(l, i, p));
  }

  /** One round, seen from the pair: it ends catch-up, or leaves a pair that is one
      rejection closer to its end. */
  lemma RoundOutcome(l: NodeState, f: NodeState, i: int, p: int)
    requires Pair(l, f, p)
    ensures var (l', f') := Round(l, f, i, p);
      && SameLeader(l, l', p) && f'.term == l.term
      && if CatchUp.CatchUp(l, f, i, p).0 == 0 then Settled(l', f', p) && Heard(l, f')
         else Pair(l', f', p) && CatchUp.CatchUp(l', f', i, p).0 + 1 == CatchUp.CatchUp(l, f, i, p).0
  {
    RoundInRange(l, f, i, p);
    if Agrees(l, f, i, p) {
      AcceptedSettles(l, f, i, p);
    } else {
      RejectedStays(l, f, i, p);
      RejectedRound(l, f, i, p);
      var (l', f') := Round(l, f, i, p);
      assert CatchUp.CatchUp(l, f, i, p).0 == CatchUp.CatchUp(l', f', i, p).0 + 1;
    }
  }

  lemma RoundOfRun(run: seq<State>, n: nat, i: int, p: int) returns (three: seq<State>)
    requires IsRun(run, n) && Idle(run[|run| - 1], i, p)
    ensures IsRun(run + three, n) && |three| == 3
    ensures var c, c' := run[|run| - 1], three[2];
      && Stays(c, c', i, p)
      && if Rejections(c, i, p) == 0 then Settled(c'.nodes[i], c'.nodes[p], p) && Heard(c.nodes[i], c'.nodes[p])
         else Rejections(c', i, p) + 1 == Rejections(c, i, p)
  {
    var c := run[|run| - 1];
    three := RoundInRun(run, n, i, p);
    RoundOutcome(c.nodes[i], c.nodes[p], i, p);
  }

  lemma StaysTrans(c: State, c': State, c'': State, i: int, p: int)
    requires IsNode(c, i) && IsNode(c, p) && Stays(c, c', i, p) && Stays(c', c'', i, p)
    ensures Stays(c, c'', i, p)
  {}

  lemma StaysIdle(c: State, c': State, i: int, p: int)
    requires Idle(c, i, p) && Stays(c, c', i, p)
    ensures Idle(c', i, p)
  {}

  ghost function Last(run: seq<State>): State
    requires run != []
  {
    run[|run| - 1]
  }

  /** rest continues the run until p holds the leader's log and has committed what the
      leader had. */
  ghost predicate Catches(run: seq<State>, n: nat, i: int, p: int, rest: seq<State>)
    requires run != [] && IsNode(Last(run), i) && IsNode(Last(run), p)
  {
    && rest != [] && IsRun(run + rest, n) && Stays(Last(run), Last(rest), i, p)
    && Settled(Last(rest).nodes[i], Last(rest).nodes[p], p) && Heard(Last(run).nodes[i], Last(rest).nodes[p])
  }

  lemma CatchesLater(run: seq<State>, n: nat, i: int, p: int, three: seq<State>, more: seq<State>)
    requires run != [] && three != [] && IsNode(Last(run), i) && IsNode(Last(run), p)
    requires Stays(Last(run), Last(three), i, p) && Last(run + three) == Last(three)
    requires Catches(run + three, n, i, p, more)
    ensures Catches(run, n, i, p, three + more)
  {
    assert run + three + more == run + (three + more);
    StaysTrans(Last(run), Last(three), Last(more), i, p);
  }

  /** From every reachable state with a leader i and a follower p the run can go on,
      with three steps for each rejection and three for the acceptance and without the
      log of the leader or any third node changing, until p holds exactly the leader's
      log, the leader has counted it, and p has committed what the leader had. */
  lemma {:induction false} RunCatchesUp(run: seq<State>, n: nat, i: int, p: int) returns (rest: seq<State>)
    requires IsRun(run, n) && Idle(Last(run), i, p)
    ensures Catches(run, n, i, p, rest)
    ensures |rest| == 3 * (Rejections(Last(run), i, p) + 1)
    decreases Rejections(Last(run), i, p)
  {
    var three := RoundOfRun(run, n, i, p);
    if Rejections(Last(run), i, p) == 0 {
      rest := three;
    } else {
      StaysIdle(Last(run), Last(three), i, p);
      assert Last(run + three) == Last(three);
      var more := RunCatchesUp(run + three, n, i, p);
      CatchesLater(run, n, i, p, three, more);
      rest := three + more;
    }
  }

  /** How few those steps are: the follower's terms bound the rejections. */
  lemma RejectionsInRun(run: seq<State>, n: nat, i: int, p: int)
    requires IsRun(run, n) && Idle(run[|run| - 1], i, p)
    ensures var log := Last(run).nodes[p].log;
      Rejections(Last(run), i, p) <= 1 + |TermsOf(log, |log|)|
  {
    PairInRun(run, n, i, p);
    RejectionBound(run[|run| - 1].nodes[i], run[|run| - 1].nodes[p], i, p);
  }
}
