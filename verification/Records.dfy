/** Where terms come from and what a crash can cost, in every reachable state: a term that
    a node holds or an answer names is 0 or one that some node stood in, and what a node
    has committed is in its own file. */
module Records {
  import opened RaftTypes
  import opened RaftHandlers
  import opened Cluster
  import opened ClusterInvariant
  import opened HistoryGrowth
  import opened Safety

  // ----- terms -----

  /** Term t is 0 or one that some node has stood in. */
  ghost predicate Stood(h: History, t: int) {
    t == 0 || exists j :: (t, j) in h.campaigns
  }

  ghost predicate NodesStood(c: State) {
    forall i :: 0 <= i < |c.nodes| ==> Stood(c.history, c.nodes[i].term)
  }

  ghost predicate VoteStood(h: History, rpc: VoteRpc) {
    Stood(h, rpc.args.term) && (rpc.VoteReturn? ==> Stood(h, rpc.reply.term))
  }

  ghost predicate AppendStood(h: History, rpc: AppendRpc) {
    Stood(h, rpc.args.term) && (rpc.AppendReturn? ==> Stood(h, rpc.reply.term))
  }

  ghost predicate VotesStood(c: State) {
    forall k :: k in c.votes ==> VoteStood(c.history, c.votes[k])
  }

  ghost predicate AppendsStood(c: State) {
    forall k :: k in c.appends ==> AppendStood(c.history, c.appends[k])
  }

  ghost predicate TermsStood(c: State) {
    NodesStood(c) && VotesStood(c) && AppendsStood(c)
  }

  /** A request leaves the node in the larger of its term and its own, and is answered with
      the term the node had. */
  lemma VoteTerms(s: NodeState, a: VoteArgs)
    ensures RequestVote(s, a).0.term == Larger(s.term, a.term) && RequestVote(s, a).1.term == s.term
    ensures GuardedRequestVote(s, a).0.term == Larger(s.term, a.term) && GuardedRequestVote(s, a).1.term == s.term
  {}

  lemma AppendTerms(s: NodeState, a: AppendArgs)
    ensures AppendEntries(s, a).0.term == Larger(s.term, a.term) && AppendEntries(s, a).1.term == s.term
    ensures GuardedAppendEntries(s, a).0.term == Larger(s.term, a.term) && GuardedAppendEntries(s, a).1.term == s.term
  {}

  /** An answer leaves it in the larger of the answer's term and its own. */
  lemma CountTerms(s: NodeState, election: int, r: VoteReply)
    ensures GuardedVoteReply(s, election, r).term == Larger(s.term, r.term)
  {}

  lemma ReplyTerms(s: NodeState, p: int, a: AppendArgs, r: AppendReply)
    requires CanHandleReply(s, p, a, r)
    ensures HandleAppendReply(s, p, a, r).term == Larger(s.term, r.term)
  {}

  function Larger(a: int, b: int): int {
    if a >= b then a else b
  }

  lemma StoodGrows(c: State, c': State)
    requires TermsStood(c) && Grows(c.history, c'.history)
    ensures forall t :: Stood(c.history, t) ==> Stood(c'.history, t)
    ensures forall k :: k in c.votes ==> VoteStood(c'.history, c.votes[k])
    ensures forall k :: k in c.appends ==> AppendStood(c'.history, c.appends[k])
    ensures forall i :: 0 <= i < |c.nodes| ==> Stood(c'.history, c.nodes[i].term)
  {
    forall t | Stood(c.history, t) ensures Stood(c'.history, t) {
      if t != 0 {
        var j :| (t, j) in c.history.campaigns;
        assert (t, j) in c'.history.campaigns;
      }
    }
    forall k | k in c.votes ensures VoteStood(c'.history, c.votes[k]) {
      assert VoteStood(c.history, c.votes[k]);
    }
    forall k | k in c.appends ensures AppendStood(c'.history, c.appends[k]) {
      assert AppendStood(c.history, c.appends[k]);
    }
  }

  lemma TimeoutStood(c: State, i: int)
    requires TermsStood(c) && Enabled(c, Timeout(i)) && Grows(c.history, DoTimeout(c, i).history)
    ensures TermsStood(DoTimeout(c, i))
  {
    var c' := DoTimeout(c, i);
    StoodGrows(c, c');
    assert (c'.nodes[i].term, i) in c'.history.campaigns;
  }

  lemma VoteStepStood(c: State, t: int, i: int, v: int)
    requires TermsStood(c) && Enabled(c, DeliverVote(t, i, v))
    requires Grows(c.history, DoDeliverVote(c, t, i, v).history)
    ensures TermsStood(DoDeliverVote(c, t, i, v))
  {
    var c' := DoDeliverVote(c, t, i, v);
    StoodGrows(c, c');
    assert VoteStood(c'.history, c.votes[(t, i, v)]);
    VoteTerms(c.nodes[v], c.votes[(t, i, v)].args);
  }

  lemma CountStepStood(c: State, t: int, i: int, v: int)
    requires TermsStood(c) && Enabled(c, CountVote(t, i, v))
    requires Grows(c.history, DoCountVote(c, t, i, v).history)
    ensures TermsStood(DoCountVote(c, t, i, v))
  {
    var c' := DoCountVote(c, t, i, v);
    StoodGrows(c, c');
    assert VoteStood(c'.history, c.votes[(t, i, v)]);
    CountTerms(c.nodes[i], t, c.votes[(t, i, v)].reply);
  }

  lemma SendStood(c: State, i: int, p: int)
    requires TermsStood(c) && Enabled(c, SendAppend(i, p)) && InRange(c, SendAppend(i, p))
    requires Grows(c.history, DoSendAppend(c, i, p).history)
    ensures TermsStood(DoSendAppend(c, i, p))
  {
    StoodGrows(c, DoSendAppend(c, i, p));
  }

  lemma DeliverStood(c: State, t: int, p: int)
    requires TermsStood(c) && Enabled(c, DeliverAppend(t, p)) && InRange(c, DeliverAppend(t, p))
    requires Grows(c.history, DoDeliverAppend(c, t, p).history)
    ensures TermsStood(DoDeliverAppend(c, t, p))
  {
    var c' := DoDeliverAppend(c, t, p);
    StoodGrows(c, c');
    assert AppendStood(c'.history, c.appends[(t, p)]);
    AppendTerms(c.nodes[p], c.appends[(t, p)].args);
  }

  lemma ReplyStood(c: State, t: int, p: int)
    requires TermsStood(c) && Enabled(c, HandleReply(t, p)) && InRange(c, HandleReply(t, p))
    requires Grows(c.history, DoHandleReply(c, t, p).history)
    ensures TermsStood(DoHandleReply(c, t, p))
  {
    var c', rpc := DoHandleReply(c, t, p), c.appends[(t, p)];
    StoodGrows(c, c');
    assert AppendStood(c'.history, rpc);
    ReplyTerms(c.nodes[rpc.args.leaderId], p, rpc.args, rpc.reply);
  }

  /** A step that brings in no message and leaves every node in its term. */
  lemma QuietStood(c: State, c': State)
    requires TermsStood(c) && Grows(c.history, c'.history) && |c'.nodes| == |c.nodes|
    requires forall i :: 0 <= i < |c.nodes| ==> c'.nodes[i].term == c.nodes[i].term
    requires forall k :: k in c'.votes ==> k in c.votes && c'.votes[k] == c.votes[k]
    requires forall k :: k in c'.appends ==> k in c.appends && c'.appends[k] == c.appends[k]
    ensures TermsStood(c')
  {
    StoodGrows(c, c');
  }

  lemma StepStood(c: State, step: Step)
    requires Inv(c) && TermsStood(c) && Enabled(c, step) && InRange(c, step)
    ensures TermsStood(Do(c, step))
  {
    StepGrows(c, step);
    if step.Crash? {
      CrashStood(c, step.node);
    } else {
      AliveStood(c, step);
    }
  }

  lemma CrashStood(c: State, i: int)
    requires Inv(c) && TermsStood(c) && IsNode(c, i) && Grows(c.history, c.history)
    ensures TermsStood(Do(c, Crash(i)))
  {
    assert NodeInv(c.history, |c.nodes|, i, c.nodes[i]);
    QuietStood(c, Do(c, Crash(i)));
  }

  lemma AliveStood(c: State, step: Step)
    requires TermsStood(c) && Enabled(c, step) && InRange(c, step) && !step.Crash?
    requires Grows(c.history, Do(c, step).history)
    ensures TermsStood(Do(c, step))
  {
    match step
    case Timeout(i) => TimeoutStood(c, i);
    case DeliverVote(t, i, v) => VoteStepStood(c, t, i, v);
    case CountVote(t, i, v) => CountStepStood(c, t, i, v);
    case SendAppend(i, p) => SendStood(c, i, p);
    case DeliverAppend(t, p) => DeliverStood(c, t, p);
    case HandleReply(t, p) => ReplyStood(c, t, p);
    case LoseVote(_, _, _) => QuietStood(c, Do(c, step));
    case Win(_) => QuietStood(c, Do(c, step));
    case ClientStart(_, _) => QuietStood(c, Do(c, step));
    case LoseAppend(_, _) => QuietStood(c, Do(c, step));
    case ApplyLog(_) => QuietStood(c, Do(c, step));
  }

  lemma NextStood(c: State, c': State)
    requires Next(c, c') && Inv(c) && TermsStood(c)
    ensures TermsStood(c')
  {
    var step :| TakesStep(c, step, c');
    StepStood(c, step);
  }

  lemma StoodNext(run: seq<State>, n: nat, k: nat)
    requires IsRun(run, n) && 0 < k < |run| && TermsStood(run[k - 1])
    ensures TermsStood(run[k])
  {
    RunHolds(run, n, k - 1);
    assert StepsAt(run, k);
    NextStood(run[k - 1], run[k]);
  }

  lemma {:induction false} RunStood(run: seq<State>, n: nat, k: nat)
    requires IsRun(run, n) && k < |run|
    ensures TermsStood(run[k])
  {
    if k > 0 {
      RunStood(run, n, k - 1);
      StoodNext(run, n, k);
    }
  }

  /** In every reachable state a node's term is 0 or one that some node has stood in, and so
      is every term that a message names: no handler makes a term up. */
  lemma TermsAreStood(run: seq<State>, n: nat, k: nat, i: int, s: NodeState)
    requires At(run, n, k, i, s)
    ensures s.term == 0 || exists j :: (s.term, j) in run[k].history.campaigns
    ensures forall m :: m in run[k].votes && run[k].votes[m].VoteReturn? ==>
      Stood(run[k].history, run[k].votes[m].reply.term)
    ensures forall m :: m in run[k].appends && run[k].appends[m].AppendReturn? ==>
      Stood(run[k].history, run[k].appends[m].reply.term)
  {
    RunStood(run, n, k);
    assert Stood(run[k].history, s.term);
    forall m | m in run[k].votes && run[k].votes[m].VoteReturn?
      ensures Stood(run[k].history, run[k].votes[m].reply.term)
    {
      assert VoteStood(run[k].history, run[k].votes[m]);
    }
    forall m | m in run[k].appends && run[k].appends[m].AppendReturn?
      ensures Stood(run[k].history, run[k].appends[m].reply.term)
    {
      assert AppendStood(run[k].history, run[k].appends[m]);
    }
  }

  // ----- commits on file -----

  /** What a node has committed is in its file. */
  ghost predicate OnFile(s: NodeState) {
    s.commitIndex <= |s.disk.log| && s.disk.log <= s.log
  }

  /** What a step can leave of a node: a node that does not lead, a current file, or the
      commit index it had with a file that has lost nothing. */
  ghost predicate Leaves(s: NodeState, s': NodeState) {
    || s'.role != LEADER
    || s'.disk.log == s'.log
    || (s'.commitIndex == s.commitIndex && s.log <= s'.log && (s'.disk == s.disk || s'.disk.log == s.log))
  }

  lemma VoteLeaves(s: NodeState, a: VoteArgs)
    ensures Leaves(s, GuardedRequestVote(s, a).0)
  {}

  lemma CountLeaves(s: NodeState, election: int, r: VoteReply)
    ensures Leaves(s, GuardedVoteReply(s, election, r))
  {}

  lemma AppendLeaves(s: NodeState, a: AppendArgs)
    ensures Leaves(s, GuardedAppendEntries(s, a).0)
  {}

  /** Whatever an append reply says, handling it leaves the file current. */
  lemma ReplySaves(s: NodeState, p: int, a: AppendArgs, r: AppendReply)
    requires CanHandleReply(s, p, a, r)
    ensures var s' := HandleAppendReply(s, p, a, r); s'.disk == Persisted(s'.term, s'.votedFor, s'.log)
  {}

  lemma VoteStepLeaves(c: State, t: int, j: int, v: int, i: int)
    requires Enabled(c, DeliverVote(t, j, v)) && IsNode(c, i)
    ensures Leaves(c.nodes[i], DoDeliverVote(c, t, j, v).nodes[i])
  {
    VoteLeaves(c.nodes[v], c.votes[(t, j, v)].args);
  }

  lemma CountStepLeaves(c: State, t: int, j: int, v: int, i: int)
    requires Enabled(c, CountVote(t, j, v)) && IsNode(c, i)
    ensures Leaves(c.nodes[i], DoCountVote(c, t, j, v).nodes[i])
  {
    CountLeaves(c.nodes[j], t, c.votes[(t, j, v)].reply);
  }

  lemma DeliverLeaves(c: State, t: int, p: int, i: int)
    requires Enabled(c, DeliverAppend(t, p)) && InRange(c, DeliverAppend(t, p)) && IsNode(c, i)
    ensures Leaves(c.nodes[i], DoDeliverAppend(c, t, p).nodes[i])
  {
    AppendLeaves(c.nodes[p], c.appends[(t, p)].args);
  }

  lemma ReplyLeaves(c: State, t: int, p: int, i: int)
    requires Enabled(c, HandleReply(t, p)) && InRange(c, HandleReply(t, p)) && IsNode(c, i)
    ensures Leaves(c.nodes[i], DoHandleReply(c, t, p).nodes[i])
  {
    var rpc := c.appends[(t, p)];
    ReplySaves(c.nodes[rpc.args.leaderId], p, rpc.args, rpc.reply);
  }

  lemma StepLeaves(c: State, step: Step, i: int)
    requires Enabled(c, step) && InRange(c, step) && IsNode(c, i)
    ensures IsNode(Do(c, step), i) && Leaves(c.nodes[i], Do(c, step).nodes[i])
  {
    match step
    case DeliverVote(t, j, v) => VoteStepLeaves(c, t, j, v, i);
    case CountVote(t, j, v) => CountStepLeaves(c, t, j, v, i);
    case DeliverAppend(t, p) => DeliverLeaves(c, t, p, i);
    case HandleReply(t, p) => ReplyLeaves(c, t, p, i);
    case _ =>
  }

  lemma LeftOnFile(h: History, n: nat, i: int, s: NodeState, s': NodeState)
    requires OnFile(s) && s.commitIndex <= |s.log| && Leaves(s, s') && NodeInv(h, n, i, s')
    ensures OnFile(s')
  {}

  /** Only a leader's log runs ahead of its file, and it commits nothing before the save
      that ends the handling of a reply. */
  lemma StepOnFile(c: State, step: Step, i: int)
    requires Enabled(c, step) && InRange(c, step) && Inv(c) && Inv(Do(c, step)) && IsNode(c, i) && OnFile(c.nodes[i])
    ensures IsNode(Do(c, step), i) && OnFile(Do(c, step).nodes[i])
  {
    var c' := Do(c, step);
    StepLeaves(c, step, i);
    assert NodeInv(c.history, |c.nodes|, i, c.nodes[i]) && NodeInv(c'.history, |c'.nodes|, i, c'.nodes[i]);
    LeftOnFile(c'.history, |c'.nodes|, i, c.nodes[i], c'.nodes[i]);
  }

  lemma NextOnFile(c: State, c': State, i: int)
    requires Next(c, c') && Inv(c) && Inv(c') && IsNode(c, i) && OnFile(c.nodes[i])
    ensures IsNode(c', i) && OnFile(c'.nodes[i])
  {
    var step :| TakesStep(c, step, c');
    StepOnFile(c, step, i);
  }

  lemma OnFileNext(run: seq<State>, n: nat, k: nat, i: int)
    requires IsRun(run, n) && 0 < k < |run| && IsNode(run[k - 1], i) && OnFile(run[k - 1].nodes[i])
    ensures IsNode(run[k], i) && OnFile(run[k].nodes[i])
  {
    assert Inv(run[k - 1]) by { RunHolds(run, n, k - 1); }
    assert Inv(run[k]) by { RunHolds(run, n, k); }
    assert StepsAt(run, k);
    NextOnFile(run[k - 1], run[k], i);
  }

  lemma {:induction false} RunOnFile(run: seq<State>, n: nat, k: nat, i: int)
    requires IsRun(run, n) && k < |run| && 0 <= i < n
    ensures IsNode(run[k], i) && OnFile(run[k].nodes[i])
  {
    if k > 0 {
      RunOnFile(run, n, k - 1, i);
      OnFileNext(run, n, k, i);
    }
  }

  /** In every reachable state what a node has committed is in its own file, so that a crash
      at any moment leaves all of it in the restarted node's log. */
  lemma CrashKeepsCommitted(run: seq<State>, n: nat, k: nat, i: int, s: NodeState)
    requires At(run, n, k, i, s)
    ensures 0 <= s.commitIndex <= |s.log| && s.log[..s.commitIndex] <= Boot(n, s.disk).log
  {
    RunHolds(run, n, k);
    RunOnFile(run, n, k, i);
    CommitBounds(run, n, k, i, s);
    assert s.disk.log[..s.commitIndex] == s.log[..s.commitIndex];
  }
}
