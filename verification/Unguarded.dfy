/** A run of three nodes without the guards: an answer that arrives after its election is
    over (G1) gives one term two leaders. */
module Unguarded {
  import opened RaftTypes
  import opened RaftHandlers
  import opened Cluster
  import opened ElectionSteps

  /** The election steps as the code takes them. Wins are those of Cluster, and so are
      time-outs, except that a node stands again only when it is done with its last election. */
  datatype RawStep = Elect(step: Step) | Deliver(t: int, i: int, v: int) | Count(t: int, i: int, v: int)

  ghost predicate RawTakes(c: State, step: RawStep, c': State) {
    match step
    case Elect(s) =>
      && TakesStep(c, s, c')
      && (s.Win? || (s.Timeout? && DoneWaiting(c.nodes[s.node], |c.nodes|)))
    case Deliver(t, i, v) =>
      && Enabled(c, DeliverVote(t, i, v))
      && var a := c.votes[(t, i, v)].args;
      && var (s, r) := RequestVote(c.nodes[v], a);
      c' == c.(nodes := c.nodes[v := s], votes := c.votes[(t, i, v) := VoteReturn(a, r)])
    case Count(t, i, v) =>
      && Enabled(c, CountVote(t, i, v))
      && c' == c.(nodes := c.nodes[i := HandleVoteReply(c.nodes[i], c.votes[(t, i, v)].reply)],
                  votes := c.votes - {(t, i, v)})
  }

  ghost predicate RawNext(c: State, c': State) {
    exists step :: RawTakes(c, step, c')
  }

  ghost predicate RawStepsAt(run: seq<State>, k: int)
    requires 0 < k < |run|
  {
    RawNext(run[k - 1], run[k])
  }

  ghost predicate RawRun(run: seq<State>, n: nat) {
    && n > 0 && run != [] && Init(run[0], n)
    && forall k :: 0 < k < |run| ==> RawStepsAt(run, k)
  }

  lemma RawExtends(run: seq<State>, n: nat, step: RawStep, c: State)
    requires RawRun(run, n) && RawTakes(run[|run| - 1], step, c)
    ensures RawRun(run + [c], n)
  {
    var run' := run + [c];
    forall k | 0 < k < |run'| ensures RawStepsAt(run', k) {
      if k < |run| {
        assert RawStepsAt(run, k);
      } else {
        assert run'[k - 1] == run[|run| - 1];
      }
    }
  }

  /** What the run so far has come to: its last state has the given nodes. */
  ghost predicate Reaches(run: seq<State>, a: NodeState, b: NodeState, d: NodeState) {
    RawRun(run, 3) && run[|run| - 1].nodes == [a, b, d]
  }

  ghost function Votes(run: seq<State>): map<(int, int, int), VoteRpc>
    requires run != []
  {
    run[|run| - 1].votes
  }

  lemma TimesOut(run: seq<State>, a: NodeState, b: NodeState, d: NodeState, i: int) returns (run': seq<State>)
    requires Reaches(run, a, b, d) && 0 <= i < 3
    requires [a, b, d][i].role != LEADER && DoneWaiting([a, b, d][i], 3)
    ensures var s := StartElection([a, b, d][i], i);
      && run' != [] && RawRun(run', 3) && run'[|run'| - 1].nodes == [a, b, d][i := s]
      && forall v :: 0 <= v < 3 && v != i ==> Asked(run', s.term, i, v, BuildVoteArgs(s, i))
    ensures forall k :: k in Votes(run) && (k.0 != [a, b, d][i].term + 1 || k.1 != i) ==>
      k in Votes(run') && Votes(run')[k] == Votes(run)[k]
  {
    var c := run[|run| - 1];
    var c' := DoTimeout(c, i);
    run' := run + [c'];
    forall v | 0 <= v < 3 && v != i ensures Asked(run', c'.nodes[i].term, i, v, BuildVoteArgs(c'.nodes[i], i)) {
      RecipientsAreOthers(3, i, v);
      assert (c'.nodes[i].term, i, v) in RecipientKeys(3, c'.nodes[i].term, i);
    }
    assert RawTakes(c, Elect(Timeout(i)), c');
    RawExtends(run, 3, Elect(Timeout(i)), c');
  }

  ghost predicate Asked(run: seq<State>, t: int, i: int, v: int, a: VoteArgs)
    requires run != []
  {
    (t, i, v) in Votes(run) && Votes(run)[(t, i, v)] == VoteCall(a)
  }

  /** Node 1 said yes to node 0 in term 1, and the answer is still on its way. */
  ghost predicate YesOnItsWay(run: seq<State>)
    requires run != []
  {
    && (1, 0, 1) in Votes(run) && Votes(run)[(1, 0, 1)].VoteReturn?
    && Votes(run)[(1, 0, 1)].reply == VoteReply(0, true)
  }

  lemma Wins(run: seq<State>, a: NodeState, b: NodeState, d: NodeState, i: int) returns (run': seq<State>)
    requires Reaches(run, a, b, d) && 0 <= i < 3 && WinsElection([a, b, d][i], 3)
    ensures run' != [] && RawRun(run', 3)
    ensures run'[|run'| - 1].nodes == [a, b, d][i := BecomeLeader([a, b, d][i], 3)] && Votes(run') == Votes(run)
  {
    var c := run[|run| - 1];
    var c' := DoWin(c, i);
    assert RawTakes(c, Elect(Win(i)), c');
    RawExtends(run, 3, Elect(Win(i)), c');
    run' := run + [c'];
  }

  lemma Asks(run: seq<State>, a: NodeState, b: NodeState, d: NodeState, t: int, i: int, v: int)
      returns (run': seq<State>)
    requires Reaches(run, a, b, d) && 0 <= v < 3
    requires (t, i, v) in Votes(run) && Votes(run)[(t, i, v)].VoteCall?
    ensures var m := Votes(run)[(t, i, v)].args;
      var (s, r) := RequestVote([a, b, d][v], m);
      && run' != [] && RawRun(run', 3) && run'[|run'| - 1].nodes == [a, b, d][v := s]
      && Votes(run') == Votes(run)[(t, i, v) := VoteReturn(m, r)]
  {
    var c := run[|run| - 1];
    var m := c.votes[(t, i, v)].args;
    var (s, r) := RequestVote(c.nodes[v], m);
    var c' := c.(nodes := c.nodes[v := s], votes := c.votes[(t, i, v) := VoteReturn(m, r)]);
    RawExtends(run, 3, Deliver(t, i, v), c');
    run' := run + [c'];
  }

  lemma Counts(run: seq<State>, a: NodeState, b: NodeState, d: NodeState, t: int, i: int, v: int)
      returns (run': seq<State>)
    requires Reaches(run, a, b, d) && 0 <= i < 3
    requires (t, i, v) in Votes(run) && Votes(run)[(t, i, v)].VoteReturn?
    ensures run' != [] && RawRun(run', 3)
    ensures run'[|run'| - 1].nodes == [a, b, d][i := HandleVoteReply([a, b, d][i], Votes(run)[(t, i, v)].reply)]
    ensures Votes(run') == Votes(run) - {(t, i, v)}
  {
    var c := run[|run| - 1];
    var c' := c.(nodes := c.nodes[i := HandleVoteReply(c.nodes[i], c.votes[(t, i, v)].reply)],
                 votes := c.votes - {(t, i, v)});
    RawExtends(run, 3, Count(t, i, v), c');
    run' := run + [c'];
  }

  function Fresh(): NodeState { Boot(3, FRESH_DISK) }

  /** Node 0 stands in term 1 and wins with the vote of node 2. */
  function Stands0(): NodeState { StartElection(Fresh(), 0) }

  function Leads0(): NodeState { BecomeLeader(HandleVoteReply(Stands0(), VoteReply(0, true)), 3) }

  /** Nodes 1 and 2 have both voted for it. */
  function VotedFor0(): NodeState { RequestVote(Fresh(), BuildVoteArgs(Stands0(), 0)).0 }

  /** Node 2 stands in term 2, and nodes 0 and 1 vote for it. */
  function Stands2(): NodeState { StartElection(VotedFor0(), 2) }

  function SteppedDown0(): NodeState { RequestVote(Leads0(), BuildVoteArgs(Stands2(), 2)).0 }

  function VotedFor2(): NodeState { RequestVote(VotedFor0(), BuildVoteArgs(Stands2(), 2)).0 }

  /** Nodes 0 and 1 stand in term 3, and node 2 votes for node 1. */
  function StandsAgain0(): NodeState { StartElection(SteppedDown0(), 0) }

  function Stands1(): NodeState { StartElection(VotedFor2(), 1) }

  function VotedFor1(): NodeState { RequestVote(Stands2(), BuildVoteArgs(Stands1(), 1)).0 }

  function Leads1(): NodeState { BecomeLeader(HandleVoteReply(Stands1(), VoteReply(2, true)), 3) }

  lemma FirstTerm() returns (run: seq<State>)
    ensures Reaches(run, Leads0(), VotedFor0(), VotedFor0()) && YesOnItsWay(run)
  {
    var c := State(seq(3, _ => Fresh()), map[], map[], History(map[], map[], map[], map[]));
    assert Init(c, 3) && c.nodes == [Fresh(), Fresh(), Fresh()];
    var r0 := [c];
    var r1 := TimesOut(r0, Fresh(), Fresh(), Fresh(), 0);
    assert Asked(r1, 1, 0, 1, BuildVoteArgs(Stands0(), 0)) && Asked(r1, 1, 0, 2, BuildVoteArgs(Stands0(), 0));
    var r2 := Asks(r1, Stands0(), Fresh(), Fresh(), 1, 0, 1);
    var r3 := Asks(r2, Stands0(), VotedFor0(), Fresh(), 1, 0, 2);
    var r4 := Counts(r3, Stands0(), VotedFor0(), VotedFor0(), 1, 0, 2);
    run := Wins(r4, HandleVoteReply(Stands0(), VoteReply(0, true)), VotedFor0(), VotedFor0(), 0);
  }

  lemma SecondTerm(run: seq<State>) returns (run': seq<State>)
    requires Reaches(run, Leads0(), VotedFor0(), VotedFor0()) && YesOnItsWay(run)
    ensures Reaches(run', SteppedDown0(), VotedFor2(), Stands2()) && YesOnItsWay(run')
  {
    var r1 := TimesOut(run, Leads0(), VotedFor0(), VotedFor0(), 2);
    assert Asked(r1, 2, 2, 0, BuildVoteArgs(Stands2(), 2)) && Asked(r1, 2, 2, 1, BuildVoteArgs(Stands2(), 2));
    var r2 := Asks(r1, Leads0(), VotedFor0(), Stands2(), 2, 2, 0);
    run' := Asks(r2, SteppedDown0(), VotedFor0(), Stands2(), 2, 2, 1);
  }

  /** Both stand: node 0 has been done with its election since it won, node 1 has had none. */
  lemma BothStand(run: seq<State>) returns (run': seq<State>)
    requires Reaches(run, SteppedDown0(), VotedFor2(), Stands2()) && YesOnItsWay(run)
    ensures Reaches(run', StandsAgain0(), Stands1(), Stands2()) && YesOnItsWay(run')
    ensures Asked(run', 3, 1, 2, BuildVoteArgs(Stands1(), 1))
  {
    var r1 := TimesOut(run, SteppedDown0(), VotedFor2(), Stands2(), 0);
    run' := TimesOut(r1, StandsAgain0(), VotedFor2(), Stands2(), 1);
  }

  lemma ThirdTerm(run: seq<State>) returns (run': seq<State>)
    requires Reaches(run, StandsAgain0(), Stands1(), Stands2()) && YesOnItsWay(run)
    requires Asked(run, 3, 1, 2, BuildVoteArgs(Stands1(), 1))
    ensures Reaches(run', StandsAgain0(), Leads1(), VotedFor1()) && YesOnItsWay(run')
  {
    var r1 := Asks(run, StandsAgain0(), Stands1(), Stands2(), 3, 1, 2);
    var r2 := Counts(r1, StandsAgain0(), Stands1(), VotedFor1(), 3, 1, 2);
    run' := Wins(r2, StandsAgain0(), HandleVoteReply(Stands1(), VoteReply(2, true)), VotedFor1(), 1);
  }

  /** Without the guard on late answers a run of three nodes reaches a state with two
      leaders of the same term: node 1's answer of term 1 elects node 0 in term 3. */
  lemma TwoLeadersInOneTerm() returns (run: seq<State>)
    ensures RawRun(run, 3) && |run[|run| - 1].nodes| == 3
    ensures var c := run[|run| - 1];
      Leads(c.nodes[0], 3) && Leads(c.nodes[1], 3)
  {
    var first := FirstTerm();
    var second := SecondTerm(first);
    var both := BothStand(second);
    var third := ThirdTerm(both);
    var counted := Counts(third, StandsAgain0(), Leads1(), VotedFor1(), 1, 0, 1);
    var a := HandleVoteReply(StandsAgain0(), VoteReply(0, true));
    run := Wins(counted, a, Leads1(), VotedFor1(), 0);
  }
}
