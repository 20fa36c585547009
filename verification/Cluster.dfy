/** A cluster of Raft nodes as a transition system: every lock-protected stretch of
    the code is one step, messages may be delayed or lost, nodes may crash and come
    back from their files. The history only records what happened; no step reads it
    to decide anything about the nodes. */
module Cluster {
  import opened RaftTypes
  import opened RaftHandlers
  import PeerCursor

  /** A won election: who won, on whose votes, with which log, and the log that the
      winner has built while leading. */
  datatype Election = Election(leader: int, voters: set<int>, base: Log, log: Log)

  /** A started election: the candidate's log and the votes it has counted. */
  datatype Campaign = Campaign(log: Log, counted: set<int>)

  /** A cast vote: for whom, and the voter's log at that moment. */
  datatype Ballot = Ballot(candidate: int, log: Log)

  datatype History = History(
    elections: map<int, Election>,              // by term
    campaigns: map<(int, int), Campaign>,       // by term and candidate
    ballots: map<(int, int), Ballot>,           // by term and voter
    acked: map<(int, int), int>)                // by term and follower: end of the last accepted append

  /** An append request carries its entries whole, however long their text is (G10). */
  datatype AppendRpc = AppendCall(args: AppendArgs) | AppendReturn(args: AppendArgs, reply: AppendReply)
  datatype VoteRpc = VoteCall(args: VoteArgs) | VoteReturn(args: VoteArgs, reply: VoteReply)

  /** At most one append exchange per leader term and follower (G6), and one vote
      exchange per election and peer (G9). */
  datatype State = State(
    nodes: seq<NodeState>,
    appends: map<(int, int), AppendRpc>,        // by term and follower
    votes: map<(int, int, int), VoteRpc>,       // by term, candidate and voter
    history: History)

  ghost predicate Init(c: State, n: nat) {
    && c.nodes == seq(n, _ => Boot(n, FRESH_DISK))
    && c.appends == map[] && c.votes == map[]
    && c.history == History(map[], map[], map[], map[])
  }

  datatype Step =
    | Timeout(node: int)
    | DeliverVote(election: int, candidate: int, voter: int)
    | CountVote(election: int, candidate: int, voter: int)
    | LoseVote(election: int, candidate: int, voter: int)
    | Win(node: int)
    | ClientStart(node: int, command: string)
    | SendAppend(node: int, follower: int)
    | DeliverAppend(leaderTerm: int, follower: int)
    | HandleReply(leaderTerm: int, follower: int)
    | LoseAppend(leaderTerm: int, follower: int)
    | ApplyLog(node: int)
    | Crash(node: int)

  ghost predicate IsNode(c: State, i: int) { 0 <= i < |c.nodes| }

  /** When a step can be taken. A node may stand again as soon as it likes, sooner than the
      wait in electionLoop lets it, so that the runs include those of the code. The guards:
      votes are counted for their own election (G1), requests are built and answers
      handled only while the node leads (G6, G8). No clause asks that log positions be in
      range: that they are is a theorem (Safety.StepsInRange). */
  ghost predicate Enabled(c: State, step: Step) {
    match step
    case Timeout(i) => IsNode(c, i) && c.nodes[i].role != LEADER
    case DeliverVote(t, i, v) =>
      (t, i, v) in c.votes && c.votes[(t, i, v)].VoteCall? && IsNode(c, v)
    case CountVote(t, i, v) =>
      (t, i, v) in c.votes && c.votes[(t, i, v)].VoteReturn? && IsNode(c, i)
    case LoseVote(t, i, v) => (t, i, v) in c.votes
    case Win(i) => IsNode(c, i) && WinsElection(c.nodes[i], |c.nodes|)
    case ClientStart(i, _) => IsNode(c, i) && c.nodes[i].role == LEADER
    case SendAppend(i, p) =>
      IsNode(c, i) && IsNode(c, p) && p != i && c.nodes[i].role == LEADER && (c.nodes[i].term, p) !in c.appends
    case DeliverAppend(t, p) =>
      (t, p) in c.appends && c.appends[(t, p)].AppendCall? && IsNode(c, p)
    case HandleReply(t, p) =>
      && (t, p) in c.appends && c.appends[(t, p)].AppendReturn?
      && IsNode(c, c.appends[(t, p)].args.leaderId)
      && Leads(c.nodes[c.appends[(t, p)].args.leaderId], t)
    case LoseAppend(t, p) => (t, p) in c.appends
    case ApplyLog(i) => IsNode(c, i)
    case Crash(i) => IsNode(c, i)
  }

  ghost predicate Leads(s: NodeState, term: int) { s.role == LEADER && s.term == term }

  /** The handler called by an enabled step finds its log positions in range. */
  ghost predicate InRange(c: State, step: Step)
    requires Enabled(c, step)
  {
    match step
    case SendAppend(i, p) => CanBuildAppend(c.nodes[i], p)
    case DeliverAppend(t, p) => c.appends[(t, p)].args.prevLogIndex >= 0
    case HandleReply(t, p) =>
      var rpc := c.appends[(t, p)];
      CanHandleReply(c.nodes[rpc.args.leaderId], p, rpc.args, rpc.reply)
    case _ => true
  }

  /** The vote requests of one election: one for each target of the cursor's round. */
  ghost function Recipients(n: nat, i: int): set<int> {
    if n == 0 then {} else
      var targets := PeerCursor.Targets(n, i, 0, n - 1);
      set p | p in targets
  }

  ghost function RecipientKeys(n: nat, t: int, i: int): set<(int, int, int)> {
    set p | p in Recipients(n, i) :: (t, i, p)
  }

  ghost function DoTimeout(c: State, i: int): State
    requires IsNode(c, i)
  {
    var s := StartElection(c.nodes[i], i);
    var n := |c.nodes|;
    var h := c.history;
    c.(nodes := c.nodes[i := s],
       votes := c.votes + (map k | k in RecipientKeys(n, s.term, i) :: VoteCall(BuildVoteArgs(s, i))),
       history := h.(campaigns := h.campaigns[(s.term, i) := Campaign(s.log, {i})],
                     ballots := h.ballots[(s.term, i) := Ballot(i, s.log)]))
  }

  ghost function DoDeliverVote(c: State, t: int, i: int, v: int): State
    requires Enabled(c, DeliverVote(t, i, v))
  {
    var a := c.votes[(t, i, v)].args;
    var (s, r) := GuardedRequestVote(c.nodes[v], a);
    var h := c.history;
    c.(nodes := c.nodes[v := s],
       votes := c.votes[(t, i, v) := VoteReturn(a, r)],
       history := if r.granted && (t, v) !in h.ballots
                  then h.(ballots := h.ballots[(t, v) := Ballot(i, c.nodes[v].log)]) else h)
  }

  ghost function DoCountVote(c: State, t: int, i: int, v: int): State
    requires Enabled(c, CountVote(t, i, v))
  {
    var r := c.votes[(t, i, v)].reply;
    var s := c.nodes[i];
    var h := c.history;
    c.(nodes := c.nodes[i := GuardedVoteReply(s, t, r)],
       votes := c.votes - {(t, i, v)},
       history := if r.term <= s.term && r.granted && s.role == CANDIDATE && s.term == t && (t, i) in h.campaigns
                  then h.(campaigns := h.campaigns[(t, i) :=
                          Campaign(h.campaigns[(t, i)].log, h.campaigns[(t, i)].counted + {v})])
                  else h)
  }

  ghost function DoWin(c: State, i: int): State
    requires IsNode(c, i)
  {
    var s := c.nodes[i];
    var h := c.history;
    var voters := if (s.term, i) in h.campaigns then h.campaigns[(s.term, i)].counted else {};
    c.(nodes := c.nodes[i := BecomeLeader(s, |c.nodes|)],
       history := h.(elections := h.elections[s.term := Election(i, voters, s.log, s.log)]))
  }

  ghost function DoClientStart(c: State, i: int, command: string): State
    requires IsNode(c, i)
  {
    var s := Start(c.nodes[i], command);
    var h := c.history;
    c.(nodes := c.nodes[i := s],
       history := if s.term in h.elections
                  then h.(elections := h.elections[s.term := h.elections[s.term].(log := s.log)]) else h)
  }

  ghost function DoSendAppend(c: State, i: int, p: int): State
    requires Enabled(c, SendAppend(i, p)) && InRange(c, SendAppend(i, p))
  {
    c.(appends := c.appends[(c.nodes[i].term, p) := AppendCall(BuildAppend(c.nodes[i], i, p))])
  }

  ghost function DoDeliverAppend(c: State, t: int, p: int): State
    requires Enabled(c, DeliverAppend(t, p)) && InRange(c, DeliverAppend(t, p))
  {
    var a := c.appends[(t, p)].args;
    var (s, r) := GuardedAppendEntries(c.nodes[p], a);
    var h := c.history;
    c.(nodes := c.nodes[p := s],
       appends := c.appends[(t, p) := AppendReturn(a, r)],
       history := if r.success then h.(acked := h.acked[(t, p) := a.prevLogIndex + |a.entries|]) else h)
  }

  ghost function DoHandleReply(c: State, t: int, p: int): State
    requires Enabled(c, HandleReply(t, p)) && InRange(c, HandleReply(t, p))
  {
    var rpc := c.appends[(t, p)];
    var i := rpc.args.leaderId;
    c.(nodes := c.nodes[i := HandleAppendReply(c.nodes[i], p, rpc.args, rpc.reply)],
       appends := c.appends - {(t, p)})
  }

  ghost function Do(c: State, step: Step): State
    requires Enabled(c, step) && InRange(c, step)
  {
    match step
    case Timeout(i) => DoTimeout(c, i)
    case DeliverVote(t, i, v) => DoDeliverVote(c, t, i, v)
    case CountVote(t, i, v) => DoCountVote(c, t, i, v)
    case LoseVote(t, i, v) => c.(votes := c.votes - {(t, i, v)})
    case Win(i) => DoWin(c, i)
    case ClientStart(i, command) => DoClientStart(c, i, command)
    case SendAppend(i, p) => DoSendAppend(c, i, p)
    case DeliverAppend(t, p) => DoDeliverAppend(c, t, p)
    case HandleReply(t, p) => DoHandleReply(c, t, p)
    case LoseAppend(t, p) => c.(appends := c.appends - {(t, p)})
    case ApplyLog(i) => c.(nodes := c.nodes[i := ApplyCommitted(c.nodes[i])])
    case Crash(i) => c.(nodes := c.nodes[i := Boot(|c.nodes|, c.nodes[i].disk)])
  }

  ghost predicate TakesStep(c: State, step: Step, c': State) {
    Enabled(c, step) && InRange(c, step) && c' == Do(c, step)
  }

  ghost predicate Next(c: State, c': State) {
    exists step :: TakesStep(c, step, c')
  }

  ghost predicate StepsAt(run: seq<State>, k: int)
    requires 0 < k < |run|
  {
    Next(run[k - 1], run[k])
  }

  /** A run of a cluster of n nodes from its initial state. */
  ghost predicate IsRun(run: seq<State>, n: nat) {
    && n > 0 && run != [] && Init(run[0], n)
    && forall k :: 0 < k < |run| ==> StepsAt(run, k)
  }
}
