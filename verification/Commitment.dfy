/** When a cluster can commit: from every reachable state any half of the cluster, rounded
    up, together with one node more can elect a leader, take a command, and commit and
    apply it without the others; fewer nodes never can, so a single node never commits. */
module Commitment {
  import opened RaftTypes
  import opened RaftHandlers
  import opened Quorum
  import opened Sets
  import opened Cluster
  import opened ClusterInvariant
  import opened HistoryGrowth
  import opened ReplicationSteps
  import opened Safety
  import opened Progress
  import opened Availability

  // ----- a leader brings its group to its log -----

  /** The leader has no append under way to the first k nodes. */
  ghost predicate Quiet(c: State, i: int, k: int)
    requires IsNode(c, i)
  {
    forall q :: 0 <= q < k ==> (c.nodes[i].term, q) !in c.appends
  }

  lemma {:induction false} LoseExchanges(run: seq<State>, n: nat, i: int, k: nat) returns (rest: seq<State>)
    requires IsRun(run, n) && IsNode(Last(run), i)
    ensures IsRun(run + rest, n)
    ensures Last(run + rest).nodes == Last(run).nodes && Quiet(Last(run + rest), i, k)
  {
    if k == 0 {
      rest := [];
      assert run + rest == run;
    } else {
      rest := LoseExchanges(run, n, i, k - 1);
      var c := Last(run + rest);
      var t := c.nodes[i].term;
      if (t, k - 1) in c.appends {
        var c' := c.(appends := c.appends - {(t, k - 1)});
        assert TakesStep(c, LoseAppend(t, k - 1), c');
        RunExtends(run + rest, n, LoseAppend(t, k - 1), c');
        assert run + rest + [c'] == run + (rest + [c']);
        rest := rest + [c'];
      }
    }
  }

  ghost predicate Holds(l: NodeState, log: Log, q: int) {
    log == l.log && 0 <= q < |l.matchIndex| && l.matchIndex[q] == |l.log|
  }

  /** A follower of the group among the first k nodes. */
  ghost predicate Follower(group: set<int>, i: int, k: int, q: int) {
    q in group && q != i && q < k
  }

  /** The followers among the first k nodes hold the leader's log, the leader knows it, and,
      once there was one, has committed what they let it commit. */
  ghost predicate Served(c: State, group: set<int>, i: int, k: int)
    requires AreNodes(c, group) && IsNode(c, i)
  {
    forall q :: Follower(group, i, k, q) ==> Holds(c.nodes[i], c.nodes[q].log, q) && MedianCommitted(c.nodes[i])
  }

  /** A cluster of n nodes in which leader i of term t, with the given log, has served
      the group's followers among the first k nodes. */
  ghost predicate Serving(c: State, n: nat, group: set<int>, i: int, k: int, t: int, log: Log) {
    && |c.nodes| == n && k <= n && LeadsGroup(c, group, i) && Quiet(c, i, n) && Served(c, group, i, k)
    && c.nodes[i].term == t && c.nodes[i].log == log
  }

  lemma ServingIdle(c: State, n: nat, group: set<int>, i: int, k: int, t: int, log: Log, q: int)
    requires Serving(c, n, group, i, k, t, log) && q in group && q != i
    ensures Idle(c, i, q)
  {}

  /** Serving one follower, again or for the first time, keeps what was served before. */
  lemma ServingStep(c: State, c': State, n: nat, group: set<int>, i: int, k: int, t: int, log: Log, q: int)
    requires Serving(c, n, group, i, k, t, log) && q in group && q != i
    requires Stays(c, c', i, q) && Settled(c'.nodes[i], c'.nodes[q], q)
    ensures Serving(c', n, group, i, k, t, log)
    ensures q == k < n ==> Serving(c', n, group, i, k + 1, t, log)
    ensures Silent(c, c', group)
  {
    forall p | Follower(group, i, k, p) && p != q ensures Holds(c'.nodes[i], c'.nodes[p].log, p) {
      assert Holds(c.nodes[i], c.nodes[p].log, p);
    }
  }

  lemma ServingMore(c: State, n: nat, group: set<int>, i: int, k: nat, t: int, log: Log)
    requires Serving(c, n, group, i, k, t, log) && k < n && (k == i || k !in group)
    ensures Serving(c, n, group, i, k + 1, t, log)
  {
    assert forall q :: Follower(group, i, k + 1, q) ==> Follower(group, i, k, q);
  }

  /** A catch-up of follower q. */
  lemma ServeOne(run: seq<State>, n: nat, group: set<int>, i: int, k: nat, t: int, log: Log, q: int)
      returns (run': seq<State>)
    requires IsRun(run, n) && Serving(Last(run), n, group, i, k, t, log) && q in group && q != i
    ensures run <= run' && IsRun(run', n) && Stays(Last(run), Last(run'), i, q)
    ensures Serving(Last(run'), n, group, i, k, t, log) && Silent(Last(run), Last(run'), group)
    ensures q == k < n ==> Serving(Last(run'), n, group, i, k + 1, t, log)
    ensures Heard(Last(run).nodes[i], Last(run').nodes[q])
  {
    ServingIdle(Last(run), n, group, i, k, t, log, q);
    var rest := RunCatchesUp(run, n, i, q);
    run' := run + rest;
    assert Last(run') == Last(rest);
    ServingStep(Last(run), Last(rest), n, group, i, k, t, log, q);
  }

  lemma {:induction false} ServeAll(run: seq<State>, n: nat, group: set<int>, i: int, k: nat, t: int, log: Log)
      returns (run': seq<State>)
    requires IsRun(run, n) && k <= n && Serving(Last(run), n, group, i, 0, t, log)
    ensures run <= run' && IsRun(run', n) && Silent(Last(run), Last(run'), group)
    ensures Serving(Last(run'), n, group, i, k, t, log)
  {
    if k == 0 {
      run' := run;
    } else {
      run' := ServeAll(run, n, group, i, k - 1, t, log);
      if k - 1 in group && k - 1 != i {
        run' := ServeOne(run', n, group, i, k - 1, t, log, k - 1);
      } else {
        ServingMore(Last(run'), n, group, i, k - 1, t, log);
      }
    }
  }

  /** With every follower of the group served the median is the leader's whole log. */
  lemma ServedMedian(c: State, n: nat, group: set<int>, i: int, t: int, log: Log)
    requires Inv(c) && Serving(c, n, group, i, n, t, log) && 2 * (|group| - 1) >= n
    ensures Median(c.nodes[i].matchIndex) == |log| && c.nodes[i].commitIndex <= |log|
  {
    var l := c.nodes[i];
    assert NodeInv(c.history, n, i, l);
    MatchWithinLog(c.history, n, l);
    var others := group - {i};
    assert |others| == |group| - 1;
    forall q | q in others ensures q in PeersReaching(l.matchIndex, |log|) {
      assert Follower(group, i, n, q);
    }
    SubsetSize(others, PeersReaching(l.matchIndex, |log|));
    MedianIsQuorum(l.matchIndex, |log|);
  }

  lemma ServedCommits(c: State, n: nat, group: set<int>, i: int, t: int, log: Log)
    requires Inv(c) && Serving(c, n, group, i, n, t, log) && 2 * (|group| - 1) >= n
    requires log != [] && LastTerm(log) == t
    ensures c.nodes[i].commitIndex == |log|
  {
    ServedMedian(c, n, group, i, t, log);
    var others := group - {i};
    assert |others| == |group| - 1;
    var q := AnyMember(others);
    assert Follower(group, i, n, q);
  }

  // ----- the followers learn of the commit -----

  /** The leader has committed its log, and so have the group's members among the first k. */
  ghost predicate Spread(c: State, n: nat, group: set<int>, i: int, k: int, t: int, log: Log) {
    && Serving(c, n, group, i, n, t, log) && c.nodes[i].commitIndex >= |log|
    && forall q :: Follower(group, i, k, q) ==> c.nodes[q].commitIndex >= |log|
  }

  lemma SpreadStep(c: State, c': State, n: nat, group: set<int>, i: int, k: nat, t: int, log: Log)
    requires Spread(c, n, group, i, k, t, log) && k in group && k != i
    requires Stays(c, c', i, k) && Heard(c.nodes[i], c'.nodes[k]) && Serving(c', n, group, i, n, t, log)
    ensures Spread(c', n, group, i, k + 1, t, log)
  {}

  lemma {:induction false} SpreadAll(run: seq<State>, n: nat, group: set<int>, i: int, k: nat, t: int, log: Log)
      returns (run': seq<State>)
    requires IsRun(run, n) && k <= n && Spread(Last(run), n, group, i, 0, t, log)
    ensures run <= run' && IsRun(run', n) && Silent(Last(run), Last(run'), group)
    ensures Spread(Last(run'), n, group, i, k, t, log)
  {
    if k == 0 {
      run' := run;
    } else {
      var before := SpreadAll(run, n, group, i, k - 1, t, log);
      if k - 1 in group && k - 1 != i {
        run' := ServeOne(before, n, group, i, n, t, log, k - 1);
        SpreadStep(Last(before), Last(run'), n, group, i, k - 1, t, log);
      } else {
        run' := before;
        assert forall q :: Follower(group, i, k, q) ==> Follower(group, i, k - 1, q);
      }
    }
  }

  // ----- every member applies it -----

  /** Every member holds the given log and has committed all of it; those among the first k
      have applied it. */
  ghost predicate Applied(c: State, group: set<int>, k: int, log: Log) {
    && AreNodes(c, group)
    && (forall q :: q in group ==> c.nodes[q].log == log && c.nodes[q].commitIndex == |log|)
    && (forall q :: q in group && q < k ==> c.nodes[q].lastApplied == |log|)
  }

  lemma SpreadIsCommitted(c: State, n: nat, group: set<int>, i: int, t: int, log: Log)
    requires Inv(c) && Spread(c, n, group, i, n, t, log)
    ensures Applied(c, group, 0, log)
  {
    forall q | q in group ensures c.nodes[q].log == log && c.nodes[q].commitIndex == |log| {
      assert NodeInv(c.history, n, q, c.nodes[q]);
      if q != i { assert Follower(group, i, n, q); }
    }
  }

  lemma {:induction false} ApplyAll(run: seq<State>, n: nat, group: set<int>, k: nat, log: Log)
      returns (run': seq<State>)
    requires IsRun(run, n) && Applied(Last(run), group, 0, log)
    ensures run <= run' && IsRun(run', n) && Silent(Last(run), Last(run'), group) && Applied(Last(run'), group, k, log)
  {
    if k == 0 {
      run' := run;
    } else {
      run' := ApplyAll(run, n, group, k - 1, log);
      if k - 1 in group {
        var c := Last(run');
        var c' := c.(nodes := c.nodes[k - 1 := ApplyCommitted(c.nodes[k - 1])]);
        RunExtends(run', n, ApplyLog(k - 1), c');
        run' := run' + [c'];
      }
    }
  }

  /** The log is in every member's memory, committed and applied. */
  ghost predicate AllDone(c: State, group: set<int>, log: Log) {
    Applied(c, group, |c.nodes|, log)
  }

  lemma LeaderServes(run: seq<State>, n: nat, group: set<int>, i: int) returns (run': seq<State>)
    requires IsRun(run, n) && LeadsGroup(Last(run), group, i)
    ensures run <= run' && IsRun(run', n) && Silent(Last(run), Last(run'), group)
    ensures var l := Last(run).nodes[i]; Serving(Last(run'), n, group, i, n, l.term, l.log)
  {
    RunHolds(run, n, |run| - 1);
    var t, log := Last(run).nodes[i].term, Last(run).nodes[i].log;
    var lost := LoseExchanges(run, n, i, n);
    assert Serving(Last(run + lost), n, group, i, 0, t, log);
    run' := ServeAll(run + lost, n, group, i, n, t, log);
  }

  lemma ServedSpread(run: seq<State>, n: nat, group: set<int>, i: int, t: int, log: Log)
    requires IsRun(run, n) && Serving(Last(run), n, group, i, n, t, log) && 2 * (|group| - 1) >= n
    requires log != [] && LastTerm(log) == t
    ensures Spread(Last(run), n, group, i, 0, t, log)
  {
    RunHolds(run, n, |run| - 1);
    ServedCommits(Last(run), n, group, i, t, log);
    assert forall q :: Follower(group, i, 0, q) ==> !IsNode(Last(run), q);
  }

  lemma SpreadDone(run: seq<State>, n: nat, group: set<int>, i: int, t: int, log: Log) returns (run': seq<State>)
    requires IsRun(run, n) && Spread(Last(run), n, group, i, n, t, log)
    ensures run <= run' && IsRun(run', n) && Silent(Last(run), Last(run'), group) && AllDone(Last(run'), group, log)
  {
    RunHolds(run, n, |run| - 1);
    SpreadIsCommitted(Last(run), n, group, i, t, log);
    run' := ApplyAll(run, n, group, n, log);
  }

  /** A leader with half of the cluster, rounded up, besides itself, none of it ahead, and
      with a last entry of its own term can always bring this group to its log and have all
      of it committed and applied there, with the other nodes silent. */
  lemma LeaderCommits(run: seq<State>, n: nat, group: set<int>, i: int) returns (run': seq<State>)
    requires IsRun(run, n) && LeadsGroup(Last(run), group, i) && 2 * (|group| - 1) >= n
    requires var l := Last(run).nodes[i]; l.log != [] && LastTerm(l.log) == l.term
    ensures run <= run' && IsRun(run', n) && Silent(Last(run), Last(run'), group)
    ensures AllDone(Last(run'), group, Last(run).nodes[i].log)
  {
    var t, log := Last(run).nodes[i].term, Last(run).nodes[i].log;
    var served := LeaderServes(run, n, group, i);
    ServedSpread(served, n, group, i, t, log);
    var spread := SpreadAll(served, n, group, i, n, t, log);
    run' := SpreadDone(spread, n, group, i, t, log);
  }

  // ----- a command from any state -----

  lemma Receives(run: seq<State>, n: nat, group: set<int>, i: int, command: string) returns (run': seq<State>)
    requires IsRun(run, n) && LeadsGroup(Last(run), group, i)
    ensures run <= run' && IsRun(run', n) && Silent(Last(run), Last(run'), group) && LeadsGroup(Last(run'), group, i)
    ensures var l, l' := Last(run).nodes[i], Last(run').nodes[i];
      l'.term == l.term && l'.log == l.log + [LogEntry(command, l.term)]
  {
    var c' := DoClientStart(Last(run), i, command);
    RunExtends(run, n, ClientStart(i, command), c');
    run' := run + [c'];
  }

  /** From every reachable state any half of the cluster, rounded up, and one node more can
      elect one of them, append a command to its log, and commit and apply that log. */
  lemma AnyStateCommits(run: seq<State>, n: nat, group: set<int>, command: string)
      returns (run': seq<State>, i: int, t: int)
    requires IsRun(run, n) && AreNodes(Last(run), group) && 2 * (|group| - 1) >= n
    ensures run <= run' && IsRun(run', n) && Silent(Last(run), Last(run'), group) && i in group
    ensures AllDone(Last(run'), group, Last(run).nodes[i].log + [LogEntry(command, t)])
  {
    var led, leader := MajorityElects(run, n, group);
    i, t := leader, Last(led).nodes[leader].term;
    var given := Receives(led, n, group, i, command);
    run' := LeaderCommits(given, n, group, i);
  }

  ghost function Ids(n: nat): (ids: set<int>)
    ensures forall q :: q in ids <==> 0 <= q < n
    ensures |ids| == n
  {
    if n == 0 then {} else Ids(n - 1) + {n - 1}
  }

  /** Some run of n nodes reaches a state in which node i has committed something. */
  ghost predicate Commits(n: nat, run: seq<State>, i: int) {
    IsRun(run, n) && IsNode(Last(run), i) && Last(run).nodes[i].commitIndex > 0
  }

  ghost function Fresh(n: nat): State {
    State(seq(n, _ => Boot(n, FRESH_DISK)), map[], map[], History(map[], map[], map[], map[]))
  }

  /** A command given to a fresh cluster of two or more nodes can reach every log in term 1
      and be committed and applied by every node. */
  lemma CommandCommits(n: nat, command: string) returns (run: seq<State>)
    requires n >= 2
    ensures Commits(n, run, 0) && AllDone(Last(run), Ids(n), [LogEntry(command, 1)])
  {
    var c, group := Fresh(n), Ids(n);
    assert Init(c, n) && IsRun([c], n) && CanStand(c, group, 0);
    var led := Elects([c], n, group, 0);
    var given := Receives(led, n, group, 0, command);
    run := LeaderCommits(given, n, group, 0);
  }

  /** The nodes that hold a log prefix in their files. */
  ghost function Keepers(c: State, log: Log): set<int> {
    set v | 0 <= v < |c.nodes| && log <= c.nodes[v].disk.log
  }

  /** A node that once accepted a committed position has it in its file for good: whatever
      replaced its log since came from a leader that has it too. */
  lemma AcceptedIsKept(h: History, n: nat, v: int, s: NodeState, t: int, j: int)
    requires HistoryInv(h, n) && NodeInv(h, n, v, s) && CommitPoint(h, n, t, j) && Acked(h, t, v) >= j
    ensures LeaderLog(h, t)[..j] <= s.disk.log
  {
    var hi := s.term + 1;
    assert RemembersAll(h, v, s.disk.log, hi);
    assert Remembered(h, t, j, s.disk.log, hi);
    forall u | t < u < hi ensures !Lacks(h, u, t, j) {
      if u in h.elections { LeaderCompleteness(h, n, t, j, u); }
    }
  }

  /** The committed entries of a node are, at any later moment, in the files of at least
      half of the cluster, rounded up, without the node that led when they were committed. */
  lemma CommitIsDurable(run: seq<State>, n: nat, k: nat, i: int, s: NodeState, later: nat)
      returns (t: int, holders: set<int>)
    requires At(run, n, k, i, s) && s.commitIndex > 0 && k <= later < |run|
    ensures 0 < s.commitIndex <= |s.log| && |run[later].nodes| == n
    ensures holders <= Keepers(run[later], s.log[..s.commitIndex]) && 2 * |holders| >= n
    ensures t in run[later].history.elections && 0 <= run[later].history.elections[t].leader < n
    ensures run[later].history.elections[t].leader !in holders
  {
    RunHolds(run, n, k);
    RunHolds(run, n, later);
    RunGrows(run, n, k, later);
    var h := run[later].history;
    assert NodeInv(run[k].history, n, i, s);
    var u, j :| NodeCommittedVia(run[k].history, n, i, s, u, j);
    t := u;
    CommittedViaGrows(run[k].history, h, n, s.log, s.commitIndex, t, j);
    holders := AckedBy(h, n, t, j);
    forall v | v in holders
      ensures v in Keepers(run[later], s.log[..s.commitIndex]) && v != h.elections[t].leader
    {
      assert NodeInv(h, n, v, run[later].nodes[v]);
      AcceptedIsKept(h, n, v, run[later].nodes[v], t, j);
      CutIsKept(s.log, s.commitIndex, LeaderLog(h, t), j, run[later].nodes[v].disk.log);
      assert AckInv(h, t, v);
    }
    assert ElectionInv(h, n, t);
  }

  lemma CutIsKept(log: Log, c: int, whole: Log, j: int, disk: Log)
    requires 0 <= c <= j <= |whole| && c <= |log| && log[..c] == whole[..c] && whole[..j] <= disk
    ensures log[..c] <= disk
  {
    assert whole[..j][..c] == whole[..c];
  }

  /** Node i commits in a run that leaves the nodes outside the group as they started. */
  ghost predicate CommitsAlone(n: nat, group: set<int>, run: seq<State>, i: int) {
    Commits(n, run, i) && Silent(run[0], Last(run), group)
  }

  /** A node that keeps a committed entry, or has led a term, is not as it started. */
  lemma TakesPart(run: seq<State>, n: nat, group: set<int>, v: int)
    requires IsRun(run, n) && Silent(run[0], Last(run), group) && 0 <= v < n && IsNode(Last(run), v)
    requires var s := Last(run).nodes[v]; s.disk.log != [] || s.term > 0
    ensures v in group
  {
    assert run[0].nodes[v] == Boot(n, FRESH_DISK);
  }

  lemma OwnGroupIsEnough(run: seq<State>, n: nat, group: set<int>, i: int)
    requires CommitsAlone(n, group, run, i)
    ensures 2 * (|group| - 1) >= n
  {
    var c := Last(run);
    RunHolds(run, n, |run| - 1);
    var t, holders := CommitIsDurable(run, n, |run| - 1, i, c.nodes[i], |run| - 1);
    var leader := c.history.elections[t].leader;
    forall v | v in holders ensures v in group {
      assert v in Keepers(c, c.nodes[i].log[..c.nodes[i].commitIndex]);
      TakesPart(run, n, group, v);
    }
    assert NodeInv(c.history, n, leader, c.nodes[leader]) && ElectionInv(c.history, n, t);
    TakesPart(run, n, group, leader);
    SubsetSize(holders + {leader}, group);
  }

  /** A group can commit on its own exactly when it is half of the cluster, rounded up, and
      one node more: the leader's own slot in matchIndex stays 0. */
  lemma CommitsAloneIff(n: nat, group: set<int>)
    requires forall q :: q in group ==> 0 <= q < n
    ensures (exists run, i :: CommitsAlone(n, group, run, i)) <==> 2 * (|group| - 1) >= n
  {
    if 2 * (|group| - 1) >= n {
      SubsetSize(group, Ids(n));
      assert Init(Fresh(n), n) && IsRun([Fresh(n)], n);
      var run, i, t := AnyStateCommits([Fresh(n)], n, group, "");
      assert CommitsAlone(n, group, run, i);
    }
    forall run, i | CommitsAlone(n, group, run, i) ensures 2 * (|group| - 1) >= n {
      OwnGroupIsEnough(run, n, group, i);
    }
  }

  /** So a cluster can commit exactly when it has at least two nodes. */
  lemma CommitsIff(n: nat)
    ensures (exists run, i :: Commits(n, run, i)) <==> n >= 2
  {
    CommitsAloneIff(n, Ids(n));
    forall run, i | Commits(n, run, i) ensures CommitsAlone(n, Ids(n), run, i) {
      RunHolds(run, n, |run| - 1);
    }
  }
}
