/** What the history says only grows, so a node or message the step did not touch
    keeps its part of the invariant. Also the facts that follow from the invariant
    in one state: log matching between rooted logs and leader completeness. */
module HistoryGrowth {
  import opened RaftTypes
  import opened RaftHandlers
  import opened Quorum
  import opened Sets
  import opened Cluster
  import opened ClusterInvariant

  ghost predicate ElectionGrows(e: Election, e': Election) {
    e'.leader == e.leader && e'.voters == e.voters && e'.base == e.base && e.log <= e'.log
  }

  ghost predicate CampaignGrows(k: Campaign, k': Campaign) {
    k'.log == k.log && k.counted <= k'.counted
  }

  ghost predicate Grows(h: History, h': History) {
    && (forall t :: t in h.elections ==> t in h'.elections && ElectionGrows(h.elections[t], h'.elections[t]))
    && (forall t, i :: (t, i) in h.campaigns ==>
          (t, i) in h'.campaigns && CampaignGrows(h.campaigns[(t, i)], h'.campaigns[(t, i)]))
    && (forall t, v :: (t, v) in h.ballots ==> (t, v) in h'.ballots && h'.ballots[(t, v)] == h.ballots[(t, v)])
    && (forall t, v :: Acked(h, t, v) <= Acked(h', t, v))
  }

  lemma GrowsTrans(h: History, h': History, h'': History)
    requires Grows(h, h') && Grows(h', h'')
    ensures Grows(h, h'')
  {
    forall t, v ensures Acked(h, t, v) <= Acked(h'', t, v) {
      assert Acked(h, t, v) <= Acked(h', t, v) <= Acked(h'', t, v);
    }
  }

  lemma RootedGrows(h: History, h': History, log: Log)
    requires Grows(h, h') && Rooted(h, log)
    ensures Rooted(h', log)
  {
    forall k | 0 <= k < |log| ensures RootedAt(h', log, k) {
      assert RootedAt(h, log, k);
    }
  }

  lemma RootedPrefix(h: History, log: Log, part: Log)
    requires Rooted(h, log) && part <= log
    ensures Rooted(h, part)
  {
    forall k | 0 <= k < |part| ensures RootedAt(h, part, k) {
      assert RootedAt(h, log, k);
      assert part[..k + 1] == log[..k + 1];
    }
  }

  lemma OverwrittenGrows(h: History, h': History, t: int, j: int, hi: int)
    requires Grows(h, h') && t in h.elections && 0 <= j <= |LeaderLog(h, t)|
    ensures Overwritten(h, t, j, hi) ==> Overwritten(h', t, j, hi)
    ensures LeaderLog(h', t)[..j] == LeaderLog(h, t)[..j]
  {
    assert LeaderLog(h', t)[..j] == LeaderLog(h, t)[..j];
    if Overwritten(h, t, j, hi) {
      var u :| t < u < hi && Lacks(h, u, t, j);
      assert Lacks(h', u, t, j);
    }
  }

  lemma RememberedGrows(h: History, h': History, t: int, j: int, log: Log, log': Log, hi: int, hi': int)
    requires Grows(h, h') && Remembered(h, t, j, log, hi) && log <= log' && hi <= hi'
    ensures Remembered(h', t, j, log', hi')
  {
    OverwrittenGrows(h, h', t, j, hi);
    if !(LeaderLog(h, t)[..j] <= log) {
      var u :| t < u < hi && Lacks(h', u, t, j);
      assert t < u < hi';
    }
  }

  /** A log that only got longer, and a term that only got higher, still remember
      what v accepted, as long as v accepted nothing new. */
  lemma RemembersAllGrows(h: History, h': History, v: int, log: Log, log': Log, hi: int, hi': int)
    requires Grows(h, h') && RemembersAll(h, v, log, hi) && log <= log' && hi <= hi'
    requires forall t :: Acked(h', t, v) == Acked(h, t, v)
    requires forall t :: Acked(h, t, v) > 0 ==> t < hi
    ensures RemembersAll(h', v, log', hi')
  {
    forall t, j | t < hi' && 0 < j <= Acked(h', t, v) ensures Remembered(h', t, j, log', hi') {
      assert Acked(h', t, v) == Acked(h, t, v);
      assert Remembered(h, t, j, log, hi);
      RememberedGrows(h, h', t, j, log, log', hi, hi');
    }
  }

  lemma CommitPointGrows(h: History, h': History, n: nat, t: int, j: int)
    requires Grows(h, h') && CommitPoint(h, n, t, j)
    ensures CommitPoint(h', n, t, j)
  {
    forall v | v in AckedBy(h, n, t, j) ensures v in AckedBy(h', n, t, j) {
      assert Acked(h, t, v) <= Acked(h', t, v);
    }
    SubsetSize(AckedBy(h, n, t, j), AckedBy(h', n, t, j));
  }

  lemma CommittedViaGrows(h: History, h': History, n: nat, log: Log, c: int, t: int, j: int)
    requires Grows(h, h') && CommittedVia(h, n, log, c, t, j)
    ensures CommittedVia(h', n, log, c, t, j)
  {
    CommitPointGrows(h, h', n, t, j);
    assert LeaderLog(h', t)[..c] == LeaderLog(h, t)[..c];
  }

  // ----- facts of one state -----

  /** Two rooted logs that agree on the term of a position agree up to it. */
  lemma RootedLogsMatch(h: History, a: Log, b: Log)
    requires Rooted(h, a) && Rooted(h, b)
    ensures LogsMatch(a, b)
  {
    forall k | 0 <= k < |a| && k < |b| && a[k].term == b[k].term ensures a[..k + 1] == b[..k + 1] {
      assert RootedAt(h, a, k) && RootedAt(h, b, k);
    }
  }

  lemma RootedSorted(h: History, n: nat, log: Log)
    requires HistoryInv(h, n) && Rooted(h, log)
    ensures SortedLog(log) && forall k :: 0 <= k < |log| ==> log[k].term >= 1
  {
    forall j, k | 0 <= j < k < |log| ensures log[j].term <= log[k].term {
      assert RootedAt(h, log, k);
      var whole := LeaderLog(h, log[k].term);
      assert ElectionInv(h, n, log[k].term);
      assert whole[j] == log[..k + 1][j] && whole[k] == log[..k + 1][k];
    }
    forall k | 0 <= k < |log| ensures log[k].term >= 1 {
      assert RootedAt(h, log, k);
      assert ElectionInv(h, n, log[k].term);
    }
  }

  lemma PrefixAt(a: Log, whole: Log, k: int)
    requires a <= whole && 0 <= k < |whole|
    ensures k < |a| ==> a[k] == whole[k]
  {}

  /** A rooted log whose last entry is of term t starts with the log t's leader was
      elected with. */
  lemma EndsInTerm(h: History, n: nat, log: Log)
    requires HistoryInv(h, n) && Rooted(h, log) && log != []
    ensures LastTerm(log) in h.elections
    ensures h.elections[LastTerm(log)].base <= log <= LeaderLog(h, LastTerm(log))
  {
    var k := |log| - 1;
    assert RootedAt(h, log, k);
    assert log[..k + 1] == log;
    var e := h.elections[log[k].term];
    assert ElectionInv(h, n, log[k].term);
    assert e.log[k] == log[k];
    PrefixAt(e.base, e.log, k);
    assert e.base == e.log[..|e.base|] && log[..|e.base|] == e.log[..|e.base|];
  }

  /** Leader completeness: a committed position is in the log of every leader of a
      later term from the moment it was elected. */
  lemma {:induction false} LeaderCompleteness(h: History, n: nat, t: int, j: int, u: int)
    requires HistoryInv(h, n) && CommitPoint(h, n, t, j) && u in h.elections && t < u
    ensures LeaderLog(h, t)[..j] <= h.elections[u].base
    decreases u
  {
    var prefix := LeaderLog(h, t)[..j];
    var e := h.elections[u];
    assert ElectionInv(h, n, u);
    var v := QuorumsMeet(n, AckedBy(h, n, t, j), e.voters);
    var ballot := h.ballots[(u, v)];
    VoterRemembers(h, n, t, j, u, v);
    assert CampaignInv(h, n, u, e.leader);
    var w := ballot.log;
    assert w[j - 1] == prefix[j - 1];
    RootedSorted(h, n, w);
    assert LastTerm(w) >= t;
    RootedSorted(h, n, e.base);
    assert e.base != [];
    EndsInTerm(h, n, e.base);
    EndsInTerm(h, n, w);
    var last := LastTerm(e.base);
    if last == LastTerm(w) {
      PrefixesOfOne(w, e.base, LeaderLog(h, last));
    } else {
      LeaderCompleteness(h, n, t, j, last);
    }
  }

  lemma PrefixesOfOne(a: Log, b: Log, whole: Log)
    requires a <= whole && b <= whole && |a| <= |b|
    ensures a <= b
  {
    assert a == whole[..|a|] && b == whole[..|b|];
  }

  /** A voter that had accepted the position still held it when it cast a deciding
      vote for a later term. */
  lemma {:induction false} VoterRemembers(h: History, n: nat, t: int, j: int, u: int, v: int)
    requires HistoryInv(h, n) && CommitPoint(h, n, t, j) && u in h.elections && t < u
    requires v in AckedBy(h, n, t, j) && v in h.elections[u].voters
    ensures (u, v) in h.ballots && LeaderLog(h, t)[..j] <= h.ballots[(u, v)].log
    decreases u, 0
  {
    assert ElectionInv(h, n, u);
    assert BallotInv(h, u, v);
    var w := h.ballots[(u, v)].log;
    assert Decisive(h, u, v);
    assert Remembered(h, t, j, w, u);
    if !(LeaderLog(h, t)[..j] <= w) {
      var x :| t < x < u && Lacks(h, x, t, j);
      LeaderCompleteness(h, n, t, j, x);
      assert false;
    }
  }
}
