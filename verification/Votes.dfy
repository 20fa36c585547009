/** Counting votes (G1, G9): a candidate that handles any series of vote answers has one
    vote for each node that voted for it in its election exactly when no answer of
    another election and no second answer of a voter is among those it counts. */
module Votes {
  import opened RaftTypes
  import opened RaftHandlers

  /** An answer, with the election it was asked for and the node that gave it. */
  datatype Answer = Answer(election: int, voter: int, reply: VoteReply)

  function Front(answers: seq<Answer>): seq<Answer>
    requires answers != []
  {
    answers[..|answers| - 1]
  }

  function Last(answers: seq<Answer>): Answer
    requires answers != []
  {
    answers[|answers| - 1]
  }

  /** The candidate after the reply part of callRequestVote for every answer. */
  function CountAll(s: NodeState, answers: seq<Answer>): NodeState {
    if answers == [] then s else HandleVoteReply(CountAll(s, Front(answers)), Last(answers).reply)
  }

  function GuardedCountAll(s: NodeState, answers: seq<Answer>): NodeState {
    if answers == [] then s
    else GuardedVoteReply(GuardedCountAll(s, Front(answers)), Last(answers).election, Last(answers).reply)
  }

  /** The nodes that voted for the candidate in the given election. */
  function Voters(answers: seq<Answer>, election: int): set<int> {
    if answers == [] then {}
    else if Yes(answers, |answers| - 1, election) then Voters(Front(answers), election) + {Last(answers).voter}
    else Voters(Front(answers), election)
  }

  lemma {:induction false} VotersAre(answers: seq<Answer>, election: int)
    ensures forall v :: v in Voters(answers, election) <==>
      exists k :: 0 <= k < |answers| && Yes(answers, k, election) && answers[k].voter == v
  {
    if answers != [] {
      VotersAre(Front(answers), election);
      var n := |answers| - 1;
      assert forall k :: 0 <= k < n ==>
        Front(answers)[k] == answers[k] && (Yes(Front(answers), k, election) <==> Yes(answers, k, election));
      forall v ensures v in Voters(answers, election) <==>
        exists k :: 0 <= k < |answers| && Yes(answers, k, election) && answers[k].voter == v
      {
        if v in Voters(Front(answers), election) {
          var k :| 0 <= k < n && Yes(Front(answers), k, election) && Front(answers)[k].voter == v;
          assert Yes(answers, k, election);
        }
        if Yes(answers, n, election) && answers[n].voter == v { assert v in Voters(answers, election); }
      }
    }
  }

  predicate Yes(answers: seq<Answer>, k: int, election: int)
    requires 0 <= k < |answers|
  {
    answers[k].reply.granted && answers[k].election == election
  }

  /** Every granted answer is of the given election. */
  predicate OfElection(answers: seq<Answer>, election: int) {
    forall k :: 0 <= k < |answers| && answers[k].reply.granted ==> answers[k].election == election
  }

  /** No voter says yes twice in the given election. */
  predicate EachOnce(answers: seq<Answer>, election: int) {
    forall j, k :: 0 <= j < k < |answers| && Yes(answers, j, election) && Yes(answers, k, election) ==>
      answers[j].voter != answers[k].voter
  }

  lemma OfElectionLast(answers: seq<Answer>, t: int)
    requires answers != []
    ensures OfElection(answers, t) <==>
      OfElection(Front(answers), t) && (Last(answers).reply.granted ==> Last(answers).election == t)
  {
    assert forall k :: 0 <= k < |answers| - 1 ==> Front(answers)[k] == answers[k];
  }

  lemma EachOnceLast(answers: seq<Answer>, t: int)
    requires answers != []
    ensures EachOnce(answers, t) <==>
      && EachOnce(Front(answers), t)
      && (Yes(answers, |answers| - 1, t) ==> Last(answers).voter !in Voters(Front(answers), t))
  {
    VotersAre(Front(answers), t);
    var n := |answers| - 1;
    assert forall k :: 0 <= k < n ==>
      Front(answers)[k] == answers[k] && (Yes(Front(answers), k, t) <==> Yes(answers, k, t));
  }

  /** The code's count is at least the number of voters, and equal to it exactly when it
      counted only answers of its own election, each voter's once. */
  lemma {:induction false} CountIsVotersIff(s: NodeState, answers: seq<Answer>)
    requires forall k :: 0 <= k < |answers| ==> answers[k].reply.term <= s.term
    ensures var s' := CountAll(s, answers);
      && s' == s.(recvVotes := s'.recvVotes, finishedVote := s.finishedVote + |answers|)
      && s'.recvVotes >= s.recvVotes + |Voters(answers, s.term)|
      && (s'.recvVotes == s.recvVotes + |Voters(answers, s.term)| <==>
            OfElection(answers, s.term) && EachOnce(answers, s.term))
  {
    if answers != [] {
      CountIsVotersIff(s, Front(answers));
      OfElectionLast(answers, s.term);
      EachOnceLast(answers, s.term);
    }
  }

  /** The guarded count leaves out answers of other elections, so that it is exact as soon
      as every voter is asked once. */
  lemma {:induction false} GuardedCountIsVotersIff(s: NodeState, answers: seq<Answer>)
    requires s.role == CANDIDATE && forall k :: 0 <= k < |answers| ==> answers[k].reply.term <= s.term
    ensures var s' := GuardedCountAll(s, answers);
      && s' == s.(recvVotes := s'.recvVotes, finishedVote := s.finishedVote + |answers|)
      && (s'.recvVotes == s.recvVotes + |Voters(answers, s.term)| <==> EachOnce(answers, s.term))
      && s'.recvVotes >= s.recvVotes + |Voters(answers, s.term)|
  {
    if answers != [] {
      GuardedCountIsVotersIff(s, Front(answers));
      EachOnceLast(answers, s.term);
    }
  }

  // ----- how an election of the code ends -----

  /** How many answers say yes without naming a term beyond t. */
  function Granted(answers: seq<Answer>, t: int): nat {
    if answers == [] then 0
    else
      var r := Last(answers).reply;
      Granted(Front(answers), t) + if r.granted && r.term <= t then 1 else 0
  }

  /** Some answer names a term beyond t. */
  predicate AnyHigher(answers: seq<Answer>, t: int) {
    exists k :: 0 <= k < |answers| && answers[k].reply.term > t
  }

  lemma AnyHigherLast(answers: seq<Answer>, t: int)
    requires answers != []
    ensures AnyHigher(answers, t) <==> AnyHigher(Front(answers), t) || Last(answers).reply.term > t
  {
    assert forall k :: 0 <= k < |answers| - 1 ==> Front(answers)[k] == answers[k];
    if Last(answers).reply.term > t { assert answers[|answers| - 1].reply.term > t; }
  }

  /** What any answers at all make of an election that has just started: every answer is
      counted as come in, a yes as a vote, and one that names a higher term ends the
      candidacy, although the saved term comes back. */
  lemma {:induction false} ElectionCounts(s: NodeState, self: int, answers: seq<Answer>)
    ensures var t := s.term + 1;
      var e := CountAll(StartElection(s, self), answers);
      && e.term == e.disk.term == t
      && e.finishedVote == 1 + |answers| && e.recvVotes == 1 + Granted(answers, t)
      && (e.role == CANDIDATE <==> !AnyHigher(answers, t))
  {
    if answers != [] {
      ElectionCounts(s, self, Front(answers));
      AnyHigherLast(answers, s.term + 1);
    }
  }

  /** The wait in electionLoop ends when the other n - 1 nodes have answered, whatever they
      say, and before that exactly on a majority of votes. */
  lemma ElectionEndsIff(s: NodeState, self: int, answers: seq<Answer>, n: nat)
    requires |answers| < n
    ensures DoneWaiting(CountAll(StartElection(s, self), answers), n) <==>
      |answers| == n - 1 || 2 * (1 + Granted(answers, s.term + 1)) > n
  {
    ElectionCounts(s, self, answers);
  }

  /** The candidate then takes office exactly with a majority of votes and no answer that
      names a higher term. */
  lemma ElectionWonIff(s: NodeState, self: int, answers: seq<Answer>, n: nat)
    ensures WinsElection(CountAll(StartElection(s, self), answers), n) <==>
      !AnyHigher(answers, s.term + 1) && 2 * (1 + Granted(answers, s.term + 1)) > n
  {
    ElectionCounts(s, self, answers);
  }

  lemma {:induction false} NeverStandsAgain(s: NodeState, answers: seq<Answer>)
    requires s.role != CANDIDATE
    ensures CountAll(s, answers).role != CANDIDATE
  {
    if answers != [] { NeverStandsAgain(s, Front(answers)); }
  }

  lemma {:induction false} CountSplit(s: NodeState, a: seq<Answer>, b: seq<Answer>)
    ensures CountAll(s, a + b) == CountAll(CountAll(s, a), b)
  {
    if b == [] {
      assert a + b == a;
    } else {
      assert Front(a + b) == a + Front(b);
      CountSplit(s, a, Front(b));
    }
  }

  /** Whatever state a node is in: an answer that names a higher term than the node's at
      that moment keeps it from office, whatever answers came before and come after. */
  lemma HigherTermLoses(s: NodeState, answers: seq<Answer>, k: nat, n: nat)
    requires k < |answers| && answers[k].reply.term > CountAll(s, answers[..k]).term
    ensures !WinsElection(CountAll(s, answers), n)
  {
    var first, later := answers[..k + 1], answers[k + 1..];
    assert Front(first) == answers[..k] && Last(first) == answers[k];
    NeverStandsAgain(CountAll(s, first), later);
    CountSplit(s, first, later);
    assert first + later == answers;
  }
}
