/** The values a Raft node holds and exchanges: log entries, the four RPC
    messages, and the fields of class Raft that the protocol reads or writes. */
module RaftTypes {
  datatype LogEntry = LogEntry(command: string, term: int)
  type Log = seq<LogEntry>

  datatype Role = LEADER | CANDIDATE | FOLLOWER

  /** votedFor when the node has not voted in its term. */
  const NO_VOTE := -1

  /** A conflict field of an append reply that was left at its default. */
  const NOT_SET := -1

  datatype VoteArgs = VoteArgs(term: int, candidateId: int, lastLogTerm: int, lastLogIndex: int)
  datatype VoteReply = VoteReply(term: int, granted: bool)

  datatype AppendArgs = AppendArgs(
    term: int, leaderId: int, prevLogIndex: int, prevLogTerm: int, leaderCommit: int, entries: Log)
  datatype AppendReply = AppendReply(term: int, success: bool, conflictTerm: int, conflictIndex: int)

  /** What the persister file holds. A missing file reads as FRESH_DISK, which is
      also the state a node without a file starts in. */
  datatype Persisted = Persisted(term: int, votedFor: int, log: Log)
  const FRESH_DISK := Persisted(0, NO_VOTE, [])

  /** The fields of one node. Log positions are 1-based: position k is log[k - 1]. */
  datatype NodeState = NodeState(
    term: int, votedFor: int, log: Log,
    nextIndex: seq<int>, matchIndex: seq<int>,
    lastApplied: int, commitIndex: int,
    recvVotes: int, finishedVote: int,
    role: Role, disk: Persisted)

  /** The term of the last entry, 0 for an empty log. */
  function LastTerm(log: Log): int {
    if |log| == 0 then 0 else log[|log| - 1].term
  }

  /** A log whose terms never decrease. */
  ghost predicate SortedLog(log: Log) {
    forall j, k :: 0 <= j < k < |log| ==> log[j].term <= log[k].term
  }

  /** Log matching between two logs: the same term at the same position means the
      same entries up to that position. */
  ghost predicate LogsMatch(a: Log, b: Log) {
    forall k :: 0 <= k < |a| && k < |b| && a[k].term == b[k].term ==> a[..k + 1] == b[..k + 1]
  }

  function Min(a: int, b: int): int {
    if a <= b then a else b
  }
}
