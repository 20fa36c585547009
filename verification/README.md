# A model of a Raft node, its codecs and a MapReduce word count

This project models, in Dafny, the three programs of the repository and proves what they are meant to
guarantee:

* **The Raft node and the cluster it forms** (`RAFT/src`, `RAFT/include/Raft.h`): election, log replication with
  fast back-up, the commit rule, and the persister file, after "In Search of an Understandable Consensus
  Algorithm" (Ongaro and Ousterhout), Figures 2 and 3 and sections 5.2 to 5.4.
* **The codecs under it**: the `command,term;` log text, the `term;vote;command,term.` persister text, decimal
  numbers, and the byte serializer of the RPC layer.
* **The MapReduce word count** (`mapreduce`): the master's task queues with time-outs, and the worker pipeline from
  text to counted lines.

## How the parts fit together

`RaftHandlers` states what every lock-protected stretch of the node's code does to the node's fields, branch by
branch. Class `RaftNode.Node` is the node as an object: fields assigned in place, logs pushed and popped entry by
entry, texts scanned with cursors; each method is proved to do what the function in `RaftHandlers` says, with wire
and file texts in between. `Cluster` makes those functions the steps of a transition system over n nodes, with
delayed and lost messages, crashes and restarts. `ClusterInvariant` is the inductive invariant; `ElectionSteps` and
`ReplicationSteps` show that each step keeps it; `Safety` draws the conclusions for every run, and `Records` adds where
terms come from and what a crash costs. `CatchUp` is about one leader and one follower, and `Progress` shows that every
such pair in a run behaves that way. `Availability` shows that from every reachable state any majority can elect a
leader, and `Commitment` which groups of nodes can then commit and apply a command.

The MapReduce half has the same shape: `Scheduler` is the master's board as a state machine and `Master` the object
proved against it; `Tokens`, `WordCount`, `MapPhase` and `Reduce` hold the loops of the worker, `WordCountProof` the
argument that a reducer counts what was written for it, and `WordCountJob` puts the phases together: map workers that
write at the same time, slowly or again, and reducers that read what is on disk when they start.

Everything is stated over unbounded integers, for every cluster size, every log and every interleaving of steps.

## Where the code departs from the protocol

The whole-run theorems of `Safety` hold for the code with the following ten guards. Each guard is written out, as a
clause of `Cluster.Enabled`, as a `Guarded` function of `RaftHandlers`, or in what `Cluster` lets a message carry; the
unguarded form is kept beside it, and the lemmas named here show exactly when the two part and what goes wrong then.

* **G1, votes of another election.** A vote request is built after the lock was released
  (`RAFT/src/leaderElection.cpp:95-99`) and its answer counted with no look at the term (lines 136-138). Guard: the
  requests are built in the step that starts the election, and an answer counts only for the election it was
  requested in. `Votes.CountIsVotersIff`: over any series of answers the
  count is the number of voters iff every counted answer is of this election and no voter is counted twice.
  `Unguarded.TwoLeadersInOneTerm`: three nodes that count late answers, and otherwise stand and wait as the code does
  (lines 58-61), reach two leaders of one term.
* **G2, test and vote.** `requestVote` gives up the lock between testing and voting (lines 163-168). The server
  handles one vote request at a time, but the election timer and the append server can run in between. Guard: it is
  one step. `Guards.ResumedVoteIff`, `Guards.TimerVotesTwice`.
* **G3, stepping down.** On a higher term in a vote reply the code reloads the file (line 130), which brings back
  the old term and pushes the stored log behind the one in memory. Guard: it saves, as the append path does
  (`RAFT/src/logEntriesAppend.cpp:104-112`). `Guards.ReloadKeepsIff`.
* **G4, saving.** `appendEntries` saves before it assigns the new term (`RAFT/src/logEntriesAppend.cpp:182-186`),
  and `requestVote` does not save when it refuses an outdated candidate (`RAFT/src/leaderElection.cpp:165`).
  Guard: every change of the term is saved. `Guards.AppendSavesIff`, `Guards.VoteSavesIff`.
* **G5, empty logs.** A follower with an empty log takes whatever entries arrive as its first ones
  (`RAFT/src/logEntriesAppend.cpp:197-216`). Guard: only if they start at position 1. `Guards.AcceptedLogIff`.
* **G6, append exchanges.** Truncation is unconditional (lines 245-249) and `nextIndex` is incremented by the
  answer (line 117). Guard: one exchange at a time for each follower and term, answered while its sender still
  leads that term, or given up. `Guards.LaterAppendKeepsIff`, `Guards.SecondAnswerIff`, `Guards.NextRequestIff`.
* **G7, saving over an older file.** The file is opened without truncation (`RAFT/src/statePersistence.cpp:33`), and
  the formats have no escapes. Guard: a save replaces the file, and commands contain none of `,` `;` `.` and NUL.
  `Overwrite.SaveReadsAs` says what a save over any file text reads back as, and `Overwrite.SaveReadsBackIff` that this
  is the saved state iff the old characters read behind its log end no entry; `Overwrite.SaveOverStateIff` puts that
  in numbers for a file that holds one older state. For example "2;0;x,2." saved over "1;0;abc,1.de,1." reads back with
  an entry "1" of term 0, and a third save can invent an entry even where its last two states alone would do no harm
  (`Overwrite.ThirdSaveInvents`).
* **G8, sending after losing office.** The sending threads take the lock again without asking whether the node
  still leads (`RAFT/src/logEntriesAppend.cpp:37`, `56-97`). Guard: a request is built only by a leader.
  `Guards.SenderLogIsTaken`: a consistent follower takes the sender's log, and loses nothing iff its own was a prefix.
* **G9, asking a peer twice.** The threads of one election share the cursor with those of the previous one
  (`RAFT/src/leaderElection.cpp:43-56`, `102-114`), so a peer can be asked twice, and it answers yes twice. Guard:
  the requests of an election are one round of the cursor. `PeerCursor.TargetsDistinctIff`, `Votes.CountIsVotersIff`.
* **G10, long requests.** A request whose log text has 65536 bytes or more reaches the follower cut short
  (`RAFT/buttonrpc_edit/Serializer.hpp:167`) and is accepted, but the leader counts the entries of the text it printed
  (`RAFT/src/logEntriesAppend.cpp:117`). Guard: a request is carried whole. `Request.LongRequestIff`: the matchIndex
  earned is what the follower holds iff the text is shorter. `Request.LongCommandCommitsAlone`: a leader of two nodes
  commits an entry that only it holds.

The commit rule itself differs from the paper without being unsafe: the leader's own slot of `matchIndex` stays 0,
so the median asks for half of the cluster, rounded up, besides the leader (`Commitment.CommitsAloneIff`). A cluster of
three needs both followers, and a cluster of one elects itself and never commits (`Commitment.CommitsIff`).

A candidate waits, without a time-out, until it has a majority or every peer has answered
(`RAFT/src/leaderElection.cpp:58-61`), so an election that has lost an answer and has no majority never ends
(`Votes.ElectionEndsIff`). The elections of `Availability` respect this wait; a node that hangs in it is restarted,
which costs a node that does not lead neither term nor log.

Two of the codecs' promises hold only in part, and are stated with their exact condition: a string write on a
big-endian stream reverses its length in place and then copies that many characters
(`RAFT/buttonrpc_edit/Serializer.hpp:167-176`), and strings of 65536 bytes or more lose their length (line 167). The
RPC layer uses little-endian streams only.

In the word count, time-outs make workers repeat what others have done or are still doing. Intermediate files are
appended to (`mapreduce/worker.cpp:112-116`), so a word that two workers have written is counted twice, even if one of
them is only slow and still writing (lines 105-119); output files are appended to as well (lines 328-331), so a reduce
task that ran twice prints its lines twice. The outputs are the sequential word count exactly when every reducer that
has words ran once and, when it read, found for no input more of its words than the input has
(`WordCountJob.CountWords`).

## Model

| member | source | states |
|---|---|---|
| Safety.StateMachineSafety | RAFT/src/logEntriesAppend.cpp:115-129 | any two nodes, at any two moments of a run, agree on every log position both have committed |
| Safety.CommittedReachesLeaders | RAFT/src/raft.cpp:102-118 | leader completeness: what a node has committed is in the log of every leader of a later term, whichever moment comes first |
| Safety.LogMatching | RAFT/src/logEntriesAppend.cpp:228-253 | two logs of any nodes at any moments with the same term at a position are identical up to it, although accepted appends cut logs unconditionally |
| Safety.MessageMatching | RAFT/src/logEntriesAppend.cpp:65-88 | the same for entries carried by a request in flight against any node's log |
| Safety.ElectionSafety | RAFT/src/leaderElection.cpp:37-77 | at most one node leads a term, over the whole run, crashes included |
| Safety.VotesOnce | RAFT/src/leaderElection.cpp:143-175 | a node never votes for two candidates in one term, even across a crash and restart from its file |
| Safety.VotesAreBallots | RAFT/src/leaderElection.cpp:120-139 | in every reachable state a candidate has counted no more votes than were cast for it in its term |
| Safety.MatchIndexSound | RAFT/src/logEntriesAppend.cpp:114-118 | a follower in the leader's term holds the leader's first matchIndex entries, in memory and in its file, in every reachable state; requests are carried whole (G10) |
| Safety.IndexBounds | RAFT/src/raft.cpp:52-67 | logs are sorted by term and bounded by the node's term; lastApplied <= commitIndex <= log size; a leader has 0 <= matchIndex < nextIndex <= log size + 1 |
| Safety.NoAccessOutOfRange | RAFT/src/logEntriesAppend.cpp:65-88 | every step a run could take next reads log positions that exist |
| Safety.CommitsOnlyGrow | RAFT/src/logEntriesAppend.cpp:245-258 | no step but a crash moves a commit index back or changes a committed entry, so truncation never cuts below it |
| Safety.RunHolds | RAFT/include/Raft.h:143-158 | the inductive invariant holds in every state of every run |
| Safety.StepKeeps | RAFT/include/Raft.h:101-134 | each of the twelve kinds of step keeps the invariant |
| Safety.StepsInRange | RAFT/src/logEntriesAppend.cpp:122-125 | in a state that satisfies the invariant an enabled step's positions are in range |
| Safety.RunGrows | RAFT/include/Raft.h:143-147 | between two moments of a run no recorded election, vote or acceptance is withdrawn |
| Records.TermsAreStood | RAFT/src/leaderElection.cpp:120-175 | in every reachable state a node's term, and every term an answer names, is 0 or one that some node has stood in |
| Records.VoteTerms | RAFT/src/leaderElection.cpp:143-160 | a vote request leaves the voter in the larger of the two terms and is answered with the term it had |
| Records.AppendTerms | RAFT/src/logEntriesAppend.cpp:161-187 | the same for an append request |
| Records.ReplyTerms | RAFT/src/logEntriesAppend.cpp:103-112 | handling an append reply leaves the leader in the larger of its own and the reply's term |
| Records.ReplySaves | RAFT/src/logEntriesAppend.cpp:103-157 | whatever an append reply says, the file holds the node's term, vote and log afterwards |
| Records.CrashKeepsCommitted | RAFT/src/logEntriesAppend.cpp:121-157 | in every reachable state what a node has committed is in its own file, so a restarted node still has it |
| HistoryGrowth.LeaderCompleteness | RAFT/src/logEntriesAppend.cpp:124-127 | a committed position of one term's leader lies in the initial log of every later term's leader, by induction over terms |
| HistoryGrowth.VoterRemembers | RAFT/src/leaderElection.cpp:155-173 | a voter that had accepted a committed prefix still held it when it cast its vote |
| ElectionSteps.TermIsFree | RAFT/src/leaderElection.cpp:67-73 | a candidate that can win does so in a term nobody has won, because the two majorities would share a voter |
| ReplicationSteps.AppendEffect | RAFT/src/logEntriesAppend.cpp:161-264 | an append is accepted iff it is not stale and the log is consistent with it; then the log is cut and extended; otherwise log and commit index are untouched and the conflict fields point below the rejected position |
| ReplicationSteps.AcceptedIsSnapshot | RAFT/src/logEntriesAppend.cpp:245-253 | after an accepted append the follower holds the leader's log as sent |
| ReplicationSteps.AcceptKeepsCommitted | RAFT/src/logEntriesAppend.cpp:246-258 | the follower's committed prefix survives the cut |
| ReplicationSteps.AcceptRemembers | RAFT/src/logEntriesAppend.cpp:245-254 | everything the follower ever accepted is still in its file or was overwritten by a leader of a later term that lacks it |
| ReplicationSteps.MatchedIsConsistent | RAFT/src/logEntriesAppend.cpp:114-118 | a follower the leader has a match with never rejects it |
| ReplicationSteps.BackUpDecreases | RAFT/src/logEntriesAppend.cpp:131-155 | a rejection strictly lowers nextIndex and keeps it at least 1 |
| ReplicationSteps.FirstOfTermIsFirst | RAFT/src/logEntriesAppend.cpp:234-239 | the follower's search finds the first entry of the conflicting term |
| ReplicationSteps.LastOfTermIsLast | RAFT/src/logEntriesAppend.cpp:139-145 | the leader's search finds the last entry of the conflicting term |
| ReplicationSteps.MatchWithinLog | RAFT/src/logEntriesAppend.cpp:122-125 | the median of matchIndex lies within the leader's log and, if positive, at least half of the cluster has accepted that far |
| CatchUp.CatchUpConverges | RAFT/src/logEntriesAppend.cpp:51-159 | repeated rounds between a leader and a follower end with the follower holding the leader's log and the leader knowing it |
| CatchUp.RejectionBound | RAFT/src/logEntriesAppend.cpp:131-155 | catch-up takes at most one short-log rejection and one for each distinct term in the follower's log |
| CatchUp.NeverOvershoots | RAFT/src/logEntriesAppend.cpp:138-153 | after any rejection nextIndex is still beyond the longest common prefix of the two logs |
| CatchUp.RejectedRound | RAFT/src/logEntriesAppend.cpp:219-243 | a rejected round changes neither log, lowers nextIndex, and backs up behind the leader's last or the follower's first entry of the conflicting term |
| CatchUp.AcceptedRound | RAFT/src/logEntriesAppend.cpp:115-118 | an accepted round leaves the follower with the leader's log, nextIndex one beyond it and matchIndex at its end |
| CatchUp.FirstContactIff | RAFT/src/leaderElection.cpp:70-73 | a new leader's first request carries no entries and is accepted iff the leader's whole log is a prefix of the follower's |
| Progress.PairHolds | RAFT/src/leaderElection.cpp:67-73 | in every state with the invariant a leader and a follower not ahead of it meet what the catch-up results ask for |
| Progress.RoundInRun | RAFT/src/logEntriesAppend.cpp:51-159 | a catch-up round is a send, its delivery and the handling of its reply in the cluster, with no other node changed |
| Progress.RunCatchesUp | RAFT/src/logEntriesAppend.cpp:51-264 | every run with an idle leader and follower can go on, in three steps per rejection and three for the acceptance, until the follower holds the leader's log and has committed what the leader had |
| Progress.RejectionsInRun | RAFT/src/logEntriesAppend.cpp:131-155 | the number of those rejections is at most one plus the distinct terms of the follower's log |
| Availability.OneIsUpToDate | RAFT/src/raft.cpp:102-118 | of any two logs one is up to date for the other, and both are iff they have the same length and last term |
| Availability.NoOlderTrans | RAFT/src/raft.cpp:102-118 | the up-to-date test is transitive, so every group of nodes has one that all of them would vote for |
| Availability.Elects | RAFT/src/leaderElection.cpp:28-77 | a majority that includes a node with its highest term and no older log can elect that node in the next term, with the other nodes silent |
| Availability.MajorityElects | RAFT/src/leaderElection.cpp:17-175 | from every reachable state any majority of the nodes can come to have a leader none of them is ahead of, with every node waiting as electionLoop does or restarted if it hangs there, no log changed and the other nodes silent |
| Commitment.LeaderCommits | RAFT/src/logEntriesAppend.cpp:115-129 | a leader with half of the cluster, rounded up, besides itself, none of it ahead, and a last entry of its own term can have its log taken, committed and applied by all of this group, with the others silent |
| Commitment.AnyStateCommits | RAFT/src/raft.cpp:157-176 | from every reachable state any half of the cluster, rounded up, and one node more can elect one of them, append a command to its log, and commit and apply that log everywhere in the group |
| Commitment.CommandCommits | RAFT/src/raft.cpp:157-176 | from the initial state of two or more nodes node 0 can be elected in term 1, take a command, and have it committed and applied by every node |
| Commitment.CommitIsDurable | RAFT/src/logEntriesAppend.cpp:121-128 | at every later moment of the run, what a node has committed is in the files of half of the cluster, rounded up, not counting the node that led it |
| Commitment.CommitsAloneIff | RAFT/src/logEntriesAppend.cpp:121-128 | a group can commit from the initial state, with the other nodes as they started, iff it is half of the cluster, rounded up, and one node more |
| Commitment.CommitsIff | RAFT/src/logEntriesAppend.cpp:121-128 | a cluster can commit something iff it has at least two nodes |
| Quorum.MedianIsQuorum | RAFT/src/logEntriesAppend.cpp:121-128 | the element at n/2 of the sorted list reaches x iff at least n - n/2 peers do |
| Quorum.CommitQuorumExcludesLeader | RAFT/src/logEntriesAppend.cpp:121-128 | with the leader's slot at 0 a positive median is reached by half of the cluster without the leader |
| Quorum.QuorumsMeet | RAFT/src/leaderElection.cpp:67-68 | two sets of nodes that together outnumber the cluster share a node |
| Quorum.SortSorts | RAFT/src/logEntriesAppend.cpp:122-123 | the sorted copy is ascending and a permutation |
| PeerCursor.RoundIsFair | RAFT/src/leaderElection.cpp:101-114 | from every reachable cursor n - 1 calls target every other peer exactly once, never the node itself, and bring the cursor back |
| PeerCursor.ReachableIsRegular | RAFT/src/logEntriesAppend.cpp:93-96 | the cursor values reachable from 0 are exactly those an arithmetic test describes |
| PeerCursor.RoundReturnsIff | RAFT/src/leaderElection.cpp:111-114 | a round brings the cursor back iff it was a reachable value |
| PeerCursor.TargetsDistinctIff | RAFT/src/leaderElection.cpp:43-56 | k calls target k different peers iff k <= n - 1, so one call too many asks a peer twice (G9) |
| Votes.CountIsVotersIff | RAFT/src/leaderElection.cpp:120-139 | after any series of answers the count is at least the number of voters, and equal to it iff every granted answer is of the current election and no voter said yes twice (G1, G9) |
| Votes.GuardedCountIsVotersIff | RAFT/src/leaderElection.cpp:136-138 | with the guard on late answers the count is exact iff no voter said yes twice |
| Votes.ElectionEndsIff | RAFT/src/leaderElection.cpp:58-61 | whatever the answers say, the wait ends with the last of the n - 1 answers, and before that iff the votes are a majority |
| Votes.ElectionWonIff | RAFT/src/leaderElection.cpp:62-69 | the candidate takes office iff its votes are a majority and no answer named a higher term, although the code reloads its old term |
| Votes.HigherTermLoses | RAFT/src/leaderElection.cpp:125-133 | in any state, an answer that names a higher term than the node's at that moment keeps it from office, whatever came before and comes after |
| Unguarded.TwoLeadersInOneTerm | RAFT/src/leaderElection.cpp:58-69 | a run of three nodes that count late votes, each standing again only after a majority or all answers, reaches two leaders of one term (G1) |
| Guards.LateVoteElects | RAFT/src/leaderElection.cpp:95-99 | a vote of an earlier election makes a candidate win one it did not win (G1) |
| Guards.AtomicVotesAgree | RAFT/src/leaderElection.cpp:143-175 | over any series of vote requests handled as single steps, those granted in one term name one candidate (G2) |
| Guards.ResumedVoteIff | RAFT/src/leaderElection.cpp:162-168 | giving the vote after the lock was released is what handling the request then would do iff the node is still in its term, free to vote so, and not ahead of it in log (G2) |
| Guards.TimerVotesTwice | RAFT/src/leaderElection.cpp:28-39 | if the election timer fires in between, the node votes in one term for itself and for the old candidate, and grants that candidate again (G2) |
| Guards.ReloadKeepsIff | RAFT/src/leaderElection.cpp:125-133 | after a higher vote reply the term is the reply's iff the file already had it, and the log is unchanged iff the file's is empty (G3) |
| Guards.StepDownNeverSticks | RAFT/src/leaderElection.cpp:125-133 | a node whose file is current falls back to its old term; the guarded form keeps the new one (G3) |
| Guards.AppendSavesIff | RAFT/src/logEntriesAppend.cpp:180-187 | appendEntries leaves term and vote on disk iff it adopts no new term, or its log is empty, or the request is consistent with it (G4) |
| Guards.VoteSavesIff | RAFT/src/leaderElection.cpp:155-165 | requestVote leaves term and vote on disk iff it adopts no new term or the candidate is up to date (G4) |
| Guards.VoteFileIff | RAFT/src/leaderElection.cpp:155-174 | after a vote request the file is current iff the vote was given, or refused for an earlier one in the same term, or it was current and the term stays |
| Guards.VotesTwiceAfterCrash | RAFT/src/logEntriesAppend.cpp:182-187 | a node that voted in term 2 and then rejects an append of term 3 can vote for another candidate of term 2 after a crash (G4) |
| Guards.VoteHandlersAgreeIff | RAFT/src/leaderElection.cpp:143-175 | on a node whose file is current the code and the guarded vote handler agree iff no new term is adopted for a candidate whose log is behind |
| Guards.AppendHandlersAgreeIff | RAFT/src/logEntriesAppend.cpp:161-264 | and the append handlers iff the request hits no empty log behind its end and no new term comes with an inconsistent request |
| Guards.NegativeIsBeyond | RAFT/src/logEntriesAppend.cpp:218-227 | a negative previous position is answered like one beyond the log, as the unsigned comparison has it |
| Guards.PrevTermMattersIff | RAFT/src/logEntriesAppend.cpp:228-243 | the term named for the previous position changes nothing iff the request is stale or the position is not in the follower's log |
| Guards.AcceptedLogIff | RAFT/src/logEntriesAppend.cpp:197-216 | a successful append leaves the leader's log as sent iff it did not hit an empty log behind its end (G5) |
| Guards.EmptyLogBreaksMatching | RAFT/src/logEntriesAppend.cpp:197-200 | an empty log takes entries 2 and 3 as entries 1 and 2, and two logs then have the same term at a position but different entries (G5) |
| Guards.NextRequestIff | RAFT/src/logEntriesAppend.cpp:138-153 | after a rejection the next request can be built iff the reply names a position of the log, or a term the leader finds before the rejected position (G6) |
| Guards.StaleRefusalBreaks | RAFT/src/logEntriesAppend.cpp:174-178 | the refusal of a stale request, if it is handled, drives nextIndex to 0 (G6) |
| Guards.SecondAnswerIff | RAFT/src/logEntriesAppend.cpp:115-118 | an answer handled twice leaves nextIndex in range iff the request carried no entries (G6) |
| Guards.LaterAppendKeepsIff | RAFT/src/logEntriesAppend.cpp:245-253 | of two requests cut from one leader's log, the later handled one leaves the first one's matchIndex sound iff it does not end before it (G6) |
| Overwrite.SaveReadsAs | RAFT/src/statePersistence.cpp:31-40 | over a file of any text, a save of a storable state reads back as that state with the entries behind its log that the old characters spell, up to their next field (G7) |
| Overwrite.SaveReadsBackIff | RAFT/src/statePersistence.cpp:31-40 | over a file of any text, a save of a storable state reads back as saved iff those characters end no entry (G7) |
| Overwrite.SaveOverStateIff | RAFT/src/statePersistence.cpp:31-40 | over the file of one older storable state that is so iff at most the last separator of the old log shows behind the new text, or the rest of the old header keeps the old log apart (G7) |
| Overwrite.ThirdSaveInvents | RAFT/src/statePersistence.cpp:31-40 | three saves, the last of which would be harmless over the second alone, read back with an entry nobody wrote (G7) |
| Overwrite.CutSaveIsLost | RAFT/src/statePersistence.cpp:31-40 | saving a cut log under the same term and vote leaves the old state in the file (G7) |
| Guards.SenderLogIsTaken | RAFT/src/logEntriesAppend.cpp:56-97 | a consistent follower takes the log of whoever built the request, and loses nothing iff its own log was a prefix of it (G8) |
| Guards.DemotedRequestErases | RAFT/src/logEntriesAppend.cpp:56-97 | a former leader that sends under the term it just adopted makes a follower give up an entry of that term's leader (G8) |
| Guards.GrantedAgain | RAFT/src/leaderElection.cpp:162-172 | a voter asked again says yes again (G9) |
| Guards.OnePeerElects | RAFT/src/leaderElection.cpp:67-68 | in a cluster of five two answers of one peer elect a candidate (G9) |
| Guards.CutRequestIff | RAFT/src/logEntriesAppend.cpp:115-118 | of a request that arrives cut, the matchIndex the leader records is what the follower holds iff nothing was cut (G10) |
| Request.LongRequestIff | RAFT/buttonrpc_edit/Serializer.hpp:163-178 | the matchIndex an accepted request earns is what the follower holds iff its log text is shorter than 65536 bytes (G10) |
| Request.LongCommandCommitsAlone | RAFT/src/logEntriesAppend.cpp:115-128 | a leader of two nodes whose entry has a longer text commits it although the follower holds nothing (G10) |
| RaftNode.Node.constructor | RAFT/src/raft.cpp:3-32 | a new node is in the state its file describes, or fresh without one |
| RaftNode.Node.SaveRaftState | RAFT/src/statePersistence.cpp:3-8 | the file then reads back as exactly the node's term, vote and log, if its commands can be stored (with guard G7) |
| RaftNode.Node.SaveInPlace | RAFT/src/statePersistence.cpp:23-40 | the save as the code does it: the old text keeps what the new one does not cover, and the file reads as the node's state with the entries those characters spell |
| RaftNode.Node.Serialize | RAFT/src/statePersistence.cpp:23-29 | the loop's text is the printed state |
| RaftNode.Node.ReadRaftState | RAFT/src/statePersistence.cpp:10-21 | takes term and vote from the file and pushes its log behind what the node holds; nothing without a file |
| RaftNode.Node.PickPeer | RAFT/src/leaderElection.cpp:101-114 | the chosen peer and the moved cursor are those of the cursor model |
| RaftNode.Node.StartElection | RAFT/src/leaderElection.cpp:28-43 | the new state, file included, is the started election's |
| RaftNode.Node.BuildVoteArgs | RAFT/src/leaderElection.cpp:94-99 | the request carries term, id and the end of the log |
| RaftNode.Node.BecomeLeader | RAFT/src/leaderElection.cpp:67-73 | every nextIndex is one beyond the log and every matchIndex 0 |
| RaftNode.Node.CheckLogUptodate | RAFT/src/raft.cpp:102-118 | the three returns are the up-to-date test of section 5.4.1 |
| RaftNode.Node.RequestVote | RAFT/src/leaderElection.cpp:143-175 | state, file and reply are those of the vote rule, with the code's early return unsaved |
| RaftNode.Node.HandleVoteReply | RAFT/src/leaderElection.cpp:120-139 | counts the vote, or on a higher term reloads the file, or keeps the adopted term without a file |
| RaftNode.Node.Start | RAFT/src/raft.cpp:157-176 | a leader appends any command under its term and returns its position; another node changes nothing |
| RaftNode.CommandParts | RAFT/src/raft.cpp:124-127 | a command text, cut at its first two blanks, gives operation, key and value back iff operation and key have no blank |
| RaftNode.Node.BuildAppend | RAFT/src/logEntriesAppend.cpp:65-88 | the request, its text parsed back, is the leader's log from nextIndex on with the previous position's term |
| RaftNode.Node.Truncate | RAFT/src/logEntriesAppend.cpp:246-249 | popping leaves exactly the first prev entries |
| RaftNode.Node.AppendEntries | RAFT/src/logEntriesAppend.cpp:161-264 | state, file and reply are those of the append rule applied to the parsed request, negative previous positions included; the file reads back if the entries can be stored |
| RaftNode.Node.FirstOfTerm | RAFT/src/logEntriesAppend.cpp:233-239 | the search loop returns the first position of the term |
| RaftNode.Node.LastOfTerm | RAFT/src/logEntriesAppend.cpp:139-145 | the downward loop returns the last position of the term, or none |
| RaftNode.Node.AdvanceCommit | RAFT/src/logEntriesAppend.cpp:121-128 | the commit index moves to the median iff it is ahead and of the current term |
| RaftNode.Node.HandleAppendReply | RAFT/src/logEntriesAppend.cpp:102-157 | progress, commit index, back-up, step-down and save follow the reply rule |
| RaftNode.Node.ApplyLog | RAFT/src/raft.cpp:52-69 | lastApplied becomes the commit index and nothing else changes |
| RaftNode.SplitText | RAFT/src/raft.cpp:133-141 | the splitting loop returns the non-empty terminated pieces and what is left over |
| RaftNode.GetCmdAndTerm | RAFT/src/raft.cpp:129-155 | the two loops return the parsed entries of the wire text |
| RaftNode.PrintFrom | RAFT/src/logEntriesAppend.cpp:74-78 | the printing loop returns the text of the log from a position on |
| RaftNode.Deserialize | RAFT/src/statePersistence.cpp:72-120 | the loops return the state the file text describes |
| LogText.WireRoundTrip | RAFT/src/raft.cpp:129-155 | the wire format gives a log back iff no command contains a comma or a semicolon |
| LogText.PersistenceRoundTrip | RAFT/src/statePersistence.cpp:23-29 | a saved state, with any term, vote and log, reads back iff its commands avoid the four special characters |
| LogText.LogRoundTrip | RAFT/src/logEntriesAppend.cpp:74-78 | parsing the printed log returns it, entry for entry, for either separator |
| Text.AtoiToString | RAFT/src/raft.cpp:150-151 | parsing a printed number returns it, negative ones included |
| Text.AtoiIgnores | RAFT/src/raft.cpp:150-151 | blanks and a plus sign before a printed number and anything behind it that is no digit are ignored |
| Text.DigitsIff | RAFT/src/statePersistence.cpp:25-28 | a number is printed with at most k digits iff it is below the k-th power of ten |
| Text.SplitJoin | RAFT/src/raft.cpp:134-141 | splitting what was joined gives the pieces and the unterminated tail |
| Request.SendRequest | RAFT/include/Raft.h:69-76 | of a leader's request the follower gets the first entries, and fewer than were sent iff the log text has 65536 bytes or more |
| Serializer.MemoryRoundTrip | RAFT/buttonrpc_edit/Serializer.hpp:122-134 | a fixed-width value is the value of its bytes |
| Serializer.ByteAt | RAFT/buttonrpc_edit/Serializer.hpp:151-161 | the byte of weight 256 to the k-th stands at position k of a little-endian stream and k from the end of a big-endian one |
| Serializer.Stream.WriteFixed | RAFT/buttonrpc_edit/Serializer.hpp:151-161 | appends one value to the queue of unread ones |
| Serializer.Stream.WriteText | RAFT/buttonrpc_edit/Serializer.hpp:163-178 | appends the mark and as many characters as the reordered mark says, past the string if that is longer; a framed string joins the queue |
| Serializer.Stream.ReadFixed | RAFT/buttonrpc_edit/Serializer.hpp:122-134 | returns the first unread value; at the end of the stream the target keeps its value |
| Serializer.Stream.ReadText | RAFT/buttonrpc_edit/Serializer.hpp:136-149 | returns the first unread string in front of what the target held |
| Serializer.WriteThenRead | RAFT/buttonrpc_edit/Serializer.hpp:122-178 | any sequence of values whose strings are framed comes back in order with the cursor at the end, and unchanged iff every string is shorter than 65536 bytes |
| Serializer.FramedIff | RAFT/buttonrpc_edit/Serializer.hpp:167-176 | a string write copies as many characters as it announces iff the stream is little-endian or the two bytes of the length are equal |
| Serializer.TextSurvivesIff | RAFT/buttonrpc_edit/Serializer.hpp:163-178 | a string comes back whole with the reader at its end iff it is short and framed |
| Serializer.OneLetterCopies256 | RAFT/buttonrpc_edit/Serializer.hpp:169-176 | a one-letter string on a big-endian stream copies 256 characters |
| Serializer.SendArgs | RAFT/include/Raft.h:61-77 | an append request arrives as sent iff its log text is shorter than 65536 bytes; the other fields always do |
| Tokens.SplitWords | mapreduce/map_reduceFun.cpp:39-52 | the loop returns the words of the text |
| Tokens.WordsAreMaximalRuns | mapreduce/map_reduceFun.cpp:39-52 | the tokenizer yields each word exactly as often as it stands in the text as a maximal run of letters |
| Tokens.InWordIff | mapreduce/map_reduceFun.cpp:39-52 | a character of the text is in some word iff its code is that of an ASCII letter |
| WordCount.MapF | mapreduce/map_reduceFun.cpp:60-73 | one pair with value 1 for each word, in order |
| WordCount.IHash | mapreduce/worker.cpp:54-60 | the loop computes the hash with the remainder of C++ |
| WordCount.SumOfParts | mapreduce/worker.cpp:54-60 | the sum behind the hash adds up over the parts of a word, each character counting its distance from '0' |
| WordCount.SameLettersSameReducer | mapreduce/worker.cpp:54-60 | words of the same letters in any order have the same reducer |
| WordCount.HashInRangeIff | mapreduce/worker.cpp:54-60 | a word has an existing reducer iff its character sum is not negative or divisible by the number of reducers; every letter word has one |
| WordCount.PunctuationHasNoReducer | mapreduce/worker.cpp:54-60 | "!" is hashed to -6 with nine reducers |
| WordCount.Directory.WriteInDisk | mapreduce/worker.cpp:105-119 | the files after the loop are the old ones with each pair appended to the file of its task and reducer |
| WordCount.SelectsOwn | mapreduce/worker.cpp:149-172 | among intermediate files a reducer selects a file iff it carries its own number |
| WordCount.SelectedIff | mapreduce/worker.cpp:149-172 | a reducer takes a name iff it is "mr", two or more characters, a dash and the reducer's number |
| WordCount.SelectedNamesHolds | mapreduce/worker.cpp:158-169 | the listing loop keeps exactly the names that pass the test, each once |
| WordCount.Directory.Gather | mapreduce/worker.cpp:183-201 | the reading loops add up the pairs of all lines of all files |
| WordCount.LinesJoin | mapreduce/worker.cpp:189-191 | the lines of a file are its text cut at the newlines, the last of which may be missing |
| WordCount.PairAddsValue | mapreduce/worker.cpp:193-197 | a pair adds its value to its key and changes no other count; a text without a comma is key and value at once |
| WordCountProof.ContentIs | mapreduce/worker.cpp:94-119 | after any series of writes a file holds the pairs of exactly its own words in writing order |
| WordCountProof.FileRoundTrip | mapreduce/worker.cpp:190-199 | reading a file of printed pairs gives the pairs back |
| WordCountProof.CountsAdd | mapreduce/worker.cpp:194-198 | adding up printed pairs counts each word's occurrences |
| WordCountProof.AllWordsTotal | mapreduce/map_reduceFun.cpp:39-73 | the words of all inputs are their maximal letter runs, with multiplicity |
| WordCountProof.ReducerCounts | mapreduce/worker.cpp:176-217 | a reducer counts every word hashed to it as often as it was written, and nothing else |
| WordCountProof.OneReducerPerWord | mapreduce/worker.cpp:54-60 | every word of the inputs is hashed to one existing reducer |
| MapPhase.RunMaps | mapreduce/worker.cpp:105-119 | the writes of any workers, interleaved, cut short and repeated in any way, leave the files that the written words, appended in turn, make up |
| MapPhase.PhaseCounts | mapreduce/worker.cpp:261-269 | a word has been written as often as the words written for each input contain it, summed over the inputs |
| MapPhase.CountsExactIff | mapreduce/master.cpp:105-117 | once some worker has completed every input, the words of a reducer are on disk as often as they occur iff for no input more of its words are on disk than the input has |
| MapPhase.LateWorkerOvercounts | mapreduce/worker.cpp:105-119 | whatever words of a reducer a slow worker adds after its input was completed by another make that false |
| Reduce.Shuffle | mapreduce/worker.cpp:176-217 | returns the counted words in ascending order, each once, with its printed count |
| Reduce.LessIff | mapreduce/worker.cpp:212-215 | one key comes before another iff it is a proper prefix of it or has the smaller character where they first differ |
| Reduce.ReduceF | mapreduce/map_reduceFun.cpp:80-90 | for any printed numbers, lists every key once, ascending, with the sum of its values |
| Reduce.AddUp | mapreduce/map_reduceFun.cpp:81-84 | the loop's map has each key once with the sum of its values, in whatever order and however often it comes |
| Reduce.RunReducer | mapreduce/worker.cpp:176-217 | a reducer's lines are the words hashed to it, ascending, each with the number of times the map phase wrote it |
| WordCountJob.ReportIsSequentialIff | mapreduce/map_reduceFun.cpp:80-90 | a reducer's lines are the sequential report iff, when it read, no input had more of the reducer's words on disk than it has |
| WordCountJob.OutputIsSequentialIff | mapreduce/worker.cpp:328-331 | a reducer's output file, after any number of runs, is the sequential report iff it has no words, or it ran once and then read no word too many |
| WordCountJob.JobIsSequentialIff | mapreduce/worker.cpp:384-394 | all output files together are the sequential word count iff that holds for every reducer |
| WordCountJob.CountWords | mapreduce/worker.cpp:229-340 | map writes and reducer runs, in any order in which reducers start after every input was completed, leave output files that are the sequential word count iff every reducer that has words ran once and read no word too many |
| Scheduler.BoardStep | mapreduce/master.cpp:83-130 | every assignment, time-out and report, in any order, keeps the board's invariant, and the time-out index is in range |
| Scheduler.TasksConserved | mapreduce/master.cpp:97-130 | in every run each unfinished task is queued, in hand or under a live timer exactly once, finished ones at most once, live timers are the running list beyond the index, and queue, hand and running list together are the tasks plus the re-queues |
| Scheduler.DoneIsExact | mapreduce/master.cpp:182-190 | the size test holds iff every task has been reported |
| Scheduler.DoneNeedsDistinct | mapreduce/master.cpp:182-190 | once all tasks are reported the size test passes iff their names are distinct |
| Scheduler.TimedOutIsNext | mapreduce/master.cpp:83-120 | a task that timed out unfinished is the next to be handed out |
| Scheduler.NeverStuck | mapreduce/master.cpp:83-95 | while a phase is not done some task can still be handed out or time out |
| Scheduler.JobHolds | mapreduce/worker.cpp:384-394 | both boards keep their invariants over every run of the job |
| Scheduler.ReduceAfterMaps | mapreduce/worker.cpp:231-236 | once a reduce task is handed out every map task has been reported; the job is done iff every reduce index has been |
| Master.NewMaster | mapreduce/master.cpp:59-73 | no master unless both numbers are positive; otherwise an empty map board and all reduce indices |
| Master.Master.GetAllFile | mapreduce/master.cpp:75-80 | the map board starts with the given names |
| Master.Master.AssignTask | mapreduce/master.cpp:83-130 | answers the last queued name, takes exactly that one off the queue and enters it as running under a new timer, so over all calls the names answered are the running list; with nothing queued or everything reported, "empty" and no change |
| Master.Master.MapTimeout | mapreduce/master.cpp:105-120 | an expired timer puts an unfinished task back and moves the index |
| Master.Master.SetMapStat | mapreduce/master.cpp:174-180 | records the report |
| Master.Master.IsMapDone | mapreduce/master.cpp:182-190 | returns the size test |
| Master.Master.AssignReduceTask | mapreduce/master.cpp:192-203 | the same for reduce indices, with -1 for none |
| Master.Master.ReduceTimeout | mapreduce/master.cpp:149-162 | the same for reduce timers |
| Master.Master.SetReduceStat | mapreduce/master.cpp:206-212 | records the report |
| Master.Master.Done | mapreduce/master.cpp:214-219 | returns the size test of the reduce board |

## Left out

- The network: ZeroMQ sockets, `buttonrpc` and its templates; an RPC is a request message and a reply message, and a
  lost one is a step.
- Threads, locks, condition variables, sleeps and clocks: each lock-protected stretch is one step (G2 joins two), and
  time-outs can happen at any moment; no real-time liveness is claimed.
- Fairness: `Progress`, `Availability` and `Commitment` say that runs can go on until a follower has caught up, a leader
  is elected and a command is applied, not that they must.
- Machine-integer overflow of terms, indices and counts; only the 16-bit string length is modelled.
- File descriptors, directory scanning and `dlopen`: a file is a text and a directory a map from name to text. Reading a
  buffer beyond its end (a file without a NUL, an entry without a comma) is not modelled; such an entry reads as
  an empty number.
- A persister file with fewer than three fields: the code reads fields that are not there; `LogText.ParseState` returns
  `None`, and the node's methods ask that this does not happen.
- `RAFT/raft_origin.cpp`, which is `RAFT/src` in one file.
- The programs' `main` functions, the deliberate worker failures, `removeFiles` and `removeOutputFiles`;
  `WordCountProof.CleanDirectory` states what `removeFiles` is for, and the job starts with empty outputs. An output file
  is its list of lines.
- Applying committed commands: the loop of `applyLogLoop` has an empty body, so only the index is modelled.
- The master's file count before `GetAllFile`, which the code leaves unset; the model starts it at 0.
- The misspelt unlock in the reduce time-out (`mapreduce/master.cpp:157`) is read as an unlock.
- In `Cluster` a node may stand again at any moment, so the theorems about all runs cover more runs than the code has;
  the wait of `electionLoop` is respected where an election is constructed (`Unguarded`, `Availability`).
- RaftNode.Node.SaveRaftState: does not model the missing truncation of the file (G7), which `RaftNode.Node.SaveInPlace`
  does, and promises what the file reads as only for commands it can hold, as `LogText.PersistenceRoundTrip` requires.
- Serializer.WriteThenRead: asks that strings on a big-endian stream are framed; what an unframed one does to the values
  behind it depends on the memory behind the string.
- WordCountJob.CountWords: takes a reducer's reading of the files, and the writing of its lines, as one step; a worker
  that writes between two of the files a reducer reads is not modelled.
