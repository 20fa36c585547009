/** One Raft node as the object the code makes it: fields assigned in place, logs
    pushed and popped entry by entry, texts scanned with cursors. Every method is
    proved to do to the fields what its function in RaftHandlers says, with the wire
    and file texts read back into the values those functions work on. */
module RaftNode {
  import opened RaftTypes
  import opened LogText
  import opened Overwrite
  import opened Text
  import H = RaftHandlers
  import Quorum
  import PeerCursor

  datatype Operation = Operation(op: string, key: string, value: string)

  /** getCmd. */
  function Command(o: Operation): string {
    o.op + " " + o.key + " " + o.value
  }

  /** A command gives back its operation, key and value exactly when it is cut at its first
      two blanks and neither operation nor key has one. */
  lemma CommandParts(o: Operation)
    ensures var rest := After(Command(o), ' ');
      (Before(Command(o), ' ') == o.op && Before(rest, ' ') == o.key && After(rest, ' ') == o.value) <==>
        ' ' !in o.op && ' ' !in o.key
  {
    var behind := o.key + [' '] + o.value;
    assert Command(o) == o.op + [' '] + behind;
    BeforeClean(Command(o), ' ');
    BeforeClean(After(Command(o), ' '), ' ');
    if ' ' !in o.op {
      CutAt(o.op, ' ', behind);
      if ' ' !in o.key { CutAt(o.key, ' ', o.value); }
    }
  }

  datatype StartRet = StartRet(index: int, term: int, isLeader: bool)

  /** AppendEntriesArgs as it travels, with the entries as text. */
  datatype WireArgs = WireArgs(
    term: int, leaderId: int, prevLogIndex: int, prevLogTerm: int, leaderCommit: int, sendLogs: string)

  function Decode(a: WireArgs): AppendArgs {
    AppendArgs(a.term, a.leaderId, a.prevLogIndex, a.prevLogTerm, a.leaderCommit, ParseLog(a.sendLogs, WIRE))
  }

  // ----- scanning text -----

  /** The splitting loop of getCmdAndTerm and deserialize, with what it leaves over. */
  method SplitText(text: string, sep: char) returns (pieces: seq<string>, rest: string)
    ensures pieces == Split([], text, sep) && rest == Rest([], text, sep)
  {
    pieces, rest := [], [];
    for i := 0 to |text|
      invariant pieces + Split(rest, text[i..], sep) == Split([], text, sep)
      invariant Rest(rest, text[i..], sep) == Rest([], text, sep)
    {
      assert text[i..][1..] == text[i + 1..];
      if text[i] != sep {
        rest := rest + [text[i]];
      } else {
        if |rest| != 0 { pieces := pieces + [rest]; }
        rest := [];
      }
    }
    assert text[|text|..] == [];
  }

  /** The loop that cuts one entry at its first comma. */
  method ScanEntry(entry: string) returns (e: LogEntry)
    ensures e == ParseEntry(entry)
  {
    var command, j := [], 0;
    while j < |entry| && entry[j] != ','
      invariant 0 <= j <= |entry|
      invariant command + Before(entry[j..], ',') == Before(entry, ',')
      invariant After(entry[j..], ',') == After(entry, ',')
    {
      assert entry[j..][1..] == entry[j + 1..];
      command := command + [entry[j]];
      j := j + 1;
    }
    assert j < |entry| ==> entry[j..][1..] == entry[j + 1..];
    e := LogEntry(command, Atoi(if j < |entry| then entry[j + 1..] else []));
  }

  method ScanEntries(pieces: seq<string>) returns (log: Log)
    ensures log == ParseAll(pieces)
  {
    log := [];
    for i := 0 to |pieces|
      invariant log == ParseAll(pieces[..i])
    {
      var e := ScanEntry(pieces[i]);
      log := log + [e];
      assert pieces[..i + 1] == pieces[..i] + [pieces[i]];
    }
    assert pieces[..|pieces|] == pieces;
  }

  /** getCmdAndTerm. */
  method GetCmdAndTerm(text: string) returns (log: Log)
    ensures log == ParseLog(text, WIRE)
  {
    var pieces, _ := SplitText(text, WIRE);
    log := ScanEntries(pieces);
  }

  lemma PrintOneMore(log: Log, k: int, i: int, sep: char)
    requires 0 <= k <= i < |log|
    ensures PrintLog(log[k..i + 1], sep) == PrintLog(log[k..i], sep) + (PrintEntry(log[i]) + [sep])
  {
    assert log[k..i + 1] == log[k..i] + [log[i]];
    assert PrintAll(log[k..i + 1]) == PrintAll(log[k..i]) + [PrintEntry(log[i])];
    JoinAppend(PrintAll(log[k..i]), [PrintEntry(log[i])], sep);
    assert Join([PrintEntry(log[i])], sep) == PrintEntry(log[i]) + [sep] + [];
  }

  /** The printing loop of sendAppendEntries and serialize. */
  method PrintFrom(log: Log, start: int, sep: char) returns (text: string)
    requires 0 <= start <= |log|
    ensures text == PrintLog(log[start..], sep)
  {
    text := [];
    for i := start to |log|
      invariant text == PrintLog(log[start..i], sep)
    {
      PrintOneMore(log, start, i, sep);
      text := text + (PrintEntry(log[i]) + [sep]);
    }
    assert log[start..|log|] == log[start..];
  }

  /** deserialize. */
  method Deserialize(file: string) returns (p: Option<Persisted>)
    ensures p == ParseState(file)
  {
    var fields, rest := SplitText(Visible(file), ';');
    fields := fields + [rest];
    if |fields| < 3 { return None; }
    var pieces, _ := SplitText(fields[2], FILE);
    var log := ScanEntries(pieces);
    p := Some(Persisted(Atoi(fields[0]), Atoi(fields[1]), log));
  }

  lemma WithoutSuffix(log: Log, k: int, c: char)
    requires Without(log, c) && 0 <= k <= |log|
    ensures Without(log[k..], c)
  {
    forall i | 0 <= i < |log[k..]| ensures c !in log[k..][i].command { assert log[k..][i] == log[k + i]; }
  }

  lemma SentLog(log: Log, k: int)
    requires Storable(log) && 0 <= k <= |log|
    ensures ParseLog(PrintLog(log[k..], WIRE), WIRE) == log[k..]
  {
    WithoutSuffix(log, k, ',');
    WithoutSuffix(log, k, WIRE);
    LogRoundTrip(log[k..], WIRE);
  }

  lemma BuiltRequest(s: NodeState, self: int, peer: int, prev: int, prevTerm: int)
    requires H.CanBuildAppend(s, peer) && prev == s.nextIndex[peer] - 1
    requires prevTerm == if prev == 0 then (if |s.log| != 0 then s.log[0].term else 0) else s.log[prev - 1].term
    ensures H.BuildAppend(s, self, peer) == AppendArgs(s.term, self, prev, prevTerm, s.commitIndex, s.log[prev..])
  {}

  lemma StorableAppend(a: Log, b: Log)
    ensures Storable(a + b) <==> Storable(a) && Storable(b)
  {
    forall c ensures Without(a + b, c) <==> Without(a, c) && Without(b, c) {
      assert forall i :: 0 <= i < |b| ==> (a + b)[|a| + i] == b[i];
      assert forall i :: 0 <= i < |a| ==> (a + b)[i] == a[i];
    }
  }

  class Node {
    const self: int
    const n: int
    var term: int
    var votedFor: int
    var log: Log
    var nextIndex: seq<int>
    var matchIndex: seq<int>
    var lastApplied: int
    var commitIndex: int
    var recvVotes: int
    var finishedVote: int
    var cursor: int
    var role: Role
    var file: Option<string>

    /** What a restart would read from the file. */
    ghost function Disk(): Persisted
      reads this
    {
      match file
      case None => FRESH_DISK
      case Some(text) => if ParseState(text).Some? then ParseState(text).value else FRESH_DISK
    }

    ghost function State(): NodeState
      reads this
    {
      NodeState(term, votedFor, log, nextIndex, matchIndex, lastApplied, commitIndex,
                recvVotes, finishedVote, role, Disk())
    }

    /** A node whose file, if any, has the fields that reading it needs. */
    ghost predicate Shaped()
      reads this
    {
      && 0 <= self < n && |nextIndex| == |matchIndex| == n
      && (file.Some? ==> ParseState(file.value).Some?)
    }

    /** And whose commands, in memory and in the file, the file format can hold (G7). */
    ghost predicate Valid()
      reads this
    {
      Shaped() && Storable(log) && Storable(Disk().log)
    }

    /** Everything but what the file reads as. */
    ghost function Memory(): NodeState
      reads this
    {
      State().(disk := FRESH_DISK)
    }

    /** Make: a fresh node reads its file if there is one. */
    constructor (n: int, self: int, file: Option<string>)
      requires 0 <= self < n
      requires file.Some? ==> ParseState(file.value).Some? && Storable(ParseState(file.value).value.log)
      ensures Valid() && this.n == n && this.self == self && this.file == file && cursor == 0
      ensures State() == H.Boot(n, Disk())
      ensures role == FOLLOWER && recvVotes == finishedVote == lastApplied == commitIndex == 0
      ensures forall k :: 0 <= k < n ==> nextIndex[k] == 1 && matchIndex[k] == 0
    {
      this.n, this.self, this.file := n, self, file;
      role, term, votedFor, log := FOLLOWER, 0, NO_VOTE, [];
      recvVotes, finishedVote, cursor := 0, 0, 0;
      lastApplied, commitIndex := 0, 0;
      nextIndex := seq(n, _ => 1);
      matchIndex := seq(n, _ => 0);
      new;
      ReadRaftState();
    }

    /** serialize, replacing the whole file (G7); module Overwrite has the text that the
        code's open leaves instead. */
    method Serialize()
      modifies this`file
      ensures file == Some(PrintState(Persisted(term, votedFor, log)))
    {
      var text := PrintFrom(log, 0, FILE);
      assert log[0..] == log;
      file := Some(ToString(term) + [';'] + (ToString(votedFor) + [';'] + text));
    }

    /** saveRaftState. */
    method SaveRaftState()
      requires Shaped()
      modifies this`file
      ensures Shaped() && (Storable(log) ==> Valid() && State() == H.Save(old(State())))
    {
      Serialize();
      SavedReads(Persisted(term, votedFor, log));
      if Storable(log) { StoredRoundTrip(Persisted(term, votedFor, log)); }
    }

    /** saveRaftState as the code's open leaves the file: what was longer shows behind. */
    method SaveInPlace()
      requires Shaped()
      modifies this`file
      ensures Shaped()
      ensures var p, was := Persisted(term, votedFor, log), if old(file).Some? then old(file).value else [];
        && file == Some(WriteOver(was, PrintState(p)))
        && (Storable(log) ==> Disk() == p.(log := log + ParseLog(Shown(was, p), FILE)))
    {
      var text := PrintFrom(log, 0, FILE);
      assert log[0..] == log;
      ghost var p := Persisted(term, votedFor, log);
      var was := if file.Some? then file.value else [];
      file := Some(WriteOver(was, ToString(term) + [';'] + (ToString(votedFor) + [';'] + text)));
      SavedOverReads(was, p);
      if Storable(log) { SaveReadsAs(was, p); }
    }

    /** readRaftState: the file's log is pushed behind whatever the node already holds. */
    method ReadRaftState()
      requires Valid()
      modifies this`term, this`votedFor, this`log
      ensures Valid()
      ensures file.None? ==> State() == old(State())
      ensures file.Some? ==> State() == H.Reload(old(State()))
    {
      if file.None? { return; }
      var p := Deserialize(file.value);
      term, votedFor := p.value.term, p.value.votedFor;
      ghost var before := log;
      for i := 0 to |p.value.log|
        modifies this`log
        invariant log == before + p.value.log[..i]
      {
        log := log + [p.value.log[i]];
      }
      assert p.value.log[..|p.value.log|] == p.value.log;
    }

    /** Choosing the next peer to call. */
    method PickPeer() returns (peer: int)
      modifies this`cursor
      ensures PeerCursor.Pick(peer, cursor) == PeerCursor.Next(n, self, old(cursor))
    {
      if cursor == self { cursor := cursor + 1; }
      peer := cursor;
      cursor := cursor + 1;
      if cursor == n || (cursor == n - 1 && self == cursor) { cursor := 0; }
    }

    /** The start of an election in electionLoop. */
    method StartElection()
      requires Valid()
      modifies this
      ensures Valid() && State() == H.StartElection(old(State()), self) && cursor == 0
    {
      role := CANDIDATE;
      term := term + 1;
      votedFor := self;
      SaveRaftState();
      recvVotes, finishedVote, cursor := 1, 1, 0;
    }

    method BuildVoteArgs() returns (a: VoteArgs)
      ensures a == H.BuildVoteArgs(State(), self)
    {
      a := VoteArgs(term, self, if |log| != 0 then log[|log| - 1].term else 0, |log|);
    }

    /** The end of an election in electionLoop. */
    method BecomeLeader()
      requires Valid()
      modifies this
      ensures Valid() && State() == H.BecomeLeader(old(State()), n) && cursor == old(cursor)
    {
      role := LEADER;
      for i := 0 to n
        modifies this`nextIndex, this`matchIndex
        invariant |nextIndex| == |matchIndex| == n
        invariant forall k :: 0 <= k < i ==> nextIndex[k] == |log| + 1 && matchIndex[k] == 0
      {
        nextIndex := nextIndex[i := |log| + 1];
        matchIndex := matchIndex[i := 0];
      }
      ghost var next := |log| + 1;
      assert nextIndex == seq(n, _ => next);
      assert matchIndex == seq(n, _ => 0);
    }

    method CheckLogUptodate(lastTerm: int, index: int) returns (ok: bool)
      ensures ok == H.UpToDate(log, lastTerm, index)
    {
      if |log| == 0 { return true; }
      if lastTerm > log[|log| - 1].term { return true; }
      if lastTerm == log[|log| - 1].term && index >= |log| { return true; }
      return false;
    }

    /** requestVote. */
    method RequestVote(a: VoteArgs) returns (r: VoteReply)
      requires Valid()
      modifies this
      ensures Valid() && (State(), r) == H.RequestVote(old(State()), a) && cursor == old(cursor)
    {
      r := VoteReply(term, false);
      if term > a.term { return; }
      if term < a.term { role, term, votedFor := FOLLOWER, a.term, NO_VOTE; }
      if votedFor == NO_VOTE || votedFor == a.candidateId {
        var ok := CheckLogUptodate(a.lastLogTerm, a.lastLogIndex);
        if !ok { return; }
        votedFor := a.candidateId;
        r := r.(granted := true);
      }
      SaveRaftState();
    }

    /** The reply part of callRequestVote. Without a file there is nothing to reload. */
    method HandleVoteReply(r: VoteReply)
      requires Valid()
      modifies this
      ensures Valid() && cursor == old(cursor)
      ensures file.Some? || r.term <= old(term) ==> State() == H.HandleVoteReply(old(State()), r)
      ensures file.None? && r.term > old(term) ==>
        State() == old(State()).(finishedVote := old(finishedVote) + 1,
                                 role := FOLLOWER, term := r.term, votedFor := NO_VOTE)
    {
      finishedVote := finishedVote + 1;
      if r.term > term {
        role, term, votedFor := FOLLOWER, r.term, NO_VOTE;
        ReadRaftState();
        return;
      }
      if r.granted { recvVotes := recvVotes + 1; }
    }

    /** start. Any command is taken; one that the file format cannot hold costs the node
        its validity. */
    method Start(o: Operation) returns (ret: StartRet)
      requires Valid()
      modifies this`log
      ensures Valid() <==> role != LEADER || Storable([LogEntry(Command(o), term)])
      ensures role != LEADER ==> State() == old(State()) && ret == StartRet(-1, -1, false)
      ensures role == LEADER ==>
        State() == H.Start(old(State()), Command(o)) && ret == StartRet(|old(log)|, term, true)
    {
      if role != LEADER { return StartRet(-1, -1, false); }
      ret := StartRet(|log|, term, true);
      ghost var e := [LogEntry(Command(o), term)];
      StorableAppend(log, e);
      log := log + [LogEntry(Command(o), term)];
    }

    /** The term the request names for its previous position. */
    method PrevTerm(prev: int) returns (t: int)
      requires 0 <= prev <= |log|
      ensures t == if prev == 0 then (if |log| != 0 then log[0].term else 0) else log[prev - 1].term
    {
      t := 0;
      if prev == 0 {
        if |log| != 0 { t := log[0].term; }
      } else {
        t := log[prev - 1].term;
      }
    }

    /** The request part of sendAppendEntries. */
    method BuildAppend(peer: int) returns (a: WireArgs)
      requires Valid() && H.CanBuildAppend(State(), peer)
      ensures Decode(a) == H.BuildAppend(State(), self, peer)
      ensures a.sendLogs == PrintLog(log[nextIndex[peer] - 1..], WIRE)
    {
      var prev := nextIndex[peer] - 1;
      var text := PrintFrom(log, prev, WIRE);
      var prevTerm := PrevTerm(prev);
      a := WireArgs(term, self, prev, prevTerm, commitIndex, text);
      SentLog(log, prev);
      BuiltRequest(State(), self, peer, prev, prevTerm);
    }

    method PushAll(entries: Log)
      modifies this`log
      ensures log == old(log) + entries
    {
      for i := 0 to |entries|
        modifies this`log
        invariant log == old(log) + entries[..i]
      {
        log := log + [entries[i]];
      }
      assert entries[..|entries|] == entries;
    }

    method FollowCommit(leaderCommit: int)
      modifies this`commitIndex
      ensures State() == H.FollowCommit(old(State()), leaderCommit)
    {
      if commitIndex < leaderCommit { commitIndex := Min(leaderCommit, |log|); }
    }

    /** Popping the entries behind the previous position. */
    method Truncate(prev: int)
      requires Valid() && 0 <= prev <= |log|
      modifies this`log
      ensures Valid() && log == old(log)[..prev]
    {
      var size := |log|;
      for i := prev to size
        modifies this`log
        invariant log == old(log)[..size - (i - prev)]
      {
        log := log[..|log| - 1];
      }
    }

    method AdoptAppendTerm(leaderTerm: int)
      requires Valid()
      modifies this
      ensures Valid() && State() == H.AdoptAppendTerm(old(State()), leaderTerm) && cursor == old(cursor)
    {
      if leaderTerm > term {
        votedFor := NO_VOTE;
        SaveRaftState();
      }
      term, role := leaderTerm, FOLLOWER;
    }

    method TakeEntries(prev: int, entries: Log, leaderCommit: int)
      requires Valid() && 0 <= prev <= |log|
      modifies this
      ensures Shaped() && cursor == old(cursor)
      ensures Memory() == H.TakeEntries(old(State()), prev, entries, leaderCommit).(disk := FRESH_DISK)
      ensures Storable(entries) ==> Valid() && State() == H.TakeEntries(old(State()), prev, entries, leaderCommit)
    {
      Truncate(prev);
      StorableAppend(log, entries);
      PushAll(entries);
      SaveRaftState();
      FollowCommit(leaderCommit);
    }

    /** The search for the first entry of the conflicting term. */
    method FirstOfTerm(t: int, prev: int) returns (index: int)
      requires 1 <= prev <= |log| && log[prev - 1].term == t
      ensures index == H.FirstOfTerm(log, t, 1)
    {
      index := 1;
      while log[index - 1].term != t
        invariant 1 <= index <= prev
        invariant H.FirstOfTerm(log, t, index) == H.FirstOfTerm(log, t, 1)
        decreases prev - index
      {
        index := index + 1;
      }
    }

    /** appendEntries. Entries that the file format cannot hold are taken as well, but then
        the file does not read back as the node's state. */
    method AppendEntries(a: WireArgs) returns (r: AppendReply)
      requires Valid()
      modifies this
      ensures Shaped() && cursor == old(cursor)
      ensures var (s, reply) := H.AppendEntries(old(State()), Decode(a));
        && r == reply && Memory() == s.(disk := FRESH_DISK)
        && (Storable(Decode(a).entries) ==> Valid() && State() == s)
    {
      var entries := GetCmdAndTerm(a.sendLogs);
      r := AppendReply(term, false, NOT_SET, NOT_SET);
      if a.term < term { return; }
      AdoptAppendTerm(a.term);
      if |log| == 0 {
        TakeEntries(0, entries, a.leaderCommit);
        r := r.(success := true);
        return;
      }
      if a.prevLogIndex < 0 || |log| < a.prevLogIndex {
        r := r.(conflictIndex := |log|);
        return;
      }
      if a.prevLogIndex > 0 && log[a.prevLogIndex - 1].term != a.prevLogTerm {
        var t := log[a.prevLogIndex - 1].term;
        var index := FirstOfTerm(t, a.prevLogIndex);
        r := r.(conflictTerm := t, conflictIndex := index);
        return;
      }
      TakeEntries(a.prevLogIndex, entries, a.leaderCommit);
      r := r.(success := true);
    }

    /** The leader's downward search for the conflicting term. */
    method LastOfTerm(t: int, prev: int) returns (index: int)
      requires 0 <= prev <= |log|
      ensures index == H.LastOfTerm(log, t, prev)
    {
      var k := prev;
      while k >= 1
        invariant 0 <= k <= prev
        invariant H.LastOfTerm(log, t, k) == H.LastOfTerm(log, t, prev)
      {
        if log[k - 1].term == t { return k; }
        k := k - 1;
      }
      return NOT_SET;
    }

    method RecordSuccess(peer: int, sendLogs: string)
      requires Valid() && 0 <= peer < n
      modifies this`nextIndex, this`matchIndex
      ensures Valid() && State() == H.RecordSuccess(old(State()), peer, |ParseLog(sendLogs, WIRE)|)
    {
      var entries := GetCmdAndTerm(sendLogs);
      nextIndex := nextIndex[peer := nextIndex[peer] + |entries|];
      matchIndex := matchIndex[peer := nextIndex[peer] - 1];
    }

    /** The commit rule over the sorted copy of matchIndex. */
    method AdvanceCommit()
      requires Valid() && H.CanAdvanceCommit(State())
      modifies this`commitIndex
      ensures Valid() && State() == H.AdvanceCommit(old(State()))
    {
      var sorted := Quorum.Sort(matchIndex);
      var majority := sorted[|sorted| / 2];
      if majority > commitIndex && log[majority - 1].term == term { commitIndex := majority; }
    }

    /** Fast back-up on a rejection. */
    method BackUp(peer: int, prev: int, r: AppendReply)
      requires Valid() && 0 <= peer < n && 0 <= prev <= |log|
      modifies this`nextIndex
      ensures Valid()
      ensures State() == old(State()).(nextIndex := old(nextIndex)[peer := H.BackUp(log, prev, r)])
    {
      if r.conflictTerm != NOT_SET {
        var k := LastOfTerm(r.conflictTerm, prev);
        nextIndex := nextIndex[peer := if k != NOT_SET then k + 1 else r.conflictIndex];
      } else {
        nextIndex := nextIndex[peer := r.conflictIndex + 1];
      }
    }

    /** The reply part of sendAppendEntries. */
    method HandleAppendReply(peer: int, a: WireArgs, r: AppendReply)
      requires Valid() && H.CanHandleReply(State(), peer, Decode(a), r)
      modifies this
      ensures Valid() && State() == H.HandleAppendReply(old(State()), peer, Decode(a), r) && cursor == old(cursor)
    {
      if r.term > term {
        role, term, votedFor := FOLLOWER, r.term, NO_VOTE;
        SaveRaftState();
        return;
      }
      if r.success {
        RecordSuccess(peer, a.sendLogs);
        AdvanceCommit();
      } else {
        BackUp(peer, a.prevLogIndex, r);
      }
      SaveRaftState();
    }

    /** One turn of applyLogLoop. */
    method ApplyLog()
      modifies this`lastApplied
      ensures State() == H.ApplyCommitted(old(State()))
    {
      lastApplied := commitIndex;
    }
  }
}
