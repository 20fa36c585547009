/** An append request from end to end: the leader prints its entries, the serializer
    carries the request as bytes, and the follower parses the entries again. */
module Request {
  import opened RaftTypes
  import opened LogText
  import opened Text
  import opened RaftNode
  import opened Serializer
  import opened ReplicationSteps
  import opened Guards
  import H = RaftHandlers
  import Quorum

  /** A text that was cut short yields the first pieces, and not all of them. */
  lemma {:induction false} CutSplit(pieces: seq<string>, text: string, sep: char)
    requires forall i :: 0 <= i < |pieces| ==> pieces[i] != [] && sep !in pieces[i]
    requires text < Join(pieces, sep)
    ensures |Split([], text, sep)| < |pieces| && Split([], text, sep) <= pieces
    decreases |pieces|
  {
    var p, later := pieces[0], Join(pieces[1..], sep);
    var whole := p + [sep] + later;
    assert text == whole[..|text|];
    if |text| <= |p| {
      assert text == p[..|text|];
      SplitNone(text, sep);
    } else {
      var rest := text[|p| + 1..];
      assert text == p + ([sep] + rest) && rest == later[..|rest|];
      SplitFirst(p, rest, sep);
      CutSplit(pieces[1..], rest, sep);
      assert pieces == [p] + pieces[1..];
    }
  }

  /** A log text that was cut short yields the first entries, and not all of them. */
  lemma CutLog(log: Log, text: string)
    requires Without(log, ',') && Without(log, WIRE) && text < PrintLog(log, WIRE)
    ensures |ParseLog(text, WIRE)| < |log| && ParseLog(text, WIRE) <= log
  {
    PrintedClean(log, WIRE);
    CutSplit(PrintAll(log), text, WIRE);
    var kept := |ParseLog(text, WIRE)|;
    forall i | 0 <= i < kept ensures ParseLog(text, WIRE)[i] == log[i] {
      assert Split([], text, WIRE)[i] == PrintAll(log)[i];
      EntryRoundTrip(log[i]);
    }
  }

  /** What the serializer leaves of a log text. */
  function Arriving(text: string): string {
    text[..|text| % TEXT_LIMIT]
  }

  lemma ArrivingEntries(log: Log)
    requires Without(log, ',') && Without(log, WIRE)
    ensures var arrived := ParseLog(Arriving(PrintLog(log, WIRE)), WIRE);
      && arrived <= log
      && (arrived == log <==> |PrintLog(log, WIRE)| < TEXT_LIMIT)
  {
    var text := PrintLog(log, WIRE);
    if |text| < TEXT_LIMIT {
      assert Arriving(text) == text;
      LogRoundTrip(log, WIRE);
    } else {
      CutLog(log, Arriving(text));
    }
  }

  /** The leader's request as the follower sees it. */
  function Received(l: NodeState, self: int, p: int): AppendArgs
    requires H.CanBuildAppend(l, p)
  {
    var a := H.BuildAppend(l, self, p);
    a.(entries := ParseLog(Arriving(PrintLog(a.entries, WIRE)), WIRE))
  }

  /** The tenth guard: the matchIndex that an accepted request earns is what the follower
      holds exactly when the request's log text is shorter than 65536 bytes. */
  lemma LongRequestIff(l: NodeState, f: NodeState, self: int, p: int)
    requires Storable(l.log) && H.CanBuildAppend(l, p) && |l.nextIndex| == |l.matchIndex|
    requires LogsMatch(f.log, l.log) && f.term <= l.term && Consistent(f, H.BuildAppend(l, self, p))
    ensures var a := H.BuildAppend(l, self, p);
      var (f1, r) := H.GuardedAppendEntries(f, Received(l, self, p));
      var matched := H.RecordSuccess(l, p, |a.entries|).matchIndex[p];
      r.success && (l.log[..matched] <= f1.log <==> |PrintLog(a.entries, WIRE)| < TEXT_LIMIT)
  {
    var a := H.BuildAppend(l, self, p);
    ArrivingEntries(a.entries);
    var k := |Received(l, self, p).entries|;
    assert Received(l, self, p).entries == a.entries[..k];
    CutRequestIff(l, f, self, p, k);
  }

  /** With two nodes, a leader whose one entry has a long command commits it although the
      other node holds nothing. */
  lemma LongCommandCommitsAlone(l: NodeState, f: NodeState, e: LogEntry)
    requires l.log == [e] && e.term == l.term && Storable([e]) && |PrintLog([e], WIRE)| >= TEXT_LIMIT
    requires l.nextIndex == [1, 1] && l.matchIndex == [0, 0] && l.commitIndex == 0
    requires f.log == [] && f.term <= l.term
    ensures H.CanBuildAppend(l, 1)
    ensures var a := H.BuildAppend(l, 0, 1);
      var (f1, r) := H.AppendEntries(f, Received(l, 0, 1));
      && r.success && f1.log == [] && H.CanHandleReply(l, 1, a, r)
      && H.HandleAppendReply(l, 1, a, r).commitIndex == 1
  {
    var a := H.BuildAppend(l, 0, 1);
    assert a.entries == [e];
    ArrivingEntries([e]);
    assert Received(l, 0, 1).entries == [];
    assert f.log[..0] + [] == [];
    assert H.RecordSuccess(l, 1, 1).matchIndex == [0, 1];
    OneOfTwo();
  }

  lemma OneOfTwo()
    ensures Quorum.Median([0, 1]) == 1
  {
    assert [0, 1][1..] == [1] && [1][1..] == [];
    assert Quorum.Sort([1]) == [1];
    assert Quorum.Insert(0, [1]) == [0, 1];
  }

  /** A leader whose numbers fit an int and whose characters fit a byte. */
  ghost predicate Carriable(l: NodeState, self: int, p: int)
    requires H.CanBuildAppend(l, p)
  {
    && IsInt32(l.term) && IsInt32(self) && IsInt32(l.commitIndex) && IsInt32(|l.log|)
    && (forall k :: 0 <= k < |l.log| ==> IsInt32(l.log[k].term))
    && ByteString(PrintLog(l.log[l.nextIndex[p] - 1..], WIRE))
  }

  lemma BuiltIsSendable(l: NodeState, self: int, p: int, a: WireArgs)
    requires H.CanBuildAppend(l, p) && Carriable(l, self, p) && Decode(a) == H.BuildAppend(l, self, p)
    requires a.sendLogs == PrintLog(l.log[l.nextIndex[p] - 1..], WIRE)
    ensures Sendable(a)
  {}

  lemma DecodedArrival(l: NodeState, self: int, p: int, a: WireArgs)
    requires H.CanBuildAppend(l, p) && Decode(a) == H.BuildAppend(l, self, p)
    requires a.sendLogs == PrintLog(l.log[l.nextIndex[p] - 1..], WIRE)
    ensures Decode(a.(sendLogs := Arriving(a.sendLogs))) == Received(l, self, p)
  {}

  /** The follower gets the request the leader meant exactly when its log text is
      shorter than 65536 bytes; of a longer one it gets only the first entries. */
  method SendRequest(l: Node, peer: int) returns (a: WireArgs, b: WireArgs)
    requires l.Valid() && H.CanBuildAppend(l.State(), peer) && Carriable(l.State(), l.self, peer)
    ensures Decode(a) == H.BuildAppend(l.State(), l.self, peer)
    ensures Decode(b) == Received(l.State(), l.self, peer)
    ensures Decode(b).entries <= Decode(a).entries
    ensures |Decode(b).entries| < |Decode(a).entries| <==>
      |PrintLog(l.log[l.nextIndex[peer] - 1..], WIRE)| >= TEXT_LIMIT
  {
    a := l.BuildAppend(peer);
    BuiltIsSendable(l.State(), l.self, peer, a);
    b := SendArgs(a);
    DecodedArrival(l.State(), l.self, peer, a);
    ArrivingEntries(l.log[l.nextIndex[peer] - 1..]);
  }
}
