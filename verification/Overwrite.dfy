/** Saving without truncation (G7): what is read back when a state is written over the
    file of an older one. */
module Overwrite {
  import opened RaftTypes
  import opened LogText
  import opened Text

  /** A text cut from the end of joined pieces yields no piece exactly when nothing, or
      only the last separator, is left of them. */
  lemma {:induction false} SuffixSplit(pieces: seq<string>, d: nat, sep: char)
    requires forall i :: 0 <= i < |pieces| ==> pieces[i] != [] && sep !in pieces[i]
    requires d <= |Join(pieces, sep)|
    ensures Split([], Join(pieces, sep)[d..], sep) == [] <==> |Join(pieces, sep)| <= d + 1
    decreases |pieces|
  {
    if pieces != [] {
      var p, later := pieces[0], Join(pieces[1..], sep);
      var text := Join(pieces, sep)[d..];
      if d > |p| {
        assert text == later[d - |p| - 1..];
        SuffixSplit(pieces[1..], d - |p| - 1, sep);
      } else {
        SuffixOfFirst(p[d..], later, pieces[1..], sep);
        assert text == p[d..] + ([sep] + later);
      }
    }
  }

  lemma SuffixOfFirst(piece: string, later: string, pieces: seq<string>, sep: char)
    requires forall i :: 0 <= i < |pieces| ==> pieces[i] != [] && sep !in pieces[i]
    requires later == Join(pieces, sep) && sep !in piece
    ensures Split([], piece + ([sep] + later), sep) == [] <==> piece == [] && later == []
  {
    SplitJoin(pieces, [], sep);
    assert later + [] == later;
    var text := piece + ([sep] + later);
    if piece == [] {
      assert text[0] == sep && text[1..] == later;
    } else {
      SplitFirst(piece, later, sep);
    }
  }

  // ----- any file -----

  /** What a file keeps behind a text written over it. */
  function Behind(file: string, text: string): string {
    if |file| <= |text| then [] else file[|text|..]
  }

  /** The log field begins with the new log, whatever follows it. */
  lemma LogFieldStarts(log: Log, tail: string)
    requires Storable(log)
    ensures PrintLog(log, FILE) <= LogField(PrintLog(log, FILE) + tail)
  {
    var text := PrintLog(log, FILE);
    PrintedLogChars(log, ';');
    if text != [] {
      FieldStarts(text, tail);
    }
  }

  lemma FieldStarts(text: string, tail: string)
    requires ';' !in text && text != []
    ensures text <= LogField(text + tail)
  {
    SplitPiece([], text, tail, ';');
    assert [] + text == text;
    FirstStarts(text, tail);
  }

  lemma {:induction false} FirstStarts(text: string, tail: string)
    requires text != []
    ensures text <= (Split(text, tail, ';') + [Rest(text, tail, ';')])[0]
    decreases |tail|
  {
    if tail != [] && tail[0] != ';' { FirstStarts(text + [tail[0]], tail[1..]); }
  }

  /** The old characters that are read behind the new log: those up to the next field. */
  function Shown(file: string, now: Persisted): string
    requires Storable(now.log)
  {
    var log := PrintLog(now.log, FILE);
    var tail := Visible(Behind(file, PrintState(now)));
    LogFieldStarts(now.log, tail);
    LogField(log + tail)[|log|..]
  }

  /** The log a file yields whose old text still shows behind the new log. */
  lemma LogThenTail(log: Log, tail: string)
    requires Storable(log)
    ensures ParseLog(PrintLog(log, FILE) + tail, FILE) == log + ParseLog(tail, FILE)
  {
    PrintedClean(log, FILE);
    SplitJoin(PrintAll(log), tail, FILE);
    ParsedTogether(log, Split([], tail, FILE));
  }

  lemma ParsedTogether(log: Log, pieces: seq<string>)
    requires Without(log, ',')
    ensures ParseAll(PrintAll(log) + pieces) == log + ParseAll(pieces)
  {
    var all := ParseAll(PrintAll(log) + pieces);
    forall i | 0 <= i < |log| ensures all[i] == log[i] { EntryRoundTrip(log[i]); }
    forall i | |log| <= i < |all| ensures all[i] == ParseAll(pieces)[i - |log|] {}
  }

  /** Over any file at all, a save reads back as the new state with the entries that the
      old characters spell behind its log. */
  lemma SaveReadsAs(file: string, now: Persisted)
    requires Storable(now.log)
    ensures ParseState(WriteOver(file, PrintState(now))) ==
      Some(now.(log := now.log + ParseLog(Shown(file, now), FILE)))
  {
    var log, behind := PrintLog(now.log, FILE), Behind(file, PrintState(now));
    BehindText(file, now);
    HeaderParsed(now, log + behind);
    PrintedLogChars(now.log, NUL);
    VisibleSplit(log, behind);
    LogFieldStarts(now.log, Visible(behind));
    assert LogField(log + Visible(behind)) == log + Shown(file, now);
    LogThenTail(now.log, Shown(file, now));
  }

  lemma BehindText(file: string, now: Persisted)
    ensures WriteOver(file, PrintState(now)) == Header(now) + (PrintLog(now.log, FILE) + Behind(file, PrintState(now)))
  {
    PrintedParts(now);
    TextThenBehind(file, Header(now), PrintLog(now.log, FILE));
  }

  lemma TextThenBehind(file: string, header: string, log: string)
    ensures WriteOver(file, header + log) == header + (log + Behind(file, header + log))
  {
    if |file| <= |header + log| { assert log + [] == log; }
  }

  /** Whatever a save is written over, the file can be read. */
  lemma SavedOverReads(file: string, now: Persisted)
    ensures ParseState(WriteOver(file, PrintState(now))).Some?
  {
    BehindText(file, now);
    HeaderParsed(now, PrintLog(now.log, FILE) + Behind(file, PrintState(now)));
  }

  /** A save is read back exactly when those characters end no entry. */
  lemma SaveReadsBackIff(file: string, now: Persisted)
    requires Storable(now.log)
    ensures ParseState(WriteOver(file, PrintState(now))) == Some(now) <==> Split([], Shown(file, now), FILE) == []
  {
    SaveReadsAs(file, now);
    var more := ParseLog(Shown(file, now), FILE);
    assert |now.log + more| == |now.log| + |more|;
    if more == [] { assert now.log + more == now.log; }
  }

  // ----- the file of one older state -----

  lemma LogWithTail(log: Log, tail: string)
    requires Storable(log)
    ensures ParseLog(PrintLog(log, FILE) + tail, FILE) == log <==> Split([], tail, FILE) == []
  {
    LogThenTail(log, tail);
    assert |log + ParseLog(tail, FILE)| == |log| + |Split([], tail, FILE)|;
    if Split([], tail, FILE) == [] { assert log + ParseLog(tail, FILE) == log; }
  }

  /** The old log shows through: read back exactly if at most its last separator does. */
  lemma LogShowsThrough(was: Persisted, now: Persisted, d: nat)
    requires Storable(was.log) && Storable(now.log) && d <= |PrintLog(was.log, FILE)|
    ensures ParseState(Header(now) + (PrintLog(now.log, FILE) + PrintLog(was.log, FILE)[d..])) == Some(now) <==>
      |PrintLog(was.log, FILE)| <= d + 1
  {
    var text := PrintLog(now.log, FILE) + PrintLog(was.log, FILE)[d..];
    PrintedLogChars(was.log, ';');
    PrintedLogChars(was.log, NUL);
    PrintedLogChars(now.log, ';');
    PrintedLogChars(now.log, NUL);
    WholeHeaderParsed(now, text);
    SplitNone(text, ';');
    LogWithTail(now.log, PrintLog(was.log, FILE)[d..]);
    PrintedClean(was.log, FILE);
    SuffixSplit(PrintAll(was.log), d, FILE);
  }

  /** The characters of a header's rest, up to its first semicolon, form no log entry. */
  lemma NumberIsNoEntry(log: Log, digits: string, rest: string)
    requires Storable(log) && ';' !in digits && FILE !in digits
    requires PrintLog(log, FILE) + digits != []
    ensures ParseLog(LogField(PrintLog(log, FILE) + digits + ([';'] + rest)), FILE) == log
  {
    PrintedLogChars(log, ';');
    SplitFirst(PrintLog(log, FILE) + digits, rest, ';');
    LogWithTail(log, digits);
    SplitNone(digits, FILE);
  }

  lemma NumberEnd(n: int, d: nat)
    requires d <= |ToString(n)|
    ensures ';' !in ToString(n)[d..] && FILE !in ToString(n)[d..] && NUL !in ToString(n)[d..]
  {
    ToStringChars(n);
    assert forall c :: c in ToString(n)[d..] ==> c in ToString(n);
  }

  /** The old header shows through from inside its first number on. */
  lemma TermShowsThrough(was: Persisted, now: Persisted, d: nat)
    requires Storable(was.log) && Storable(now.log) && d <= |PrintState(was)|
    requires d < |ToString(was.term)| || (now.log != [] && d == |ToString(was.term)|)
    ensures ParseState(Header(now) + (PrintLog(now.log, FILE) + PrintState(was)[d..])) == Some(now)
  {
    var digits := ToString(was.term)[d..];
    var rest := ToString(was.votedFor) + [';'] + PrintLog(was.log, FILE);
    NumberEnd(was.term, d);
    NumberChars(was.votedFor);
    PrintedLogChars(was.log, NUL);
    assert PrintState(was)[d..] == digits + ([';'] + rest);
    ShownThrough(was, now, digits, rest);
  }

  lemma VoteShowsThrough(was: Persisted, now: Persisted, d: nat)
    requires Storable(was.log) && Storable(now.log)
    requires d < |ToString(was.votedFor)| || (now.log != [] && d == |ToString(was.votedFor)|)
    ensures var behind := ToString(was.votedFor)[d..] + ([';'] + PrintLog(was.log, FILE));
      ParseState(Header(now) + (PrintLog(now.log, FILE) + behind)) == Some(now)
  {
    NumberEnd(was.votedFor, d);
    PrintedLogChars(was.log, NUL);
    ShownThrough(was, now, ToString(was.votedFor)[d..], PrintLog(was.log, FILE));
  }

  /** Whatever follows a number and a semicolon is not read as part of the log. */
  lemma ShownThrough(was: Persisted, now: Persisted, digits: string, rest: string)
    requires Storable(was.log) && Storable(now.log) && NUL !in rest
    requires ';' !in digits && FILE !in digits && NUL !in digits && (now.log != [] || digits != [])
    ensures ParseState(Header(now) + (PrintLog(now.log, FILE) + (digits + ([';'] + rest)))) == Some(now)
  {
    var text := PrintLog(now.log, FILE) + digits + ([';'] + rest);
    PrintedLogChars(now.log, NUL);
    if now.log != [] { PrintedNotEmpty(now.log); }
    WholeHeaderParsed(now, text);
    NumberIsNoEntry(now.log, digits, rest);
    assert text == PrintLog(now.log, FILE) + (digits + ([';'] + rest));
  }

  lemma PrintedNotEmpty(log: Log)
    requires log != []
    ensures PrintLog(log, FILE) != []
  {
    assert PrintLog(log, FILE) == PrintAll(log)[0] + [FILE] + Join(PrintAll(log)[1..], FILE);
  }

  /** A semicolon right behind an empty log is skipped as an empty field. */
  lemma EmptyFieldSkipped(now: Persisted, text: string)
    requires NUL !in text
    ensures ParseState(Header(now) + ([';'] + text)) == ParseState(Header(now) + text)
  {
    WholeHeaderParsed(now, text);
    WholeHeaderParsed(now, [';'] + text);
    assert ([';'] + text)[1..] == text;
  }

  /** Behind an empty log, from the semicolon after the old term on. */
  lemma EmptyLogBeforeVote(was: Persisted, now: Persisted)
    requires Storable(was.log) && now.log == []
    ensures ParseState(Header(now) + PrintState(was)[|ToString(was.term)|..]) == Some(now)
  {
    var behind := ToString(was.votedFor) + ([';'] + PrintLog(was.log, FILE));
    assert PrintState(was)[|ToString(was.term)|..] == [';'] + behind;
    NumberChars(was.votedFor);
    PrintedLogChars(was.log, NUL);
    EmptyFieldSkipped(now, behind);
    VoteShowsThrough(was, now, 0);
    assert ToString(was.votedFor)[0..] == ToString(was.votedFor) && PrintLog(now.log, FILE) + behind == behind;
  }

  /** Behind an empty log, from the last semicolon of the old header on: the old log is
      read as the new one. */
  lemma EmptyLogBeforeLog(was: Persisted, now: Persisted)
    requires Storable(was.log) && now.log == []
    ensures ParseState(Header(now) + ([';'] + PrintLog(was.log, FILE))) == Some(now) <==> was.log == []
  {
    PrintedLogChars(was.log, ';');
    PrintedLogChars(was.log, NUL);
    EmptyFieldSkipped(now, PrintLog(was.log, FILE));
    WholeHeaderParsed(now, PrintLog(was.log, FILE));
    SplitNone(PrintLog(was.log, FILE), ';');
    LogRoundTrip(was.log, FILE);
  }

  /** A save over an older file is harmful when an entry of the old log shows behind the
      new text, or when an empty log ends right before the old log. */
  predicate Harmless(was: Persisted, now: Persisted) {
    var d := |PrintState(now)|;
    if d < |Header(was)| then now.log != [] || was.log == [] || d < |Header(was)| - 1
    else |PrintState(was)| <= d + 1
  }

  lemma BehindTerm(term: string, vote: string, log: string, d: nat)
    requires |term| < d <= |term| + 1 + |vote|
    ensures (term + [';'] + (vote + [';'] + log))[d..] == vote[d - |term| - 1..] + ([';'] + log)
  {}

  lemma NothingPrinted(now: Persisted, behind: string)
    requires now.log == []
    ensures PrintLog(now.log, FILE) + behind == behind
  {}

  lemma HeaderLength(p: Persisted)
    ensures |Header(p)| == |ToString(p.term)| + 1 + |ToString(p.votedFor)| + 1
    ensures |Header(p)| <= |PrintState(p)|
  {}

  /** The position in the old header at which the new text ends, and what shows there. */
  lemma HeaderShowsThrough(was: Persisted, now: Persisted, d: nat)
    requires Storable(was.log) && Storable(now.log) && d < |Header(was)| <= |PrintState(was)|
    ensures ParseState(Header(now) + (PrintLog(now.log, FILE) + PrintState(was)[d..])) == Some(now) <==>
      now.log != [] || was.log == [] || d < |Header(was)| - 1
  {
    HeaderLength(was);
    var term := ToString(was.term);
    if d < |term| || (d == |term| && now.log != []) {
      TermShowsThrough(was, now, d);
    } else if d == |term| {
      EmptyLogBeforeVote(was, now);
      NothingPrinted(now, PrintState(was)[d..]);
    } else {
      BehindTerm(term, ToString(was.votedFor), PrintLog(was.log, FILE), d);
      FromTheVoteOn(was, now, d - |term| - 1);
    }
  }

  lemma FromTheVoteOn(was: Persisted, now: Persisted, e: nat)
    requires Storable(was.log) && Storable(now.log) && e <= |ToString(was.votedFor)|
    ensures var behind := ToString(was.votedFor)[e..] + ([';'] + PrintLog(was.log, FILE));
      ParseState(Header(now) + (PrintLog(now.log, FILE) + behind)) == Some(now) <==>
        e < |ToString(was.votedFor)| || now.log != [] || was.log == []
  {
    if e < |ToString(was.votedFor)| || now.log != [] {
      VoteShowsThrough(was, now, e);
    } else {
      var log := PrintLog(was.log, FILE);
      assert PrintLog(now.log, FILE) + (ToString(was.votedFor)[e..] + ([';'] + log)) == [';'] + log;
      EmptyLogBeforeLog(was, now);
    }
  }

  lemma PrintedParts(p: Persisted)
    ensures PrintState(p) == Header(p) + PrintLog(p.log, FILE)
  {}

  lemma OverwrittenText(file: string, header: string, log: string)
    requires |header + log| < |file|
    ensures WriteOver(file, header + log) == header + (log + file[|header + log|..])
  {}

  lemma BehindHeader(header: string, log: string, d: nat)
    requires |header| <= d <= |header + log|
    ensures (header + log)[d..] == log[d - |header|..]
  {}

  /** Over the file of one older state a save is read back exactly when it is harmless. */
  lemma SaveOverStateIff(was: Persisted, now: Persisted)
    requires Storable(was.log) && Storable(now.log)
    ensures ParseState(WriteOver(PrintState(was), PrintState(now))) == Some(now) <==> Harmless(was, now)
  {
    var d := |PrintState(now)|;
    if |PrintState(was)| <= d {
      StoredRoundTrip(now);
    } else {
      PrintedParts(was);
      PrintedParts(now);
      OverwrittenText(PrintState(was), Header(now), PrintLog(now.log, FILE));
      HeaderLength(was);
      if d < |Header(was)| {
        HeaderShowsThrough(was, now, d);
      } else {
        BehindHeader(Header(was), PrintLog(was.log, FILE), d);
        LogShowsThrough(was, now, d - |Header(was)|);
      }
    }
  }

  /** A save of a cut log under the same term and vote leaves the file as it was, so a
      restart brings back the entries that were cut. */
  lemma CutSaveIsLost(p: Persisted, k: nat)
    requires Storable(p.log) && k <= |p.log|
    ensures ParseState(WriteOver(PrintState(p), PrintState(p.(log := p.log[..k])))) == Some(p)
  {
    var cut := p.(log := p.log[..k]);
    CutIsPrefix(p.log, k);
    PrintedParts(p);
    PrintedParts(cut);
    PrefixLeavesFile(Header(p), PrintLog(cut.log, FILE), PrintLog(p.log, FILE));
    StoredRoundTrip(p);
  }

  lemma PrefixLeavesFile(header: string, part: string, whole: string)
    requires part <= whole
    ensures WriteOver(header + whole, header + part) == header + whole
  {
    assert (header + whole)[..|header + part|] == header + part;
    if |part| < |whole| {
      assert header + part + (header + whole)[|header + part|..] == header + whole;
    }
  }

  lemma CutIsPrefix(log: Log, k: nat)
    requires k <= |log|
    ensures PrintLog(log[..k], FILE) <= PrintLog(log, FILE)
  {
    var all := PrintAll(log);
    assert all == all[..k] + all[k..] && PrintAll(log[..k]) == all[..k];
    JoinAppend(all[..k], all[k..], FILE);
  }

  // ----- three saves -----

  lemma JoinOne(p: string, sep: char)
    ensures Join([p], sep) == p + [sep]
  {
    assert [p][1..] == [];
    assert p + [sep] + [] == p + [sep];
  }

  lemma JoinTwo(p: string, q: string, sep: char)
    ensures Join([p, q], sep) == p + [sep] + (q + [sep])
  {
    assert [p, q][1..] == [q];
    JoinOne(q, sep);
  }

  lemma PrintedOne(e: LogEntry)
    ensures PrintLog([e], FILE) == PrintEntry(e) + [FILE]
  {
    assert PrintAll([e]) == [PrintEntry(e)];
    JoinOne(PrintEntry(e), FILE);
  }

  lemma PrintedTwo(e: LogEntry, f: LogEntry)
    ensures PrintLog([e, f], FILE) == PrintEntry(e) + [FILE] + (PrintEntry(f) + [FILE])
  {
    assert PrintAll([e, f]) == [PrintEntry(e), PrintEntry(f)];
    JoinTwo(PrintEntry(e), PrintEntry(f), FILE);
  }

  lemma SmallNumbers()
    ensures ToString(0) == "0" && ToString(1) == "1" && ToString(2) == "2"
  {}

  /** What a leftover of ",1." adds to the log. */
  lemma CommaOneShown()
    ensures ParseLog(",1.", FILE) == [LogEntry("", 1)]
  {
    SplitFirst(",1", [], FILE);
    assert ",1" + ([FILE] + []) == ",1.";
    SmallNumbers();
    assert PrintEntry(LogEntry("", 1)) == ",1" by { assert "" + [','] + "1" == ",1"; }
    EntryRoundTrip(LogEntry("", 1));
    assert ParseAll([",1"]) == [LogEntry("", 1)];
  }

  /** The first of the three states and the last one, as they are printed. */
  lemma FirstText(p: Persisted)
    requires p == Persisted(1, 0, [LogEntry("abc", 1), LogEntry("de", 1)])
    ensures PrintState(p) == "1;0;abc,1.de,1."
  {
    SmallNumbers();
    PrintedTwo(p.log[0], p.log[1]);
    assert p.log == [p.log[0], p.log[1]];
    assert PrintEntry(p.log[0]) == "abc,1" && PrintEntry(p.log[1]) == "de,1";
    assert PrintLog(p.log, FILE) == "abc,1.de,1.";
  }

  lemma SecondText(p: Persisted)
    requires p == Persisted(2, 0, [LogEntry("x", 2)])
    ensures PrintState(p) == "2;0;x,2."
  {
    SmallNumbers();
    PrintedOne(p.log[0]);
    assert p.log == [p.log[0]];
    assert PrintEntry(p.log[0]) == "x,2";
    assert PrintLog(p.log, FILE) == "x,2.";
  }

  lemma ThirdText(p: Persisted)
    requires p == Persisted(2, 0, [LogEntry("x", 2), LogEntry("y", 2)])
    ensures PrintState(p) == "2;0;x,2.y,2."
  {
    SmallNumbers();
    PrintedTwo(p.log[0], p.log[1]);
    assert p.log == [p.log[0], p.log[1]];
    assert PrintEntry(p.log[0]) == "x,2" && PrintEntry(p.log[1]) == "y,2";
    assert PrintLog(p.log, FILE) == "x,2.y,2.";
  }

  /** What shows is what is behind, if that has no field end and no NUL. */
  lemma ShownPlain(file: string, now: Persisted)
    requires Storable(now.log)
    requires ';' !in Behind(file, PrintState(now)) && NUL !in Behind(file, PrintState(now))
    ensures Shown(file, now) == Behind(file, PrintState(now))
  {
    var log, behind := PrintLog(now.log, FILE), Behind(file, PrintState(now));
    VisibleAll(behind);
    PrintedLogChars(now.log, ';');
    SplitNone(log + behind, ';');
  }

  lemma BehindTwice(file: string, text: string, longer: string)
    requires |text| <= |longer| <= |file|
    ensures Behind(WriteOver(file, text), longer) == file[|longer|..]
  {
    if |text| < |file| { assert WriteOver(file, text)[|longer|..] == file[|longer|..]; }
  }

  /** Three saves, each of an ordinary state. The last one is harmless over the state before
      it, but the file still has the end of the first one, which reads as an entry that no
      node ever had. */
  lemma ThirdSaveInvents(a: Persisted, b: Persisted, c: Persisted)
    requires a == Persisted(1, 0, [LogEntry("abc", 1), LogEntry("de", 1)])
    requires b == Persisted(2, 0, [LogEntry("x", 2)]) && c == Persisted(2, 0, [LogEntry("x", 2), LogEntry("y", 2)])
    ensures Harmless(b, c)
    ensures ParseState(WriteOver(WriteOver(PrintState(a), PrintState(b)), PrintState(c))) ==
      Some(c.(log := c.log + [LogEntry("", 1)]))
  {
    FirstText(a);
    SecondText(b);
    ThirdText(c);
    HeaderLength(b);
    SmallNumbers();
    var file := WriteOver(PrintState(a), PrintState(b));
    BehindTwice(PrintState(a), PrintState(b), PrintState(c));
    assert Behind(file, PrintState(c)) == ",1.";
    ShownPlain(file, c);
    CommaOneShown();
    SaveReadsAs(file, c);
  }
}
