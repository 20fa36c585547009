/** The two text formats of a log: on the wire each entry is "command,term;", in the
    persister file each entry is "command,term." behind "term;vote;". */
module LogText {
  import opened RaftTypes
  import opened Text

  datatype Option<T> = None | Some(value: T)

  const WIRE := ';'
  const FILE := '.'
  const NUL := '\0'

  function PrintEntry(e: LogEntry): string {
    e.command + [','] + ToString(e.term)
  }

  function ParseEntry(s: string): LogEntry {
    LogEntry(Before(s, ','), Atoi(After(s, ',')))
  }

  function PrintAll(log: Log): (r: seq<string>)
    ensures |r| == |log| && forall i :: 0 <= i < |log| ==> r[i] == PrintEntry(log[i])
  {
    seq(|log|, i requires 0 <= i < |log| => PrintEntry(log[i]))
  }

  function ParseAll(pieces: seq<string>): (r: Log)
    ensures |r| == |pieces| && forall i :: 0 <= i < |pieces| ==> r[i] == ParseEntry(pieces[i])
  {
    seq(|pieces|, i requires 0 <= i < |pieces| => ParseEntry(pieces[i]))
  }

  function PrintLog(log: Log, sep: char): string {
    Join(PrintAll(log), sep)
  }

  function ParseLog(text: string, sep: char): Log {
    ParseAll(Split([], text, sep))
  }

  ghost predicate Without(log: Log, c: char) {
    forall i :: 0 <= i < |log| ==> c !in log[i].command
  }

  lemma EntryRoundTrip(e: LogEntry)
    requires ',' !in e.command
    ensures ParseEntry(PrintEntry(e)) == e
  {
    CutAt(e.command, ',', ToString(e.term));
    AtoiToString(e.term);
  }

  /** No printed entry contains the separator if no command does. */
  lemma PrintedClean(log: Log, sep: char)
    requires Without(log, sep) && sep != ',' && sep != '-' && !IsDigit(sep)
    ensures forall i :: 0 <= i < |log| ==> PrintAll(log)[i] != [] && sep !in PrintAll(log)[i]
  {
    forall i | 0 <= i < |log| ensures PrintAll(log)[i] != [] && sep !in PrintAll(log)[i] {
      ToStringChars(log[i].term);
    }
  }

  lemma LogRoundTrip(log: Log, sep: char)
    requires Without(log, ',') && Without(log, sep) && sep != ',' && sep != '-' && !IsDigit(sep)
    ensures ParseLog(PrintLog(log, sep), sep) == log
  {
    PrintedClean(log, sep);
    SplitJoin(PrintAll(log), [], sep);
    assert PrintLog(log, sep) + [] == PrintLog(log, sep);
    forall i | 0 <= i < |log| ensures ParseEntry(PrintAll(log)[i]) == log[i] {
      EntryRoundTrip(log[i]);
    }
  }

  /** Whatever a parser returns has neither commas nor separators in its commands, and
      only characters of the text. */
  lemma ParsedClean(text: string, sep: char)
    ensures Without(ParseLog(text, sep), ',') && Without(ParseLog(text, sep), sep)
    ensures forall c :: c !in text ==> Without(ParseLog(text, sep), c)
  {
    var pieces := Split([], text, sep);
    SplitClean([], text, sep);
    forall i | 0 <= i < |pieces|
      ensures ',' !in ParseEntry(pieces[i]).command
      ensures forall c :: c in ParseEntry(pieces[i]).command ==> c in text && c != sep
    {
      BeforeClean(pieces[i], ',');
    }
  }

  /** The wire format gives a log back exactly when no command contains a comma or a
      semicolon. */
  lemma WireRoundTrip(log: Log)
    ensures ParseLog(PrintLog(log, WIRE), WIRE) == log <==> Without(log, ',') && Without(log, ';')
  {
    if Without(log, ',') && Without(log, ';') { LogRoundTrip(log, WIRE); }
    ParsedClean(PrintLog(log, WIRE), WIRE);
  }

  // ----- the persister file -----

  /** serialize. */
  function PrintState(p: Persisted): string {
    ToString(p.term) + [';'] + (ToString(p.votedFor) + [';'] + PrintLog(p.log, FILE))
  }

  /** The part of the file before its first NUL, which is all the parser sees. */
  function Visible(file: string): string {
    Before(file, NUL)
  }

  /** deserialize; the code reads the first three fields and has none to read in a
      shorter file. */
  function ParseState(file: string): Option<Persisted> {
    var fields := Split([], Visible(file), ';') + [Rest([], Visible(file), ';')];
    if |fields| < 3 then None
    else Some(Persisted(Atoi(fields[0]), Atoi(fields[1]), ParseLog(fields[2], FILE)))
  }

  /** Commands the persister format can carry (G7). */
  ghost predicate Storable(log: Log) {
    Without(log, ',') && Without(log, ';') && Without(log, '.') && Without(log, '\0')
  }

  lemma {:induction false} JoinChars(pieces: seq<string>, sep: char, c: char)
    requires c != sep && forall i :: 0 <= i < |pieces| ==> c !in pieces[i]
    ensures c !in Join(pieces, sep)
  {
    if pieces != [] { JoinChars(pieces[1..], sep, c); }
  }

  lemma PrintedLogChars(log: Log, c: char)
    requires Without(log, c) && c != FILE && c != ',' && c != '-' && !IsDigit(c)
    ensures c !in PrintLog(log, FILE)
  {
    PrintedClean(log, c);
    JoinChars(PrintAll(log), FILE, c);
  }

  lemma VisibleAll(s: string)
    requires NUL !in s
    ensures Visible(s) == s
  {
    BeforeAll(s, NUL);
  }

  lemma NumberChars(n: int)
    ensures ToString(n) != [] && ';' !in ToString(n) && NUL !in ToString(n)
  {
    ToStringChars(n);
  }

  /** The part of the file text in front of the log. */
  function Header(p: Persisted): string {
    ToString(p.term) + [';'] + (ToString(p.votedFor) + [';'])
  }

  /** The field of a file that the log is read from. */
  function LogField(text: string): string {
    (Split([], text, ';') + [Rest([], text, ';')])[0]
  }

  lemma {:induction false} VisibleSplit(a: string, b: string)
    requires NUL !in a
    ensures Visible(a + b) == a + Visible(b)
  {
    if a == [] {
      assert a + b == b;
    } else {
      assert (a + b)[1..] == a[1..] + b;
      VisibleSplit(a[1..], b);
      assert a == [a[0]] + a[1..];
    }
  }

  /** What a file reads as that starts with the header of a state: its term and vote,
      and the log of the next field. */
  lemma HeaderParsed(p: Persisted, text: string)
    ensures ParseState(Header(p) + text) ==
      Some(Persisted(p.term, p.votedFor, ParseLog(LogField(Visible(text)), FILE)))
  {
    var numbers := [ToString(p.term), ToString(p.votedFor)];
    NumberChars(p.term);
    NumberChars(p.votedFor);
    VisibleSplit(Header(p), text);
    assert Join(numbers, ';') == Header(p) by {
      assert numbers[1..] == [ToString(p.votedFor)] && numbers[1..][1..] == [];
      assert Join(numbers[1..], ';') == ToString(p.votedFor) + [';'] + [];
    }
    SplitJoin(numbers, Visible(text), ';');
    AtoiToString(p.term);
    AtoiToString(p.votedFor);
  }

  /** The same for a text without NUL, which is visible whole. */
  lemma WholeHeaderParsed(p: Persisted, text: string)
    requires NUL !in text
    ensures ParseState(Header(p) + text) == Some(Persisted(p.term, p.votedFor, ParseLog(LogField(text), FILE)))
  {
    VisibleAll(text);
    HeaderParsed(p, text);
  }

  lemma StoredRoundTrip(p: Persisted)
    requires Storable(p.log)
    ensures ParseState(PrintState(p)) == Some(p)
  {
    var log := PrintLog(p.log, FILE);
    PrintedLogChars(p.log, ';');
    PrintedLogChars(p.log, NUL);
    assert PrintState(p) == Header(p) + log;
    WholeHeaderParsed(p, log);
    SplitNone(log, ';');
    LogRoundTrip(p.log, FILE);
  }

  /** Any saved text has the three fields that reading it needs. */
  lemma SavedReads(p: Persisted)
    ensures ParseState(PrintState(p)).Some?
  {
    assert PrintState(p) == Header(p) + PrintLog(p.log, FILE);
    HeaderParsed(p, PrintLog(p.log, FILE));
  }

  /** A saved state reads back exactly when its commands avoid the format's four
      special characters. */
  lemma PersistenceRoundTrip(p: Persisted)
    ensures ParseState(PrintState(p)) == Some(p) <==> Storable(p.log)
  {
    if Storable(p.log) {
      StoredRoundTrip(p);
    }
    if ParseState(PrintState(p)) == Some(p) {
      var seen := Visible(PrintState(p));
      var fields := Split([], seen, ';') + [Rest([], seen, ';')];
      BeforeClean(PrintState(p), NUL);
      SplitClean([], seen, ';');
      assert fields[2] in Split([], seen, ';') || fields[2] == Rest([], seen, ';');
      assert ';' !in fields[2] && NUL !in fields[2];
      ParsedClean(fields[2], FILE);
    }
  }

  // ----- saving over an older file -----

  /** The file after a save: the open does not truncate, so a longer old content shows
      through behind the new text. */
  function WriteOver(file: string, text: string): string {
    if |file| <= |text| then text else text + file[|text|..]
  }
}
