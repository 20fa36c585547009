/** The whole job: map workers write, reducers read what is on disk when they start and
    append their lines to their output files. Any of them may be repeated after a time-out.
    The outputs are the sequential word count exactly when no reducer with words ran twice
    and none of them read a word too many. */
module WordCountJob {
  import opened Text
  import opened WordCount
  import opened WordCountProof
  import opened MapPhase
  import opened Reduce

  /** What happens next: a worker writes some pairs, or a reducer reads and prints. */
  datatype Event = MapWrites(chunk: Chunk) | ReduceRuns(reducer: nat)

  /** The writes among the events. */
  function MapPart(events: seq<Event>): seq<Chunk> {
    if events == [] then []
    else
      var last := events[|events| - 1];
      MapPart(events[..|events| - 1]) + if last.MapWrites? then [last.chunk] else []
  }

  /** How often reducer j ran. */
  function Reads(events: seq<Event>, j: nat): nat {
    if events == [] then 0
    else Reads(events[..|events| - 1], j) + if events[|events| - 1] == ReduceRuns(j) then 1 else 0
  }

  ghost predicate IsEvent(e: Event, inputs: seq<string>, reducers: int) {
    match e
    case MapWrites(c) => OfInput(c, inputs)
    case ReduceRuns(j) => j < reducers
  }

  ghost predicate AreEvents(events: seq<Event>, inputs: seq<string>, reducers: int) {
    forall k :: 0 <= k < |events| ==> IsEvent(events[k], inputs, reducers)
  }

  lemma {:induction false} MapPartIsOfInputs(events: seq<Event>, inputs: seq<string>, reducers: int)
    requires AreEvents(events, inputs, reducers)
    ensures OfInputs(MapPart(events), inputs)
  {
    if events != [] {
      MapPartIsOfInputs(events[..|events| - 1], inputs, reducers);
      assert IsEvent(events[|events| - 1], inputs, reducers);
    }
  }

  /** What is on disk after the events. */
  ghost function OnDisk(events: seq<Event>, inputs: seq<string>, reducers: int): seq<Write>
    requires AreEvents(events, inputs, reducers)
  {
    MapPartIsOfInputs(events, inputs, reducers);
    PhaseWrites(inputs, MapPart(events))
  }

  /** Every input was completed by some worker. */
  ghost predicate MapsDone(events: seq<Event>, inputs: seq<string>, reducers: int)
    requires AreEvents(events, inputs, reducers)
  {
    MapPartIsOfInputs(events, inputs, reducers);
    Complete(inputs, MapPart(events))
  }

  /** Reducers run only when the maps are done, as the master sees to. */
  ghost predicate ReducesAfterMaps(events: seq<Event>, inputs: seq<string>, reducers: int)
    requires AreEvents(events, inputs, reducers)
  {
    forall k :: 0 <= k < |events| && events[k].ReduceRuns? ==> MapsDone(events[..k], inputs, reducers)
  }

  /** The lines of reducer j in a sequential word count: its words in ascending order,
      each with its number of occurrences in the inputs. */
  ghost predicate SequentialReport(lines: seq<string>, inputs: seq<string>, reducers: int, j: nat, keys: seq<string>)
    requires reducers > 0
  {
    && IsKeyList(keys, inputs, reducers, j) && |lines| == |keys|
    && forall i :: 0 <= i < |lines| ==> lines[i] == keys[i] + " " + ToString(Total(inputs, keys[i]))
  }

  /** The words of the inputs that are hashed to reducer j, ascending. */
  ghost predicate IsKeyList(keys: seq<string>, inputs: seq<string>, reducers: int, j: nat)
    requires reducers > 0
  {
    Ascending(keys) && forall w :: w in keys <==> Hash(w, reducers) == j && Total(inputs, w) > 0
  }

  ghost predicate IsSequential(lines: seq<string>, inputs: seq<string>, reducers: int, j: nat)
    requires reducers > 0
  {
    exists keys :: SequentialReport(lines, inputs, reducers, j, keys)
  }

  ghost predicate Reports(lines: seq<string>, ws: seq<Write>, reducers: int, j: nat)
    requires reducers > 0
  {
    exists keys :: WrittenReport(lines, ws, reducers, j, keys)
  }

  /** output holds, one behind the other, what reducer j printed each time it ran. */
  ghost predicate Printed(output: seq<string>, events: seq<Event>, inputs: seq<string>, reducers: int, j: nat)
    requires reducers > 0 && AreEvents(events, inputs, reducers)
    decreases |events|, 0
  {
    if events == [] then output == []
    else
      var front := events[..|events| - 1];
      if events[|events| - 1] != ReduceRuns(j) then Printed(output, front, inputs, reducers, j)
      else exists n :: PrintedFrom(output, n, front, inputs, reducers, j)
  }

  ghost predicate PrintedFrom(output: seq<string>, n: int, front: seq<Event>, inputs: seq<string>, reducers: int,
                              j: nat)
    requires reducers > 0 && AreEvents(front, inputs, reducers)
    decreases |front|, 1
  {
    && 0 <= n <= |output| && Printed(output[..n], front, inputs, reducers, j)
    && Reports(output[n..], OnDisk(front, inputs, reducers), reducers, j)
  }

  /** Two ascending lists of the same keys are the same list. */
  lemma {:induction false} AscendingUnique(a: seq<string>, b: seq<string>)
    requires Ascending(a) && Ascending(b) && forall k :: k in a <==> k in b
    ensures a == b
    decreases |a|
  {
    if a == [] {
      assert forall i :: 0 <= i < |b| ==> b[i] in a;
    } else {
      assert a[0] in b;
      FirstIsLeast(a);
      FirstIsLeast(b);
      LessTotal(a[0], b[0]);
      RestHas(a);
      RestHas(b);
      AscendingUnique(a[1..], b[1..]);
      assert a == [a[0]] + a[1..] && b == [b[0]] + b[1..];
    }
  }

  lemma FirstIsLeast(a: seq<string>)
    requires Ascending(a) && a != []
    ensures forall k :: k in a ==> k == a[0] || Less(a[0], k)
  {
    forall k | k in a ensures k == a[0] || Less(a[0], k) {
      var i :| 0 <= i < |a| && a[i] == k;
      if i > 0 { AscendingApart(a, 0, i); }
    }
  }

  lemma RestHas(a: seq<string>)
    requires Ascending(a) && a != []
    ensures Ascending(a[1..]) && forall k :: k in a[1..] <==> k in a && k != a[0]
  {
    forall i | 0 < i < |a| ensures a[i] != a[0] { AscendingApart(a, 0, i); }
    forall k | k in a && k != a[0] ensures k in a[1..] {
      var i :| 0 <= i < |a| && a[i] == k;
      assert a[1..][i - 1] == k;
    }
  }

  lemma SameCount(key: string, a: int, b: int)
    requires key + " " + ToString(a) == key + " " + ToString(b)
    ensures a == b
  {
    assert ToString(a) == (key + " " + ToString(a))[|key| + 1..];
    assert ToString(b) == (key + " " + ToString(b))[|key| + 1..];
    ToStringInjective(a, b);
  }

  /** What is on disk is every word of the inputs, and no other word. */
  lemma WrittenIffOccurs(events: seq<Event>, inputs: seq<string>, reducers: int, w: string)
    requires AreEvents(events, inputs, reducers) && MapsDone(events, inputs, reducers)
    ensures TimesWritten(OnDisk(events, inputs, reducers), w) > 0 <==> Total(inputs, w) > 0
  {
    MapPartIsOfInputs(events, inputs, reducers);
    var chunks, ws := MapPart(events), OnDisk(events, inputs, reducers);
    PhaseCounts(inputs, chunks, w);
    TotalIsSum(inputs, w);
    var written, total := WrittenCounts(inputs, chunks, w), TotalCounts(inputs, w);
    forall i | 0 <= i < |inputs| ensures written[i] >= total[i] { CompletedIsWritten(inputs, chunks, i); }
    SumAtLeast(written, total);
    AllWordsTotal(inputs, w);
    PhaseWritesWords(inputs, chunks);
    if TimesWritten(ws, w) > 0 {
      assert w in WordList(ws);
      ListedIsWritten(ws, w);
    }
  }

  lemma {:induction false} ListedIsWritten(ws: seq<Write>, w: string)
    requires w in WordList(ws)
    ensures exists i :: 0 <= i < |ws| && ws[i].word == w
  {
    var n := |ws| - 1;
    if ws[n].word != w {
      ListedIsWritten(ws[..n], w);
      var i :| 0 <= i < n && ws[..n][i].word == w;
      assert ws[i].word == w;
    }
  }

  /** A report is sequential exactly when no input has too many of its words on disk. */
  lemma ReportIsSequentialIff(lines: seq<string>, events: seq<Event>, inputs: seq<string>, reducers: int, j: nat)
    requires reducers > 0 && AreEvents(events, inputs, reducers) && MapsDone(events, inputs, reducers)
    requires Reports(lines, OnDisk(events, inputs, reducers), reducers, j)
    ensures OfInputs(MapPart(events), inputs)
    ensures IsSequential(lines, inputs, reducers, j) <==> NoneExtra(inputs, MapPart(events), reducers, j)
  {
    MapPartIsOfInputs(events, inputs, reducers);
    var ws := OnDisk(events, inputs, reducers);
    var keys :| WrittenReport(lines, ws, reducers, j, keys);
    CountsExactIff(inputs, MapPart(events), reducers, j);
    forall w ensures TimesWritten(ws, w) > 0 <==> Total(inputs, w) > 0 {
      WrittenIffOccurs(events, inputs, reducers, w);
    }
    if forall w :: Hash(w, reducers) == j ==> TimesWritten(ws, w) == Total(inputs, w) {
      ExactReport(lines, ws, inputs, reducers, j, keys);
    }
    if IsSequential(lines, inputs, reducers, j) {
      var same :| SequentialReport(lines, inputs, reducers, j, same);
      SameReport(lines, ws, inputs, reducers, j, keys, same);
    }
  }

  lemma ExactReport(lines: seq<string>, ws: seq<Write>, inputs: seq<string>, reducers: int, j: nat, keys: seq<string>)
    requires reducers > 0 && WrittenReport(lines, ws, reducers, j, keys)
    requires forall w :: Hash(w, reducers) == j ==> TimesWritten(ws, w) == Total(inputs, w)
    ensures SequentialReport(lines, inputs, reducers, j, keys)
  {
    forall i | 0 <= i < |lines| ensures lines[i] == keys[i] + " " + ToString(Total(inputs, keys[i])) {
      assert keys[i] in keys;
    }
  }

  lemma SameReport(lines: seq<string>, ws: seq<Write>, inputs: seq<string>, reducers: int, j: nat,
                   keys: seq<string>, same: seq<string>)
    requires reducers > 0 && forall w :: TimesWritten(ws, w) > 0 <==> Total(inputs, w) > 0
    requires WrittenReport(lines, ws, reducers, j, keys) && SequentialReport(lines, inputs, reducers, j, same)
    ensures forall w :: Hash(w, reducers) == j ==> TimesWritten(ws, w) == Total(inputs, w)
  {
    AscendingUnique(keys, same);
    forall w | Hash(w, reducers) == j ensures TimesWritten(ws, w) == Total(inputs, w) {
      if w in keys {
        var i :| 0 <= i < |keys| && keys[i] == w;
        SameCount(w, TimesWritten(ws, w), Total(inputs, w));
      }
    }
  }

  // ----- repeated reducers -----

  /** Every run of a reducer prints one line for each of its words. */
  lemma ReportLength(lines: seq<string>, events: seq<Event>, inputs: seq<string>, reducers: int, j: nat,
                     keys: seq<string>)
    requires reducers > 0 && AreEvents(events, inputs, reducers) && MapsDone(events, inputs, reducers)
    requires Reports(lines, OnDisk(events, inputs, reducers), reducers, j) && IsKeyList(keys, inputs, reducers, j)
    ensures |lines| == |keys|
  {
    var same :| WrittenReport(lines, OnDisk(events, inputs, reducers), reducers, j, same);
    forall w ensures w in same <==> w in keys { WrittenIffOccurs(events, inputs, reducers, w); }
    AscendingUnique(same, keys);
  }

  lemma {:induction false} OutputLength(output: seq<string>, events: seq<Event>, inputs: seq<string>, reducers: int,
                                        j: nat, keys: seq<string>)
    requires reducers > 0 && AreEvents(events, inputs, reducers) && ReducesAfterMaps(events, inputs, reducers)
    requires Printed(output, events, inputs, reducers, j) && IsKeyList(keys, inputs, reducers, j)
    ensures |output| == Reads(events, j) * |keys|
    decreases |events|
  {
    if events != [] {
      var front := events[..|events| - 1];
      FrontAfterMaps(events, inputs, reducers);
      if events[|events| - 1] != ReduceRuns(j) {
        OutputLength(output, front, inputs, reducers, j, keys);
      } else {
        var n :| PrintedFrom(output, n, front, inputs, reducers, j);
        var before, last := output[..n], output[n..];
        OutputLength(before, front, inputs, reducers, j, keys);
        ReportLength(last, front, inputs, reducers, j, keys);
        OneMoreTime(Reads(front, j), |keys|);
        assert |output| == |before| + |last|;
      }
    }
  }

  lemma OneMoreTime(times: nat, each: nat)
    ensures (times + 1) * each == times * each + each
  {}

  lemma FrontAfterMaps(events: seq<Event>, inputs: seq<string>, reducers: int)
    requires events != [] && AreEvents(events, inputs, reducers) && ReducesAfterMaps(events, inputs, reducers)
    ensures var front := events[..|events| - 1];
      && AreEvents(front, inputs, reducers) && ReducesAfterMaps(front, inputs, reducers)
      && (events[|events| - 1].ReduceRuns? ==> MapsDone(front, inputs, reducers))
  {
    var front := events[..|events| - 1];
    forall k | 0 <= k < |front| && front[k].ReduceRuns? ensures MapsDone(front[..k], inputs, reducers) {
      assert front[..k] == events[..k] && front[k] == events[k];
    }
  }

  lemma {:induction false} NeverRan(output: seq<string>, events: seq<Event>, inputs: seq<string>, reducers: int, j: nat)
    requires reducers > 0 && AreEvents(events, inputs, reducers)
    requires Printed(output, events, inputs, reducers, j) && Reads(events, j) == 0
    ensures output == []
    decreases |events|
  {
    if events != [] {
      NeverRan(output, events[..|events| - 1], inputs, reducers, j);
    }
  }

  /** The events before the last run of reducer j. */
  ghost function BeforeRun(events: seq<Event>, j: nat): (before: seq<Event>)
    ensures before <= events
    ensures Reads(events, j) > 0 ==> |before| < |events| && events[|before|] == ReduceRuns(j)
  {
    if events == [] || events[|events| - 1] == ReduceRuns(j) then
      if events == [] then [] else events[..|events| - 1]
    else BeforeRun(events[..|events| - 1], j)
  }

  /** A reducer that ran once printed what was on disk then. */
  lemma {:induction false} RanOnce(output: seq<string>, events: seq<Event>, inputs: seq<string>, reducers: int, j: nat)
    requires reducers > 0 && AreEvents(events, inputs, reducers)
    requires Printed(output, events, inputs, reducers, j) && Reads(events, j) == 1
    ensures AreEvents(BeforeRun(events, j), inputs, reducers)
    ensures Reports(output, OnDisk(BeforeRun(events, j), inputs, reducers), reducers, j)
    decreases |events|
  {
    var front := events[..|events| - 1];
    if events[|events| - 1] != ReduceRuns(j) {
      RanOnce(output, front, inputs, reducers, j);
    } else {
      var n :| PrintedFrom(output, n, front, inputs, reducers, j);
      NeverRan(output[..n], front, inputs, reducers, j);
      assert output[n..] == output;
    }
  }

  /** Reducer j has no words, or ran once and then found no word of its own too often. */
  ghost predicate ReducerIsExact(events: seq<Event>, inputs: seq<string>, reducers: int, j: nat)
    requires reducers > 0 && AreEvents(events, inputs, reducers)
  {
    MapPartIsOfInputs(BeforeRun(events, j), inputs, reducers);
    || For(AllWords(inputs), reducers, j) == []
    || (Reads(events, j) == 1 && NoneExtra(inputs, MapPart(BeforeRun(events, j)), reducers, j))
  }

  lemma NoWordsIff(inputs: seq<string>, reducers: int, j: nat, keys: seq<string>)
    requires reducers > 0 && IsKeyList(keys, inputs, reducers, j)
    ensures keys == [] <==> For(AllWords(inputs), reducers, j) == []
  {
    var mine := For(AllWords(inputs), reducers, j);
    forall w ensures w in mine <==> w in keys {
      ForCounts(AllWords(inputs), reducers, j, w);
      AllWordsTotal(inputs, w);
      assert w in mine <==> multiset(mine)[w] > 0;
    }
    if keys != [] { assert keys[0] in mine; }
    if mine != [] { assert mine[0] in keys; }
  }

  /** The output of a reducer is the sequential one exactly when it has no words, or it
      ran once and found none of its words too often. */
  lemma OutputIsSequentialIff(output: seq<string>, events: seq<Event>, inputs: seq<string>, reducers: int, j: nat,
                              keys: seq<string>)
    requires reducers > 0 && AreEvents(events, inputs, reducers) && ReducesAfterMaps(events, inputs, reducers)
    requires Printed(output, events, inputs, reducers, j) && Reads(events, j) > 0
    requires IsKeyList(keys, inputs, reducers, j)
    ensures IsSequential(output, inputs, reducers, j) <==> ReducerIsExact(events, inputs, reducers, j)
  {
    OutputLength(output, events, inputs, reducers, j, keys);
    NoWordsIff(inputs, reducers, j, keys);
    if keys == [] {
      assert SequentialReport(output, inputs, reducers, j, keys);
    } else if Reads(events, j) == 1 {
      RanOnce(output, events, inputs, reducers, j);
      var before := BeforeRun(events, j);
      assert events[..|before|] == before;
      ReportIsSequentialIff(output, before, inputs, reducers, j);
    } else {
      TooLong(output, events, inputs, reducers, j, keys);
    }
  }

  lemma TooLong(output: seq<string>, events: seq<Event>, inputs: seq<string>, reducers: int, j: nat, keys: seq<string>)
    requires reducers > 0 && |output| == Reads(events, j) * |keys|
    requires Reads(events, j) > 1 && keys != [] && IsKeyList(keys, inputs, reducers, j)
    ensures !IsSequential(output, inputs, reducers, j)
  {
    forall same ensures !SequentialReport(output, inputs, reducers, j, same) {
      if IsKeyList(same, inputs, reducers, j) { AscendingUnique(same, keys); }
      assert Reads(events, j) * |keys| >= 2 * |keys|;
    }
  }

  /** opendir and readdir: every name once, in any order. */
  method ReadDirectory(dir: Directory) returns (listing: seq<string>)
    ensures NoRepeats(listing) && forall x :: x in listing <==> x in dir.files
  {
    var rest := dir.files.Keys;
    listing := [];
    while rest != {}
      invariant rest <= dir.files.Keys && NoRepeats(listing)
      invariant forall x :: x in listing <==> x in dir.files && x !in rest
    {
      var name :| name in rest;
      listing := listing + [name];
      rest := rest - {name};
    }
  }

  lemma PrintedOneMore(output: seq<string>, lines: seq<string>, events: seq<Event>, e: Event, inputs: seq<string>,
                       reducers: int, j: nat)
    requires reducers > 0 && AreEvents(events, inputs, reducers) && IsEvent(e, inputs, reducers)
    requires Printed(output, events, inputs, reducers, j)
    requires if e == ReduceRuns(j) then Reports(lines, OnDisk(events, inputs, reducers), reducers, j) else lines == []
    ensures AreEvents(events + [e], inputs, reducers)
    ensures Printed(output + lines, events + [e], inputs, reducers, j)
  {
    var all, longer := events + [e], output + lines;
    assert all[..|all| - 1] == events && all[|all| - 1] == e;
    if e == ReduceRuns(j) {
      assert longer[..|output|] == output && longer[|output|..] == lines;
      assert PrintedFrom(longer, |output|, events, inputs, reducers, j);
    } else {
      assert longer == output;
    }
  }

  lemma {:induction false} SomeKeys(output: seq<string>, events: seq<Event>, inputs: seq<string>, reducers: int, j: nat)
      returns (keys: seq<string>)
    requires reducers > 0 && AreEvents(events, inputs, reducers) && ReducesAfterMaps(events, inputs, reducers)
    requires Printed(output, events, inputs, reducers, j) && Reads(events, j) > 0
    ensures IsKeyList(keys, inputs, reducers, j)
    decreases |events|
  {
    var front := events[..|events| - 1];
    FrontAfterMaps(events, inputs, reducers);
    if events[|events| - 1] != ReduceRuns(j) {
      keys := SomeKeys(output, front, inputs, reducers, j);
    } else {
      var n :| PrintedFrom(output, n, front, inputs, reducers, j);
      keys :| WrittenReport(output[n..], OnDisk(front, inputs, reducers), reducers, j, keys);
      forall w ensures w in keys <==> Hash(w, reducers) == j && Total(inputs, w) > 0 {
        WrittenIffOccurs(front, inputs, reducers, w);
      }
    }
  }

  ghost predicate AllPrinted(outputs: seq<seq<string>>, events: seq<Event>, inputs: seq<string>, reducers: int)
    requires AreEvents(events, inputs, reducers) && 0 < reducers == |outputs|
  {
    forall j :: 0 <= j < reducers ==> Printed(outputs[j], events, inputs, reducers, j)
  }

  /** All outputs are sequential exactly when every reducer is exact. */
  lemma JobIsSequentialIff(outputs: seq<seq<string>>, events: seq<Event>, inputs: seq<string>, reducers: int)
    requires 0 < reducers == |outputs| && AreEvents(events, inputs, reducers)
    requires ReducesAfterMaps(events, inputs, reducers) && AllPrinted(outputs, events, inputs, reducers)
    requires forall j :: 0 <= j < reducers ==> Reads(events, j) > 0
    ensures (forall j :: 0 <= j < reducers ==> IsSequential(outputs[j], inputs, reducers, j)) <==>
      forall j :: 0 <= j < reducers ==> ReducerIsExact(events, inputs, reducers, j)
  {
    forall j | 0 <= j < reducers
      ensures IsSequential(outputs[j], inputs, reducers, j) <==> ReducerIsExact(events, inputs, reducers, j)
    {
      var keys := SomeKeys(outputs[j], events, inputs, reducers, j);
      OutputIsSequentialIff(outputs[j], events, inputs, reducers, j, keys);
    }
  }

  // ----- the job as it runs -----

  /** One run of a reducer: it reads the directory as it is and appends its lines. */
  method RunReduce(dir: Directory, outputs: seq<seq<string>>, ghost files: Files, ghost events: seq<Event>,
                   ghost inputs: seq<string>, j: nat)
    returns (longer: seq<seq<string>>)
    requires dir.reducers == |outputs| && j < dir.reducers && CleanDirectory(files)
    requires AreEvents(events, inputs, dir.reducers) && AllPrinted(outputs, events, inputs, dir.reducers)
    requires dir.files == WriteAll(files, OnDisk(events, inputs, dir.reducers), dir.reducers)
    ensures |longer| == |outputs| && AreEvents(events + [ReduceRuns(j)], inputs, dir.reducers)
    ensures AllPrinted(longer, events + [ReduceRuns(j)], inputs, dir.reducers)
  {
    MapPartIsOfInputs(events, inputs, dir.reducers);
    PhaseWritesWords(inputs, MapPart(events));
    var listing := ReadDirectory(dir);
    var lines := RunReducer(dir, listing, j, files, OnDisk(events, inputs, dir.reducers), inputs);
    longer := outputs[j := outputs[j] + lines];
    AllPrintedOneMore(outputs, lines, events, ReduceRuns(j), inputs, dir.reducers, j);
  }

  lemma AllPrintedOneMore(outputs: seq<seq<string>>, lines: seq<string>, events: seq<Event>, e: Event,
                          inputs: seq<string>, reducers: int, j: nat)
    requires 0 < reducers == |outputs| && j < reducers
    requires AreEvents(events, inputs, reducers) && IsEvent(e, inputs, reducers)
    requires AllPrinted(outputs, events, inputs, reducers)
    requires e.ReduceRuns? ==> e.reducer == j && Reports(lines, OnDisk(events, inputs, reducers), reducers, j)
    requires e.MapWrites? ==> lines == []
    ensures AreEvents(events + [e], inputs, reducers)
    ensures AllPrinted(outputs[j := outputs[j] + lines], events + [e], inputs, reducers)
  {
    assert forall k :: 0 <= k < |events| ==> (events + [e])[k] == events[k];
    var longer := outputs[j := outputs[j] + lines];
    forall i | 0 <= i < reducers ensures Printed(longer[i], events + [e], inputs, reducers, i) {
      if i == j {
        PrintedOneMore(outputs[j], lines, events, e, inputs, reducers, j);
      } else {
        PrintedOneMore(outputs[i], [], events, e, inputs, reducers, i);
        assert outputs[i] + [] == outputs[i];
      }
    }
  }

  /** A worker's next writes change what is on disk and no output. */
  method RunMapWrites(dir: Directory, names: seq<string>, inputs: seq<string>, ghost files: Files,
                      ghost outputs: seq<seq<string>>, ghost events: seq<Event>, c: Chunk)
    requires 0 < dir.reducers == |outputs| && |names| == |inputs| && OfInput(c, inputs)
    requires AreEvents(events, inputs, dir.reducers) && AllPrinted(outputs, events, inputs, dir.reducers)
    requires dir.files == WriteAll(files, OnDisk(events, inputs, dir.reducers), dir.reducers)
    modifies dir`files
    ensures AreEvents(events + [MapWrites(c)], inputs, dir.reducers)
    ensures AllPrinted(outputs, events + [MapWrites(c)], inputs, dir.reducers)
    ensures dir.files == WriteAll(files, OnDisk(events + [MapWrites(c)], inputs, dir.reducers), dir.reducers)
  {
    RunChunk(dir, names[c.input], inputs[c.input], c.task, c.lo, c.hi);
    ghost var ws, more := OnDisk(events, inputs, dir.reducers), WordWrites(c.task, ChunkWords(inputs, c));
    WriteAllSplit(files, ws, more, dir.reducers);
    AllPrintedOneMore(outputs, [], events, MapWrites(c), inputs, dir.reducers, 0);
    assert outputs[0] + [] == outputs[0] && outputs[0 := outputs[0]] == outputs;
    OnDiskOneMore(events, c, inputs, dir.reducers);
  }

  lemma OnDiskOneMore(events: seq<Event>, c: Chunk, inputs: seq<string>, reducers: int)
    requires AreEvents(events, inputs, reducers) && OfInput(c, inputs)
    requires AreEvents(events + [MapWrites(c)], inputs, reducers)
    ensures OnDisk(events + [MapWrites(c)], inputs, reducers) ==
      OnDisk(events, inputs, reducers) + WordWrites(c.task, ChunkWords(inputs, c))
  {
    var all := events + [MapWrites(c)];
    assert all[..|all| - 1] == events;
    MapPartIsOfInputs(events, inputs, reducers);
    MapPartIsOfInputs(all, inputs, reducers);
    var chunks := MapPart(all);
    assert chunks[..|chunks| - 1] == MapPart(events) && chunks[|chunks| - 1] == c;
  }

  /** The job, event by event in any order in which reducers start after the maps are done:
      its outputs are the sequential word count exactly when every reducer is exact. */
  method CountWords(dir: Directory, names: seq<string>, inputs: seq<string>, events: seq<Event>)
    returns (outputs: seq<seq<string>>)
    requires dir.reducers > 0 && CleanDirectory(dir.files) && |names| == |inputs|
    requires AreEvents(events, inputs, dir.reducers) && ReducesAfterMaps(events, inputs, dir.reducers)
    requires forall j :: 0 <= j < dir.reducers ==> Reads(events, j) > 0
    modifies dir`files
    ensures |outputs| == dir.reducers
    ensures (forall j :: 0 <= j < dir.reducers ==> IsSequential(outputs[j], inputs, dir.reducers, j)) <==>
      forall j :: 0 <= j < dir.reducers ==> ReducerIsExact(events, inputs, dir.reducers, j)
  {
    outputs := seq(dir.reducers, _ => []);
    for k := 0 to |events|
      modifies dir`files
      invariant |outputs| == dir.reducers && AreEvents(events[..k], inputs, dir.reducers)
      invariant AllPrinted(outputs, events[..k], inputs, dir.reducers)
      invariant dir.files == WriteAll(old(dir.files), OnDisk(events[..k], inputs, dir.reducers), dir.reducers)
    {
      NextEvent(events, k);
      assert IsEvent(events[k], inputs, dir.reducers);
      match events[k] {
        case MapWrites(c) =>
          RunMapWrites(dir, names, inputs, old(dir.files), outputs, events[..k], c);
        case ReduceRuns(j) =>
          ReduceWritesNothing(events[..k], j, inputs, dir.reducers);
          outputs := RunReduce(dir, outputs, old(dir.files), events[..k], inputs, j);
      }
    }
    assert events[..|events|] == events;
    JobIsSequentialIff(outputs, events, inputs, dir.reducers);
  }

  lemma NextEvent(events: seq<Event>, k: nat)
    requires k < |events|
    ensures events[..k + 1] == events[..k] + [events[k]]
  {}

  lemma ReduceWritesNothing(events: seq<Event>, j: nat, inputs: seq<string>, reducers: int)
    requires AreEvents(events, inputs, reducers) && j < reducers
    ensures AreEvents(events + [ReduceRuns(j)], inputs, reducers)
    ensures OnDisk(events + [ReduceRuns(j)], inputs, reducers) == OnDisk(events, inputs, reducers)
  {
    var all := events + [ReduceRuns(j)];
    assert all[..|all| - 1] == events;
    assert forall k :: 0 <= k < |events| ==> all[k] == events[k];
    MapPartIsOfInputs(events, inputs, reducers);
    assert MapPart(all) == MapPart(events);
  }
}
