/** The map phase: every worker appends the words of its inputs to its own files. Workers
    write at the same time, may repeat an input after a time-out, and may still be writing
    when a reducer reads. */
module MapPhase {
  import opened Tokens
  import opened WordCount
  import opened WordCountProof

  /** A stretch of one worker's writes: of the words of an input, those from lo to hi. */
  datatype Chunk = Chunk(task: nat, input: nat, lo: nat, hi: nat)

  ghost predicate OfInput(c: Chunk, inputs: seq<string>) {
    c.input < |inputs| && c.lo <= c.hi <= |Words([], inputs[c.input])|
  }

  ghost predicate OfInputs(chunks: seq<Chunk>, inputs: seq<string>) {
    forall k :: 0 <= k < |chunks| ==> OfInput(chunks[k], inputs)
  }

  function ChunkWords(inputs: seq<string>, c: Chunk): seq<string>
    requires OfInput(c, inputs)
  {
    Words([], inputs[c.input])[c.lo..c.hi]
  }

  function WordWrites(task: nat, words: seq<string>): (ws: seq<Write>)
    ensures |ws| == |words| && forall i :: 0 <= i < |words| ==> ws[i] == Write(task, words[i])
  {
    seq(|words|, i requires 0 <= i < |words| => Write(task, words[i]))
  }

  /** Everything that has been written. */
  ghost function PhaseWrites(inputs: seq<string>, chunks: seq<Chunk>): seq<Write>
    requires OfInputs(chunks, inputs)
  {
    if chunks == [] then []
    else
      var last := chunks[|chunks| - 1];
      PhaseWrites(inputs, chunks[..|chunks| - 1]) + WordWrites(last.task, ChunkWords(inputs, last))
  }

  /** What all workers have written of input i. */
  ghost function Wrote(inputs: seq<string>, chunks: seq<Chunk>, i: nat): seq<string>
    requires OfInputs(chunks, inputs)
  {
    if chunks == [] then []
    else
      var last := chunks[|chunks| - 1];
      Wrote(inputs, chunks[..|chunks| - 1], i) + if last.input == i then ChunkWords(inputs, last) else []
  }

  /** What worker t has written of input i. */
  ghost function WroteBy(inputs: seq<string>, chunks: seq<Chunk>, t: nat, i: nat): seq<string>
    requires OfInputs(chunks, inputs)
  {
    if chunks == [] then []
    else
      var last := chunks[|chunks| - 1];
      WroteBy(inputs, chunks[..|chunks| - 1], t, i) +
      if last.input == i && last.task == t then ChunkWords(inputs, last) else []
  }

  /** Some worker has written input i from beginning to end, as the one that reported it has. */
  ghost predicate CompletedBy(inputs: seq<string>, chunks: seq<Chunk>, t: nat, i: nat)
    requires OfInputs(chunks, inputs) && i < |inputs|
  {
    Words([], inputs[i]) <= WroteBy(inputs, chunks, t, i)
  }

  ghost predicate IsCompleted(inputs: seq<string>, chunks: seq<Chunk>, i: nat)
    requires OfInputs(chunks, inputs) && i < |inputs|
  {
    exists t: nat :: CompletedBy(inputs, chunks, t, i)
  }

  ghost predicate Complete(inputs: seq<string>, chunks: seq<Chunk>)
    requires OfInputs(chunks, inputs)
  {
    forall i :: 0 <= i < |inputs| ==> IsCompleted(inputs, chunks, i)
  }

  lemma {:induction false} WriteAllSplit(files: Files, a: seq<Write>, b: seq<Write>, reducers: int)
    requires reducers > 0
    ensures WriteAll(files, a + b, reducers) == WriteAll(WriteAll(files, a, reducers), b, reducers)
    decreases |b|
  {
    if b == [] {
      assert a + b == a;
    } else {
      assert (a + b)[..|a + b| - 1] == a + b[..|b| - 1];
      WriteAllSplit(files, a, b[..|b| - 1], reducers);
    }
  }

  /** A stretch of mapWorker's turn: the pairs of its input that it appends meanwhile. */
  method RunChunk(dir: Directory, name: string, content: string, task: nat, lo: nat, hi: nat)
    requires dir.reducers > 0 && lo <= hi <= |Words([], content)|
    modifies dir`files
    ensures dir.files == WriteAll(old(dir.files), WordWrites(task, Words([], content)[lo..hi]), dir.reducers)
  {
    var kvs := MapF(KeyValue(name, content));
    assert Tagged(task, kvs[lo..hi]) == WordWrites(task, Words([], content)[lo..hi]);
    dir.WriteInDisk(kvs[lo..hi], task);
  }

  /** The writes of any workers, interleaved in any way. */
  method RunMaps(dir: Directory, names: seq<string>, inputs: seq<string>, chunks: seq<Chunk>)
    requires dir.reducers > 0 && |names| == |inputs| && OfInputs(chunks, inputs)
    modifies dir`files
    ensures dir.files == WriteAll(old(dir.files), PhaseWrites(inputs, chunks), dir.reducers)
  {
    for k := 0 to |chunks|
      modifies dir`files
      invariant dir.files == WriteAll(old(dir.files), PhaseWrites(inputs, chunks[..k]), dir.reducers)
    {
      var c := chunks[k];
      RunChunk(dir, names[c.input], inputs[c.input], c.task, c.lo, c.hi);
      assert chunks[..k + 1][..k] == chunks[..k];
      WriteAllSplit(old(dir.files), PhaseWrites(inputs, chunks[..k]),
                    WordWrites(c.task, ChunkWords(inputs, c)), dir.reducers);
    }
    assert chunks[..|chunks|] == chunks;
  }

  // ----- sums -----

  function Sum(s: seq<nat>): nat {
    if s == [] then 0 else Sum(s[..|s| - 1]) + s[|s| - 1]
  }

  lemma {:induction false} SumAdds(s: seq<nat>, i: nat, d: nat)
    requires i < |s|
    ensures Sum(s[i := s[i] + d]) == Sum(s) + d
  {
    var n := |s| - 1;
    if i < n {
      SumAdds(s[..n], i, d);
      assert s[i := s[i] + d][..n] == s[..n][i := s[..n][i] + d];
    } else {
      assert s[i := s[i] + d][..n] == s[..n];
    }
  }

  lemma {:induction false} SumAtLeast(s: seq<nat>, t: seq<nat>)
    requires |s| == |t| && forall i :: 0 <= i < |s| ==> s[i] >= t[i]
    ensures Sum(s) >= Sum(t) && (Sum(s) == Sum(t) <==> s == t)
  {
    if s != [] {
      var n := |s| - 1;
      SumAtLeast(s[..n], t[..n]);
      assert s == s[..n] + [s[n]] && t == t[..n] + [t[n]];
    }
  }

  lemma {:induction false} SumZeros(s: seq<nat>)
    requires forall i :: 0 <= i < |s| ==> s[i] == 0
    ensures Sum(s) == 0
  {
    if s != [] { SumZeros(s[..|s| - 1]); }
  }

  // ----- how often a word was written -----

  /** How often word was written for input i. */
  ghost function WrittenFor(inputs: seq<string>, chunks: seq<Chunk>, word: string, i: nat): nat
    requires OfInputs(chunks, inputs)
  {
    multiset(Wrote(inputs, chunks, i))[word]
  }

  ghost function WrittenCounts(inputs: seq<string>, chunks: seq<Chunk>, word: string): (counts: seq<nat>)
    requires OfInputs(chunks, inputs)
    ensures |counts| == |inputs|
    ensures forall i :: 0 <= i < |inputs| ==> counts[i] == WrittenFor(inputs, chunks, word, i)
  {
    seq(|inputs|, i requires 0 <= i < |inputs| => WrittenFor(inputs, chunks, word, i))
  }

  /** How often word occurs in each input. */
  ghost function TotalCounts(inputs: seq<string>, word: string): (counts: seq<nat>)
    ensures |counts| == |inputs|
    ensures forall i :: 0 <= i < |inputs| ==> counts[i] == multiset(Words([], inputs[i]))[word]
  {
    seq(|inputs|, i requires 0 <= i < |inputs| => multiset(Words([], inputs[i]))[word])
  }

  lemma {:induction false} WordListSplit(a: seq<Write>, b: seq<Write>)
    ensures WordList(a + b) == WordList(a) + WordList(b)
    decreases |b|
  {
    if b == [] {
      assert a + b == a;
    } else {
      assert (a + b)[..|a + b| - 1] == a + b[..|b| - 1];
      WordListSplit(a, b[..|b| - 1]);
    }
  }

  lemma {:induction false} WordListOf(task: nat, words: seq<string>)
    ensures WordList(WordWrites(task, words)) == words
    decreases |words|
  {
    if words != [] {
      var ws, front := WordWrites(task, words), words[..|words| - 1];
      assert ws[..|ws| - 1] == WordWrites(task, front);
      WordListOf(task, front);
      assert words == front + [words[|words| - 1]];
    }
  }

  lemma OneMoreFor(inputs: seq<string>, chunks: seq<Chunk>, word: string, i: nat)
    requires chunks != [] && OfInputs(chunks, inputs)
    ensures var front, last := chunks[..|chunks| - 1], chunks[|chunks| - 1];
      WrittenFor(inputs, chunks, word, i) ==
        WrittenFor(inputs, front, word, i) + if last.input == i then multiset(ChunkWords(inputs, last))[word] else 0
  {}

  lemma OneMoreChunk(inputs: seq<string>, chunks: seq<Chunk>, word: string)
    requires chunks != [] && OfInputs(chunks, inputs)
    ensures var front, last := chunks[..|chunks| - 1], chunks[|chunks| - 1];
      Sum(WrittenCounts(inputs, chunks, word)) ==
        Sum(WrittenCounts(inputs, front, word)) + multiset(ChunkWords(inputs, last))[word]
  {
    var front, last := chunks[..|chunks| - 1], chunks[|chunks| - 1];
    var before, after := WrittenCounts(inputs, front, word), WrittenCounts(inputs, chunks, word);
    var i, d := last.input, multiset(ChunkWords(inputs, last))[word];
    forall k | 0 <= k < |inputs| ensures after[k] == before[i := before[i] + d][k] {
      OneMoreFor(inputs, chunks, word, k);
    }
    assert after == before[i := before[i] + d];
    SumAdds(before, i, d);
  }

  /** Every word written was written for one of the inputs. */
  lemma {:induction false} PhaseCounts(inputs: seq<string>, chunks: seq<Chunk>, word: string)
    requires OfInputs(chunks, inputs)
    ensures TimesWritten(PhaseWrites(inputs, chunks), word) == Sum(WrittenCounts(inputs, chunks, word))
  {
    if chunks == [] {
      SumZeros(WrittenCounts(inputs, chunks, word));
    } else {
      var front, last := chunks[..|chunks| - 1], chunks[|chunks| - 1];
      PhaseCounts(inputs, front, word);
      WordListSplit(PhaseWrites(inputs, front), WordWrites(last.task, ChunkWords(inputs, last)));
      WordListOf(last.task, ChunkWords(inputs, last));
      OneMoreChunk(inputs, chunks, word);
    }
  }

  lemma {:induction false} SumCons(x: nat, s: seq<nat>)
    ensures Sum([x] + s) == x + Sum(s)
  {
    if s == [] {
      assert [x] + s == [x];
    } else {
      assert ([x] + s)[..|s|] == [x] + s[..|s| - 1];
      SumCons(x, s[..|s| - 1]);
    }
  }

  lemma {:induction false} TotalIsSum(inputs: seq<string>, word: string)
    ensures Total(inputs, word) == Sum(TotalCounts(inputs, word))
  {
    if inputs != [] {
      WordsAreMaximalRuns(inputs[0], word);
      TotalIsSum(inputs[1..], word);
      var rest := TotalCounts(inputs[1..], word);
      assert TotalCounts(inputs, word) == [multiset(Words([], inputs[0]))[word]] + rest;
      SumCons(multiset(Words([], inputs[0]))[word], rest);
    }
  }

  // ----- what a complete phase has written at least -----

  lemma {:induction false} WroteByIsWritten(inputs: seq<string>, chunks: seq<Chunk>, t: nat, i: nat)
    requires OfInputs(chunks, inputs)
    ensures multiset(WroteBy(inputs, chunks, t, i)) <= multiset(Wrote(inputs, chunks, i))
  {
    if chunks != [] { WroteByIsWritten(inputs, chunks[..|chunks| - 1], t, i); }
  }

  lemma CompletedIsWritten(inputs: seq<string>, chunks: seq<Chunk>, i: nat)
    requires OfInputs(chunks, inputs) && Complete(inputs, chunks) && i < |inputs|
    ensures multiset(Words([], inputs[i])) <= multiset(Wrote(inputs, chunks, i))
  {
    assert IsCompleted(inputs, chunks, i);
    var t: nat :| CompletedBy(inputs, chunks, t, i);
    PrefixBag(Words([], inputs[i]), WroteBy(inputs, chunks, t, i));
    WroteByIsWritten(inputs, chunks, t, i);
  }

  lemma PrefixBag(a: seq<string>, b: seq<string>)
    requires a <= b
    ensures multiset(a) <= multiset(b)
  {
    assert b == a + b[|a|..];
  }

  // ----- one reducer's share -----

  /** The words that are hashed to reducer j. */
  function For(words: seq<string>, reducers: int, j: nat): seq<string>
    requires reducers > 0
  {
    if words == [] then []
    else
      var last := words[|words| - 1];
      For(words[..|words| - 1], reducers, j) + if Hash(last, reducers) == j then [last] else []
  }

  lemma LastInBag(words: seq<string>)
    requires words != []
    ensures multiset(words) == multiset(words[..|words| - 1]) + multiset{words[|words| - 1]}
  {
    assert words == words[..|words| - 1] + [words[|words| - 1]];
  }

  lemma {:induction false} ForCounts(words: seq<string>, reducers: int, j: nat, w: string)
    requires reducers > 0
    ensures multiset(For(words, reducers, j))[w] == if Hash(w, reducers) == j then multiset(words)[w] else 0
  {
    if words != [] {
      ForCounts(words[..|words| - 1], reducers, j, w);
      LastInBag(words);
    }
  }

  /** As many words hashed to reducer j are on disk for input i as the input has. */
  ghost predicate ShareIsExact(inputs: seq<string>, chunks: seq<Chunk>, reducers: int, j: nat, i: nat)
    requires reducers > 0 && OfInputs(chunks, inputs) && i < |inputs|
  {
    |For(Wrote(inputs, chunks, i), reducers, j)| == |For(Words([], inputs[i]), reducers, j)|
  }

  ghost predicate NoneExtra(inputs: seq<string>, chunks: seq<Chunk>, reducers: int, j: nat)
    requires reducers > 0 && OfInputs(chunks, inputs)
  {
    forall i :: 0 <= i < |inputs| ==> ShareIsExact(inputs, chunks, reducers, j, i)
  }

  lemma SameSizeSameBag(a: seq<string>, b: seq<string>)
    requires multiset(a) <= multiset(b) && |a| == |b|
    ensures multiset(a) == multiset(b)
  {
    var more := multiset(b) - multiset(a);
    assert multiset(b) == multiset(a) + more;
    assert |multiset(b)| == |multiset(a)| + |more|;
  }

  /** If one input's share has the right size, it has the right words. */
  lemma ShareHasWords(inputs: seq<string>, chunks: seq<Chunk>, reducers: int, j: nat, i: nat, w: string)
    requires reducers > 0 && OfInputs(chunks, inputs) && Complete(inputs, chunks) && i < |inputs|
    requires ShareIsExact(inputs, chunks, reducers, j, i) && Hash(w, reducers) == j
    ensures SameFor(inputs, chunks, w, i)
  {
    var mine, all := For(Words([], inputs[i]), reducers, j), For(Wrote(inputs, chunks, i), reducers, j);
    CompletedIsWritten(inputs, chunks, i);
    forall v ensures multiset(mine)[v] <= multiset(all)[v] {
      ForCounts(Words([], inputs[i]), reducers, j, v);
      ForCounts(Wrote(inputs, chunks, i), reducers, j, v);
    }
    SameSizeSameBag(mine, all);
    ForCounts(Words([], inputs[i]), reducers, j, w);
    ForCounts(Wrote(inputs, chunks, i), reducers, j, w);
  }

  lemma WordsHaveShare(inputs: seq<string>, chunks: seq<Chunk>, reducers: int, j: nat, i: nat)
    requires reducers > 0 && OfInputs(chunks, inputs) && i < |inputs|
    requires forall w :: Hash(w, reducers) == j ==> SameFor(inputs, chunks, w, i)
    ensures ShareIsExact(inputs, chunks, reducers, j, i)
  {
    var mine, all := For(Words([], inputs[i]), reducers, j), For(Wrote(inputs, chunks, i), reducers, j);
    forall v ensures multiset(mine)[v] == multiset(all)[v] {
      ForCounts(Words([], inputs[i]), reducers, j, v);
      ForCounts(Wrote(inputs, chunks, i), reducers, j, v);
      if Hash(v, reducers) == j { assert SameFor(inputs, chunks, v, i); }
    }
    assert multiset(mine) == multiset(all);
    assert |mine| == |multiset(mine)| && |all| == |multiset(all)|;
  }

  ghost predicate SameFor(inputs: seq<string>, chunks: seq<Chunk>, w: string, i: nat)
    requires OfInputs(chunks, inputs) && i < |inputs|
  {
    WrittenFor(inputs, chunks, w, i) == multiset(Words([], inputs[i]))[w]
  }

  /** Word by word the counts are exact exactly when they are for every input. */
  lemma WordExactIff(inputs: seq<string>, chunks: seq<Chunk>, w: string)
    requires OfInputs(chunks, inputs) && Complete(inputs, chunks)
    ensures TimesWritten(PhaseWrites(inputs, chunks), w) == Total(inputs, w) <==>
      forall i :: 0 <= i < |inputs| ==> SameFor(inputs, chunks, w, i)
  {
    PhaseCounts(inputs, chunks, w);
    TotalIsSum(inputs, w);
    var written, total := WrittenCounts(inputs, chunks, w), TotalCounts(inputs, w);
    forall i | 0 <= i < |inputs| ensures written[i] >= total[i] { CompletedIsWritten(inputs, chunks, i); }
    SumAtLeast(written, total);
    forall i | 0 <= i < |inputs| ensures SameFor(inputs, chunks, w, i) <==> written[i] == total[i] {}
    assert written == total <==> forall i :: 0 <= i < |inputs| ==> written[i] == total[i];
  }

  /** Once some worker has completed every input, the words hashed to reducer j are on disk
      as often as they occur exactly when, for every input, no more of them are on disk
      than the input has. A worker that repeats an input after a time-out adds to that
      from its first write on. */
  lemma CountsExactIff(inputs: seq<string>, chunks: seq<Chunk>, reducers: int, j: nat)
    requires reducers > 0 && OfInputs(chunks, inputs) && Complete(inputs, chunks)
    ensures NoneExtra(inputs, chunks, reducers, j) <==>
      forall w :: Hash(w, reducers) == j ==> TimesWritten(PhaseWrites(inputs, chunks), w) == Total(inputs, w)
  {
    var n := |inputs|;
    forall w ensures TimesWritten(PhaseWrites(inputs, chunks), w) == Total(inputs, w) <==>
      forall i :: 0 <= i < n ==> SameFor(inputs, chunks, w, i)
    {
      WordExactIff(inputs, chunks, w);
    }
    if NoneExtra(inputs, chunks, reducers, j) {
      forall w, i | Hash(w, reducers) == j && 0 <= i < n ensures SameFor(inputs, chunks, w, i) {
        assert ShareIsExact(inputs, chunks, reducers, j, i);
        ShareHasWords(inputs, chunks, reducers, j, i, w);
      }
    }
    if forall w :: Hash(w, reducers) == j ==> TimesWritten(PhaseWrites(inputs, chunks), w) == Total(inputs, w) {
      forall i | 0 <= i < n ensures ShareIsExact(inputs, chunks, reducers, j, i) {
        WordsHaveShare(inputs, chunks, reducers, j, i);
      }
    }
  }

  lemma {:induction false} ForSplit(a: seq<string>, b: seq<string>, reducers: int, j: nat)
    requires reducers > 0
    ensures For(a + b, reducers, j) == For(a, reducers, j) + For(b, reducers, j)
    decreases |b|
  {
    if b == [] {
      assert a + b == a;
    } else {
      assert (a + b)[..|a + b| - 1] == a + b[..|b| - 1];
      ForSplit(a, b[..|b| - 1], reducers, j);
    }
  }

  /** Whatever words of its own a reducer finds from a worker that writes on after its input
      was completed, because it was only slow, make the reducer's counts wrong. */
  lemma LateWorkerOvercounts(inputs: seq<string>, chunks: seq<Chunk>, late: Chunk, reducers: int, j: nat)
    requires reducers > 0 && OfInputs(chunks, inputs) && Complete(inputs, chunks) && OfInput(late, inputs)
    requires For(ChunkWords(inputs, late), reducers, j) != []
    ensures OfInputs(chunks + [late], inputs) && !NoneExtra(inputs, chunks + [late], reducers, j)
  {
    var all, i := chunks + [late], late.input;
    assert all[..|all| - 1] == chunks;
    var before, words := Wrote(inputs, chunks, i), Words([], inputs[i]);
    ForSplit(before, ChunkWords(inputs, late), reducers, j);
    CompletedIsWritten(inputs, chunks, i);
    var mine, had := For(words, reducers, j), For(before, reducers, j);
    forall v ensures multiset(mine)[v] <= multiset(had)[v] {
      ForCounts(words, reducers, j, v);
      ForCounts(before, reducers, j, v);
    }
    SubBagSize(mine, had);
    assert !ShareIsExact(inputs, all, reducers, j, i);
  }

  lemma SubBagSize(a: seq<string>, b: seq<string>)
    requires multiset(a) <= multiset(b)
    ensures |a| <= |b|
  {
    assert multiset(b) == multiset(a) + (multiset(b) - multiset(a));
    assert |multiset(b)| == |multiset(a)| + |multiset(b) - multiset(a)|;
  }

  /** Only words of the inputs are written. */
  lemma {:induction false} PhaseWritesWords(inputs: seq<string>, chunks: seq<Chunk>)
    requires OfInputs(chunks, inputs)
    ensures WritesWords(PhaseWrites(inputs, chunks), inputs)
  {
    if chunks != [] {
      PhaseWritesWords(inputs, chunks[..|chunks| - 1]);
      InputWords(inputs, chunks[|chunks| - 1].input);
    }
  }

  lemma {:induction false} InputWords(inputs: seq<string>, i: nat)
    requires i < |inputs|
    ensures forall w :: w in Words([], inputs[i]) ==> w in AllWords(inputs)
  {
    if i > 0 { InputWords(inputs[1..], i - 1); }
  }
}
