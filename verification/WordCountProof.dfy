/** The distributed count equals the sequential one. */
module WordCountProof {
  import opened Text
  import opened Tokens
  import opened WordCount

  function PrintPairs(words: seq<string>): (r: seq<string>)
    ensures |r| == |words| && forall i :: 0 <= i < |words| ==> r[i] == PrintPair(words[i])
  {
    seq(|words|, i requires 0 <= i < |words| => PrintPair(words[i]))
  }

  ghost predicate LetterWords(words: seq<string>) {
    forall i :: 0 <= i < |words| ==> words[i] != [] && AllLetters(words[i])
  }

  // ----- one file -----

  /** The words that the writes put into one file. */
  ghost function Mine(ws: seq<Write>, name: string, reducers: int): seq<string>
    requires reducers > 0
  {
    if ws == [] then []
    else
      var last := ws[|ws| - 1];
      Mine(ws[..|ws| - 1], name, reducers) + if Target(last, reducers) == name then [last.word] else []
  }

  lemma JoinOneMore(words: seq<string>, w: string)
    ensures Join(PrintPairs(words + [w]), SPACE) == Join(PrintPairs(words), SPACE) + (PrintPair(w) + [SPACE])
  {
    assert PrintPairs(words + [w]) == PrintPairs(words) + [PrintPair(w)];
    JoinAppend(PrintPairs(words), [PrintPair(w)], SPACE);
    assert Join([PrintPair(w)], SPACE) == PrintPair(w) + [SPACE] + [];
  }

  lemma {:induction false} ContentIs(files: Files, ws: seq<Write>, name: string, reducers: int)
    requires reducers > 0 && name !in files
    ensures TextOf(WriteAll(files, ws, reducers), name) == Join(PrintPairs(Mine(ws, name, reducers)), SPACE)
    ensures name in WriteAll(files, ws, reducers) <==> Mine(ws, name, reducers) != []
  {
    if ws != [] {
      var before, last := ws[..|ws| - 1], ws[|ws| - 1];
      ContentIs(files, before, name, reducers);
      if Target(last, reducers) == name {
        JoinOneMore(Mine(before, name, reducers), last.word);
      } else {
        assert Mine(before, name, reducers) + [] == Mine(before, name, reducers);
      }
    }
  }

  lemma {:induction false} OneLine(tmp: string, text: string)
    requires '\n' !in text
    ensures Lines(tmp, text) == Flush(tmp + text)
    decreases |text|
  {
    if text == [] {
      assert tmp + text == tmp;
    } else {
      assert tmp + [text[0]] + text[1..] == tmp + text;
      OneLine(tmp + [text[0]], text[1..]);
    }
  }

  lemma PairChars(word: string)
    requires AllLetters(word)
    ensures forall c :: c in PrintPair(word) ==> IsLetter(c) || c == ',' || c == '1'
  {
    assert forall c :: c in word ==> IsLetter(c);
  }

  lemma {:induction false} JoinNoNewline(pieces: seq<string>)
    requires forall i :: 0 <= i < |pieces| ==> '\n' !in pieces[i]
    ensures '\n' !in Join(pieces, SPACE)
  {
    if pieces != [] { JoinNoNewline(pieces[1..]); }
  }

  /** Reading a file of printed pairs gives the pairs back. */
  lemma FileRoundTrip(words: seq<string>)
    requires LetterWords(words)
    ensures LinePairs(Lines([], Join(PrintPairs(words), SPACE))) == PrintPairs(words)
  {
    var pieces, text := PrintPairs(words), Join(PrintPairs(words), SPACE);
    forall i | 0 <= i < |pieces| ensures pieces[i] != [] && SPACE !in pieces[i] && '\n' !in pieces[i] {
      PairChars(words[i]);
    }
    JoinNoNewline(pieces);
    OneLine([], text);
    SplitJoin(pieces, [], SPACE);
    assert text + [] == text && [] + text == text;
    if text != [] {
      assert LinePairs([text]) == Split([], text, SPACE) + LinePairs([text][1..]);
      assert [text][1..] == [] && pieces + [] == pieces;
    }
  }

  lemma {:induction false} MineFrom(ws: seq<Write>, name: string, reducers: int)
    requires reducers > 0 && forall i :: 0 <= i < |ws| ==> ws[i].word != [] && AllLetters(ws[i].word)
    ensures LetterWords(Mine(ws, name, reducers))
  {
    if ws != [] { MineFrom(ws[..|ws| - 1], name, reducers); }
  }

  // ----- all files of a reducer -----

  ghost function Gathered(ws: seq<Write>, names: seq<string>, reducers: int): seq<string>
    requires reducers > 0
  {
    if names == [] then [] else Mine(ws, names[0], reducers) + Gathered(ws, names[1..], reducers)
  }

  lemma PrintPairsSplit(a: seq<string>, b: seq<string>)
    ensures PrintPairs(a + b) == PrintPairs(a) + PrintPairs(b)
  {}

  lemma {:induction false} AllPairsAre(files: Files, ws: seq<Write>, names: seq<string>, reducers: int)
    requires reducers > 0 && forall i :: 0 <= i < |ws| ==> ws[i].word != [] && AllLetters(ws[i].word)
    requires forall x :: x in names ==> x !in files
    ensures AllPairs(WriteAll(files, ws, reducers), names) == PrintPairs(Gathered(ws, names, reducers))
  {
    if names != [] {
      ContentIs(files, ws, names[0], reducers);
      MineFrom(ws, names[0], reducers);
      FileRoundTrip(Mine(ws, names[0], reducers));
      AllPairsAre(files, ws, names[1..], reducers);
      PrintPairsSplit(Mine(ws, names[0], reducers), Gathered(ws, names[1..], reducers));
    }
  }

  ghost function NameSet(names: seq<string>): set<string> {
    set x | x in names
  }

  /** The words whose file is among names. */
  ghost function InFiles(ws: seq<Write>, names: set<string>, reducers: int): seq<string>
    requires reducers > 0
  {
    if ws == [] then []
    else
      var last := ws[|ws| - 1];
      InFiles(ws[..|ws| - 1], names, reducers) + if Target(last, reducers) in names then [last.word] else []
  }

  lemma {:induction false} InFilesSplit(ws: seq<Write>, name: string, names: set<string>, reducers: int, w: string)
    requires reducers > 0 && name !in names
    ensures multiset(InFiles(ws, {name} + names, reducers))[w] ==
      multiset(Mine(ws, name, reducers))[w] + multiset(InFiles(ws, names, reducers))[w]
  {
    if ws != [] { InFilesSplit(ws[..|ws| - 1], name, names, reducers, w); }
  }

  lemma {:induction false} InNoFiles(ws: seq<Write>, reducers: int)
    requires reducers > 0
    ensures InFiles(ws, {}, reducers) == []
  {
    if ws != [] { InNoFiles(ws[..|ws| - 1], reducers); }
  }

  lemma {:induction false} GatheredBag(ws: seq<Write>, names: seq<string>, reducers: int, w: string)
    requires reducers > 0 && NoRepeats(names)
    ensures multiset(Gathered(ws, names, reducers))[w] == multiset(InFiles(ws, NameSet(names), reducers))[w]
  {
    if names == [] {
      InNoFiles(ws, reducers);
      assert NameSet(names) == {};
    } else {
      assert names == [names[0]] + names[1..];
      assert NameSet(names) == {names[0]} + NameSet(names[1..]);
      InFilesSplit(ws, names[0], NameSet(names[1..]), reducers, w);
      GatheredBag(ws, names[1..], reducers, w);
    }
  }

  ghost function WordList(ws: seq<Write>): seq<string> {
    if ws == [] then [] else WordList(ws[..|ws| - 1]) + [ws[|ws| - 1].word]
  }

  /** The files reducer j reads hold exactly the words hashed to j. */
  lemma {:induction false} InFilesByHash(ws: seq<Write>, names: set<string>, reducers: int, j: int, w: string)
    requires reducers > 0
    requires forall i :: 0 <= i < |ws| ==> (Target(ws[i], reducers) in names <==> Hash(ws[i].word, reducers) == j)
    ensures multiset(InFiles(ws, names, reducers))[w] ==
      if Hash(w, reducers) == j then multiset(WordList(ws))[w] else 0
  {
    if ws != [] {
      var last := ws[|ws| - 1];
      InFilesByHash(ws[..|ws| - 1], names, reducers, j, w);
      assert Target(last, reducers) in names <==> Hash(last.word, reducers) == j;
    }
  }

  // ----- counting -----

  ghost function Count(hash: map<string, int>, w: string): int {
    if w in hash then hash[w] else 0
  }

  lemma PairAdds(hash: map<string, int>, word: string)
    requires AllLetters(word)
    ensures AddPair(hash, PrintPair(word)) == hash[word := Count(hash, word) + 1]
  {
    assert forall c :: c in word ==> IsLetter(c);
    assert PrintPair(word) == word + [','] + "1";
    CutAt(word, ',', "1");
    assert ',' in PrintPair(word) by { assert PrintPair(word)[|word|] == ','; }
    assert "1" == Digits(1);
    AtoiToString(1);
  }

  lemma {:induction false} CountsAdd(hash: map<string, int>, words: seq<string>, w: string)
    requires LetterWords(words)
    ensures Count(AddPairs(hash, PrintPairs(words)), w) == Count(hash, w) + multiset(words)[w]
    ensures w in AddPairs(hash, PrintPairs(words)) <==> w in hash || w in words
    decreases |words|
  {
    if words != [] {
      PairAdds(hash, words[0]);
      assert PrintPairs(words)[1..] == PrintPairs(words[1..]);
      CountsAdd(AddPair(hash, PrintPair(words[0])), words[1..], w);
      assert words == [words[0]] + words[1..];
    }
  }

  lemma {:induction false} GatheredLetters(ws: seq<Write>, names: seq<string>, reducers: int)
    requires reducers > 0 && forall i :: 0 <= i < |ws| ==> ws[i].word != [] && AllLetters(ws[i].word)
    ensures LetterWords(Gathered(ws, names, reducers))
  {
    if names != [] {
      MineFrom(ws, names[0], reducers);
      GatheredLetters(ws, names[1..], reducers);
    }
  }

  // ----- the inputs -----

  /** The sequential reading: the words of all inputs. */
  ghost function AllWords(inputs: seq<string>): seq<string> {
    if inputs == [] then [] else Words([], inputs[0]) + AllWords(inputs[1..])
  }

  /** How often word occurs in the inputs as a maximal run of letters. */
  ghost function Total(inputs: seq<string>, word: string): nat {
    if inputs == [] then 0 else |Occurrences(inputs[0], word)| + Total(inputs[1..], word)
  }

  lemma {:induction false} AllWordsTotal(inputs: seq<string>, word: string)
    ensures multiset(AllWords(inputs))[word] == Total(inputs, word)
    ensures forall w :: w in AllWords(inputs) ==> w != [] && AllLetters(w)
  {
    if inputs != [] {
      WordsAreMaximalRuns(inputs[0], word);
      WordsAreLetters([], inputs[0]);
      AllWordsTotal(inputs[1..], word);
    }
  }

  /** The writes of any map phase, with tasks repeated after a time-out or cut short by a
      crash: nothing but words of the inputs. */
  ghost predicate WritesWords(ws: seq<Write>, inputs: seq<string>) {
    forall i :: 0 <= i < |ws| ==> ws[i].word in AllWords(inputs)
  }

  ghost function TimesWritten(ws: seq<Write>, w: string): nat {
    multiset(WordList(ws))[w]
  }

  /** No file left over from an earlier run can be taken for an intermediate file. */
  ghost predicate CleanDirectory(files: Files) {
    forall name, op: nat :: name in files ==> !Selected(name, op)
  }

  lemma {:induction false} WordListHas(ws: seq<Write>, i: int)
    requires 0 <= i < |ws|
    ensures ws[i].word in WordList(ws)
  {
    if i < |ws| - 1 { WordListHas(ws[..|ws| - 1], i); }
  }

  lemma WrittenLetters(ws: seq<Write>, inputs: seq<string>)
    requires WritesWords(ws, inputs)
    ensures forall i :: 0 <= i < |ws| ==> ws[i].word != [] && AllLetters(ws[i].word)
  {
    AllWordsTotal(inputs, []);
  }

  lemma {:induction false} TargetsExist(files: Files, ws: seq<Write>, reducers: int, i: int)
    requires reducers > 0 && 0 <= i < |ws|
    ensures Target(ws[i], reducers) in WriteAll(files, ws, reducers)
  {
    if i < |ws| - 1 { TargetsExist(files, ws[..|ws| - 1], reducers, i); }
  }

  /** The directory listing reducer j works from: its files, each once, in any order. */
  ghost predicate ListsReducer(names: seq<string>, files: Files, j: nat) {
    NoRepeats(names) && forall x :: x in names <==> x in files && Selected(x, j)
  }

  lemma NamesByHash(files: Files, ws: seq<Write>, inputs: seq<string>, reducers: int, j: nat, names: seq<string>)
    requires reducers > 0 && WritesWords(ws, inputs)
    requires ListsReducer(names, WriteAll(files, ws, reducers), j)
    ensures forall i :: 0 <= i < |ws| ==> (Target(ws[i], reducers) in names <==> Hash(ws[i].word, reducers) == j)
  {
    WrittenLetters(ws, inputs);
    forall i | 0 <= i < |ws| ensures Target(ws[i], reducers) in names <==> Hash(ws[i].word, reducers) == j {
      TargetsExist(files, ws, reducers, i);
      HashInRangeIff(ws[i].word, reducers);
      SelectsOwn(ws[i].task, Hash(ws[i].word, reducers), j);
    }
  }

  lemma NamesAreNew(files: Files, ws: seq<Write>, reducers: int, j: nat, names: seq<string>)
    requires reducers > 0 && CleanDirectory(files) && ListsReducer(names, WriteAll(files, ws, reducers), j)
    ensures forall x :: x in names ==> x !in files
  {}

  /** What reducer j counts from its files: every word hashed to it, as often as it was
      written, and nothing else. */
  lemma ReducerCounts(files: Files, ws: seq<Write>, inputs: seq<string>, reducers: int, j: nat, names: seq<string>,
                      w: string)
    requires reducers > 0 && CleanDirectory(files) && WritesWords(ws, inputs)
    requires ListsReducer(names, WriteAll(files, ws, reducers), j)
    ensures var hash := AddPairs(map[], AllPairs(WriteAll(files, ws, reducers), names));
      && (w in hash <==> Hash(w, reducers) == j && TimesWritten(ws, w) > 0)
      && (w in hash ==> hash[w] == TimesWritten(ws, w))
  {
    WrittenLetters(ws, inputs);
    NamesAreNew(files, ws, reducers, j, names);
    NamesByHash(files, ws, inputs, reducers, j, names);
    AllPairsAre(files, ws, names, reducers);
    var got := Gathered(ws, names, reducers);
    GatheredLetters(ws, names, reducers);
    GatheredBag(ws, names, reducers, w);
    InFilesByHash(ws, NameSet(names), reducers, j, w);
    CountsAdd(map[], got, w);
    assert w in got <==> multiset(got)[w] > 0;
  }

  /** Every word of the inputs is counted by exactly one reducer. */
  lemma OneReducerPerWord(inputs: seq<string>, reducers: int, w: string)
    requires reducers > 0 && Total(inputs, w) > 0
    ensures 0 <= Hash(w, reducers) < reducers
  {
    AllWordsTotal(inputs, w);
    assert w in multiset(AllWords(inputs));
    HashInRangeIff(w, reducers);
  }
}
