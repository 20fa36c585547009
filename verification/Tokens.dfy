/** Splitting a text into words, against an independent definition of a word
    occurrence: a run of letters that cannot be extended on either side. */
module Tokens {
  import opened Sets

  predicate IsLetter(c: char) { 'A' <= c <= 'Z' || 'a' <= c <= 'z' }

  ghost predicate AllLetters(s: string) { forall i :: 0 <= i < |s| ==> IsLetter(s[i]) }

  function Flush(tmp: string): seq<string> {
    if |tmp| != 0 then [tmp] else []
  }

  /** The words of text; tmp is the word being read. */
  function Words(tmp: string, text: string): seq<string>
    decreases |text|
  {
    if text == [] then Flush(tmp)
    else if IsLetter(text[0]) then Words(tmp + [text[0]], text[1..])
    else Flush(tmp) + Words([], text[1..])
  }

  /** split of map_reduceFun.cpp. */
  method SplitWords(text: string) returns (words: seq<string>)
    ensures words == Words([], text)
  {
    words := [];
    var tmp := "";
    for i := 0 to |text|
      invariant words + Words(tmp, text[i..]) == Words([], text)
    {
      assert text[i..][1..] == text[i + 1..];
      if IsLetter(text[i]) {
        tmp := tmp + [text[i]];
      } else {
        if |tmp| != 0 { words := words + [tmp]; }
        tmp := "";
      }
    }
    assert text[|text|..] == [];
    if |tmp| != 0 { words := words + [tmp]; }
  }

  /** The letters from i to j cannot be extended on either side. */
  ghost predicate MaximalRun(text: string, i: int, j: int) {
    && 0 <= i < j <= |text|
    && (forall x :: i <= x < j ==> IsLetter(text[x]))
    && (i == 0 || !IsLetter(text[i - 1]))
    && (j == |text| || !IsLetter(text[j]))
  }

  /** word stands at position i as a maximal run of letters. */
  ghost predicate RunAt(text: string, i: int, word: string) {
    MaximalRun(text, i, i + |word|) && text[i..i + |word|] == word
  }

  ghost function Occurrences(text: string, word: string): set<int> {
    set i | 0 <= i < |text| && RunAt(text, i, word)
  }

  ghost function Shift(s: set<int>, k: int): set<int> {
    set i | i in s :: i + k
  }

  lemma {:induction false} ShiftSize(s: set<int>, k: int)
    ensures |Shift(s, k)| == |s|
  {
    if s == {} {
      assert Shift(s, k) == {};
    } else {
      var x := AnyMember(s);
      ShiftSize(s - {x}, k);
      forall y | y in Shift(s, k) ensures y in Shift(s - {x}, k) + {x + k} {
        assert y - k == x || y - k in s - {x};
      }
      forall y | y in Shift(s - {x}, k) ensures y in Shift(s, k) && y != x + k { assert y - k in s - {x}; }
      assert x + k in Shift(s, k);
      assert Shift(s, k) == Shift(s - {x}, k) + {x + k};
    }
  }

  /** The length of the run of letters text starts with. */
  ghost function RunLength(text: string): (k: nat)
    ensures k <= |text| && (forall x :: 0 <= x < k ==> IsLetter(text[x])) && (k < |text| ==> !IsLetter(text[k]))
  {
    if text == [] || !IsLetter(text[0]) then 0
    else
      assert forall x :: 1 <= x < |text| ==> text[x] == text[1..][x - 1];
      RunLength(text[1..]) + 1
  }

  lemma {:induction false} WordsSkipRun(tmp: string, run: string, rest: string)
    requires AllLetters(run)
    ensures Words(tmp, run + rest) == Words(tmp + run, rest)
    decreases |run|
  {
    if run == [] {
      assert run + rest == rest && tmp + run == tmp;
    } else {
      assert (run + rest)[1..] == run[1..] + rest && tmp + [run[0]] + run[1..] == tmp + run;
      WordsSkipRun(tmp + [run[0]], run[1..], rest);
    }
  }

  lemma RunMoves(text: string, k: nat, i: int, word: string)
    requires k < i <= |text| || (k == i <= |text| && (k == 0 || !IsLetter(text[k - 1])))
    ensures RunAt(text, i, word) <==> RunAt(text[k..], i - k, word)
  {
    assert forall x :: k <= x < |text| ==> text[x] == text[k..][x - k];
    if i + |word| <= |text| {
      assert text[k..][i - k..i - k + |word|] == text[i..i + |word|];
    }
    forall x | i <= x < i + |word| <= |text| ensures IsLetter(text[x]) <==> IsLetter(text[k..][x - k]) {}
  }

  /** Behind position k, at which no run can start, the occurrences are those of the
      remaining text. */
  lemma OccurrencesBehind(text: string, word: string, k: nat)
    requires k <= |text| && (k < |text| ==> !IsLetter(text[k]))
    ensures forall i :: k <= i ==> (i in Occurrences(text, word) <==> i - k in Occurrences(text[k..], word))
  {
    forall i | k <= i ensures i in Occurrences(text, word) <==> i - k in Occurrences(text[k..], word) {
      if k < i < |text| { RunMoves(text, k, i, word); }
    }
  }

  lemma OccurrencesAfterRun(text: string, word: string)
    requires text != [] && IsLetter(text[0])
    ensures var k := RunLength(text);
      Occurrences(text, word) ==
        (if word == text[..k] then {0} else {}) + Shift(Occurrences(text[k..], word), k)
  {
    var k := RunLength(text);
    var rest := Occurrences(text[k..], word);
    OccurrencesBehind(text, word, k);
    forall i | i in Occurrences(text, word) && 0 < i ensures i in Shift(rest, k) {
      assert i - k in rest;
    }
    forall i | i in Shift(rest, k) ensures i in Occurrences(text, word) {
      assert i - k in rest;
    }
  }

  lemma OccurrencesAfterGap(text: string, word: string)
    requires text != [] && !IsLetter(text[0])
    ensures Occurrences(text, word) == Shift(Occurrences(text[1..], word), 1)
  {
    var rest := Occurrences(text[1..], word);
    forall i | 0 < i <= |text| ensures RunAt(text, i, word) <==> RunAt(text[1..], i - 1, word) {
      RunMoves(text, 1, i, word);
    }
    forall i | i in Occurrences(text, word) ensures i in Shift(rest, 1) {
      assert i - 1 in rest;
    }
    forall i | i in Shift(rest, 1) ensures i in Occurrences(text, word) {
      assert i - 1 in rest;
    }
  }

  /** The tokenizer yields each word exactly as often as it occurs as a maximal run of
      letters. */
  lemma {:induction false} WordsAreMaximalRuns(text: string, word: string)
    ensures multiset(Words([], text))[word] == |Occurrences(text, word)|
    decreases |text|
  {
    if text == [] {
      assert Occurrences(text, word) == {};
    } else if !IsLetter(text[0]) {
      OccurrencesAfterGap(text, word);
      ShiftSize(Occurrences(text[1..], word), 1);
      WordsAreMaximalRuns(text[1..], word);
      assert Words([], text) == [] + Words([], text[1..]);
    } else {
      var k := RunLength(text);
      OccurrencesAfterRun(text, word);
      ShiftSize(Occurrences(text[k..], word), k);
      WordsAreMaximalRuns(text[k..], word);
      WordsStartWithRun(text);
      assert 0 !in Shift(Occurrences(text[k..], word), k);
    }
  }

  lemma WordsStartWithRun(text: string)
    requires text != [] && IsLetter(text[0])
    ensures var k := RunLength(text); k > 0 && Words([], text) == [text[..k]] + Words([], text[k..])
  {
    var k := RunLength(text);
    var run, rest := text[..k], text[k..];
    assert text == run + rest;
    WordsSkipRun([], run, rest);
    assert [] + run == run;
    WordsFlush(run, rest);
  }

  lemma WordsFlush(run: string, rest: string)
    requires run != [] && (rest == [] || !IsLetter(rest[0]))
    ensures Words(run, rest) == [run] + Words([], rest)
  {
    if rest != [] { assert Words([], rest) == [] + Words([], rest[1..]) == Words([], rest[1..]); }
  }

  /** The codes that ASCII gives to the letters. */
  predicate LetterCode(k: int) { 65 <= k <= 90 || 97 <= k <= 122 }

  ghost predicate InSomeWord(c: char, words: seq<string>) {
    exists k :: 0 <= k < |words| && c in words[k]
  }

  lemma InFirstOrLater(c: char, word: string, later: seq<string>)
    ensures InSomeWord(c, [word] + later) <==> c in word || InSomeWord(c, later)
  {
    var words := [word] + later;
    if c in word { assert c in words[0]; }
    if InSomeWord(c, later) {
      var k :| 0 <= k < |later| && c in later[k];
      assert c in words[k + 1];
    }
    if InSomeWord(c, words) {
      var k :| 0 <= k < |words| && c in words[k];
      if k > 0 { assert c in later[k - 1]; }
    }
  }

  lemma FlushedHas(c: char, tmp: string, later: seq<string>)
    ensures InSomeWord(c, Flush(tmp) + later) <==> c in tmp || InSomeWord(c, later)
  {
    if tmp == [] { assert Flush(tmp) + later == later; } else { InFirstOrLater(c, tmp, later); }
  }

  /** A character of the text is in some word exactly when its code is that of a letter, so
      no letter is lost and no digit, blank or sign is taken. */
  lemma {:induction false} InWordIff(tmp: string, text: string, c: char)
    ensures InSomeWord(c, Words(tmp, text)) <==> c in tmp || (c in text && LetterCode(c as int))
    decreases |text|
  {
    if text == [] {
      FlushedHas(c, tmp, []);
      assert Flush(tmp) + [] == Flush(tmp);
    } else {
      assert text == [text[0]] + text[1..];
      if IsLetter(text[0]) {
        InWordIff(tmp + [text[0]], text[1..], c);
      } else {
        InWordIff([], text[1..], c);
        FlushedHas(c, tmp, Words([], text[1..]));
      }
    }
  }

  lemma {:induction false} WordsAreLetters(tmp: string, text: string)
    requires AllLetters(tmp)
    ensures forall w :: w in Words(tmp, text) ==> w != [] && AllLetters(w)
    decreases |text|
  {
    if text != [] {
      if IsLetter(text[0]) { WordsAreLetters(tmp + [text[0]], text[1..]); } else { WordsAreLetters([], text[1..]); }
    }
  }
}
