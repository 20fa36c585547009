/** The MapReduce word count: map tasks append "word,1 " to files named by task and
    hash, a reduce task gathers the files of its number, adds the counts up and lists
    them by key. Whatever order the writes came in, the reducers together print what a
    sequential count of maximal letter runs gives. */
module WordCount {
  import opened Text
  import opened Tokens

  datatype KeyValue = KeyValue(key: string, value: string)

  // ----- map -----

  /** mapF. */
  method MapF(kv: KeyValue) returns (kvs: seq<KeyValue>)
    ensures |kvs| == |Words([], kv.value)|
    ensures forall i :: 0 <= i < |kvs| ==> kvs[i] == KeyValue(Words([], kv.value)[i], "1")
  {
    var words := SplitWords(kv.value);
    kvs := [];
    for i := 0 to |words|
      invariant |kvs| == i && forall k :: 0 <= k < i ==> kvs[k] == KeyValue(words[k], "1")
    {
      kvs := kvs + [KeyValue(words[i], "1")];
    }
  }

  function CharSum(word: string): int {
    if word == [] then 0 else word[0] as int - '0' as int + CharSum(word[1..])
  }

  /** The % of C++, which truncates toward zero. */
  function TruncMod(a: int, b: int): int
    requires b > 0
  {
    if a >= 0 then a % b else -((-a) % b)
  }

  function Hash(word: string, reducers: int): int
    requires reducers > 0
  {
    TruncMod(CharSum(word), reducers)
  }

  /** ihash. */
  method IHash(word: string, reducers: int) returns (h: int)
    requires reducers > 0
    ensures h == Hash(word, reducers)
  {
    var sum := 0;
    for i := 0 to |word|
      invariant sum + CharSum(word[i..]) == CharSum(word)
    {
      assert word[i..][1..] == word[i + 1..];
      sum := sum + (word[i] as int - '0' as int);
    }
    assert word[|word|..] == [];
    h := TruncMod(sum, reducers);
  }

  /** Every character counts with its distance from '0'. */
  lemma {:induction false} SumOfParts(a: string, b: string)
    ensures CharSum(a + b) == CharSum(a) + CharSum(b)
    ensures forall c :: CharSum([c]) == c as int - '0' as int
  {
    if a == [] {
      assert a + b == b;
    } else {
      assert (a + b)[1..] == a[1..] + b;
      SumOfParts(a[1..], b);
    }
  }

  lemma TakenOut(word: string, k: nat)
    requires k < |word|
    ensures var rest := word[..k] + word[k + 1..];
      CharSum(word) == CharSum(rest) + CharSum([word[k]]) && multiset(word) == multiset(rest) + multiset{word[k]}
  {
    var before, behind := word[..k], word[k + 1..];
    assert word == before + ([word[k]] + behind);
    SumOfParts(before, [word[k]] + behind);
    SumOfParts([word[k]], behind);
    SumOfParts(before, behind);
    assert multiset(before + ([word[k]] + behind)) == multiset(before + behind) + multiset{word[k]};
  }

  lemma Cancel(a: multiset<char>, b: multiset<char>, c: char)
    requires a + multiset{c} == b + multiset{c}
    ensures a == b
  {
    assert a == (a + multiset{c}) - multiset{c};
    assert b == (b + multiset{c}) - multiset{c};
  }

  /** So words of the same letters are counted by the same reducer. */
  lemma {:induction false} SameLettersSameReducer(a: string, b: string, reducers: int)
    requires reducers > 0 && multiset(a) == multiset(b)
    ensures CharSum(a) == CharSum(b) && Hash(a, reducers) == Hash(b, reducers)
    decreases |a|
  {
    if a != [] {
      assert a[0] in multiset(a);
      var k :| 0 <= k < |b| && b[k] == a[0];
      var rest, others := a[1..], b[..k] + b[k + 1..];
      TakenOut(a, 0);
      assert a[..0] + a[1..] == rest;
      TakenOut(b, k);
      Cancel(multiset(rest), multiset(others), a[0]);
      SameLettersSameReducer(rest, others, reducers);
    } else {
      assert |multiset(b)| == |b|;
    }
  }

  lemma {:induction false} LettersSumPositive(word: string)
    requires AllLetters(word)
    ensures CharSum(word) >= 0
  {
    if word != [] {
      assert IsLetter(word[0]);
      LettersSumPositive(word[1..]);
    }
  }

  /** A word is hashed to an existing reducer exactly when its character sum is not
      negative or is a multiple of the number of reducers; words of letters always are. */
  lemma HashInRangeIff(word: string, reducers: int)
    requires reducers > 0
    ensures 0 <= Hash(word, reducers) < reducers <==>
      CharSum(word) >= 0 || -CharSum(word) % reducers == 0
    ensures AllLetters(word) ==> 0 <= Hash(word, reducers) < reducers
  {
    if AllLetters(word) { LettersSumPositive(word); }
  }

  /** "!" has no reducer. */
  lemma PunctuationHasNoReducer()
    ensures Hash("!", 9) == -6
  {
    assert CharSum("!") == -15;
  }

  // ----- intermediate files -----

  type Files = map<string, string>

  const SPACE := ' '

  function FileName(task: nat, reducer: int): string {
    "mr-" + ToString(task) + "-" + ToString(reducer)
  }

  function TextOf(files: Files, name: string): string {
    if name in files then files[name] else []
  }

  function AppendTo(files: Files, name: string, text: string): Files {
    files[name := TextOf(files, name) + text]
  }

  /** One call of writeKV: which map task wrote which word. */
  datatype Write = Write(task: nat, word: string)

  function Target(w: Write, reducers: int): string
    requires reducers > 0
  {
    FileName(w.task, Hash(w.word, reducers))
  }

  function PrintPair(word: string): string { word + ",1" }

  /** The files after a series of writes. */
  function WriteAll(files: Files, ws: seq<Write>, reducers: int): Files
    requires reducers > 0
  {
    if ws == [] then files
    else
      var last := ws[|ws| - 1];
      AppendTo(WriteAll(files, ws[..|ws| - 1], reducers), Target(last, reducers), PrintPair(last.word) + [SPACE])
  }

  function Tagged(task: nat, kvs: seq<KeyValue>): (ws: seq<Write>)
    ensures |ws| == |kvs| && forall i :: 0 <= i < |kvs| ==> ws[i] == Write(task, kvs[i].key)
  {
    seq(|kvs|, i requires 0 <= i < |kvs| => Write(task, kvs[i].key))
  }

  /** A worker's directory. */
  class Directory {
    const reducers: int
    var files: Files

    constructor (reducers: int, files: Files)
      ensures this.reducers == reducers && this.files == files
    {
      this.reducers, this.files := reducers, files;
    }

    /** writeKV: the key, a fixed count of one, a blank. */
    method WriteKV(path: string, kv: KeyValue)
      modifies this`files
      ensures files == AppendTo(old(files), path, PrintPair(kv.key) + [SPACE])
    {
      var tmp := kv.key + ",1 ";
      assert tmp == PrintPair(kv.key) + [SPACE];
      if path !in files {
        assert [] + tmp == tmp;
        files := files[path := tmp];
      } else {
        files := files[path := files[path] + tmp];
      }
    }

    /** writeInDisk. */
    method WriteInDisk(kvs: seq<KeyValue>, task: nat)
      requires reducers > 0
      modifies this`files
      ensures files == WriteAll(old(files), Tagged(task, kvs), reducers)
    {
      ghost var ws := Tagged(task, kvs);
      for i := 0 to |kvs|
        modifies this`files
        invariant files == WriteAll(old(files), ws[..i], reducers)
      {
        var h := IHash(kvs[i].key, reducers);
        WriteKV(FileName(task, h), kvs[i]);
        assert ws[..i + 1][..i] == ws[..i];
      }
      assert ws[..|kvs|] == ws;
    }

    /** getAllfile over a directory listing. */
    method GetAllFile(listing: seq<string>, op: nat) returns (names: seq<string>)
      ensures names == SelectedNames(listing, op)
    {
      names := [];
      for i := 0 to |listing|
        invariant names == SelectedNames(listing[..i], op)
      {
        assert listing[..i + 1][..i] == listing[..i];
        if Selected(listing[i], op) { names := names + [listing[i]]; }
      }
      assert listing[..|listing|] == listing;
    }

    /** The reading half of Myshuffle. */
    method Gather(names: seq<string>) returns (hash: map<string, int>)
      ensures hash == AddPairs(map[], AllPairs(files, names))
    {
      hash := map[];
      for i := 0 to |names|
        invariant AddPairs(hash, AllPairs(files, names[i..])) == AddPairs(map[], AllPairs(files, names))
      {
        assert names[i..][1..] == names[i + 1..];
        var lines := Lines([], TextOf(files, names[i]));
        ghost var rest := AllPairs(files, names[i + 1..]);
        AddPairsSplit(hash, LinePairs(lines), rest);
        hash := AddLines(hash, lines);
      }
      assert names[|names|..] == [];
    }
  }

  ghost predicate NoRepeats(s: seq<string>) {
    forall i, j :: 0 <= i < j < |s| ==> s[i] != s[j]
  }

  /** The test of getAllfile: enough room before the number, "mr" in front, a dash
      right before the number. */
  predicate Selected(name: string, op: nat) {
    var cut := |name| - |ToString(op)|;
    cut >= 5 && name[0] == 'm' && name[1] == 'r' && name[cut - 1] == '-' && name[cut..] == ToString(op)
  }

  function SelectedNames(listing: seq<string>, op: nat): seq<string> {
    if listing == [] then []
    else
      var n := |listing| - 1;
      SelectedNames(listing[..n], op) + if Selected(listing[n], op) then [listing[n]] else []
  }

  lemma {:induction false} SelectedNamesHolds(listing: seq<string>, op: nat)
    ensures forall x :: x in SelectedNames(listing, op) <==> x in listing && Selected(x, op)
    ensures NoRepeats(listing) ==> NoRepeats(SelectedNames(listing, op))
  {
    if listing != [] {
      var n := |listing| - 1;
      SelectedNamesHolds(listing[..n], op);
      assert listing == listing[..n] + [listing[n]];
    }
  }

  /** A reducer takes a name exactly when it is "mr", two or more characters, a dash and the
      reducer's number; so "mr-out-0" is one of its inputs wherever it looks for them. */
  lemma SelectedIff(name: string, op: nat)
    ensures Selected(name, op) <==> exists middle :: |middle| >= 2 && name == Named(middle, op)
  {
    var cut := |name| - |ToString(op)|;
    if Selected(name, op) {
      assert name[..cut] == "mr" + name[2..cut - 1] + "-";
      assert name == name[..cut] + ToString(op);
      assert name == Named(name[2..cut - 1], op);
    }
    forall middle | |middle| >= 2 && name == Named(middle, op) ensures Selected(name, op) {
      NamedIsSelected(middle, op);
    }
  }

  function Named(middle: string, op: nat): string {
    ("mr" + middle + "-") + ToString(op)
  }

  lemma NamedIsSelected(middle: string, op: nat)
    requires |middle| >= 2
    ensures Selected(Named(middle, op), op)
  {
    var head := "mr" + middle + "-";
    assert Named(middle, op)[..|head|] == head && Named(middle, op)[|head|..] == ToString(op);
    assert head[0] == 'm' && head[1] == 'r' && head[|head| - 1] == '-';
  }

  lemma DigitsOnly(n: nat)
    ensures '-' !in ToString(n)
  {
    DigitsAreDigits(n);
  }

  /** Of the intermediate files, reducer op selects exactly its own. */
  lemma SelectsOwn(task: nat, reducer: nat, op: nat)
    ensures Selected(FileName(task, reducer), op) <==> reducer == op
  {
    var name, k, o := FileName(task, reducer), ToString(reducer), ToString(op);
    var head := "mr-" + ToString(task);
    DigitsOnly(op);
    DigitsOnly(reducer);
    assert name == head + ['-'] + k;
    if Selected(name, op) {
      var cut := |name| - |o|;
      assert name == name[..cut - 1] + ['-'] + o;
      LastDash(head, k, name[..cut - 1], o);
      ToStringInjective(reducer, op);
    }
  }

  lemma {:induction false} LastDash(a: string, k: string, b: string, o: string)
    requires a + ['-'] + k == b + ['-'] + o && '-' !in k && '-' !in o
    ensures k == o && a == b
    decreases |k|
  {
    var s, t := a + ['-'] + k, b + ['-'] + o;
    assert s[|s| - 1] == t[|t| - 1];
    if k != [] && o != [] {
      var k', o' := k[..|k| - 1], o[..|o| - 1];
      assert s[..|s| - 1] == a + ['-'] + k' && t[..|t| - 1] == b + ['-'] + o';
      LastDash(a, k', b, o');
      assert k == k' + [k[|k| - 1]] && o == o' + [o[|o| - 1]];
    } else {
      assert k == [] <==> s[|s| - 1] == '-';
      assert o == [] <==> t[|t| - 1] == '-';
      assert a == s[..|s| - 1] && b == t[..|t| - 1];
    }
  }

  // ----- reading back -----

  /** getline until the end of the file. */
  function Lines(tmp: string, text: string): seq<string>
    decreases |text|
  {
    if text == [] then Flush(tmp)
    else if text[0] == '\n' then [tmp] + Lines([], text[1..])
    else Lines(tmp + [text[0]], text[1..])
  }

  /** The text with a newline at its end. */
  function Ended(s: string): string {
    if s == [] || s[|s| - 1] == '\n' then s else s + ['\n']
  }

  lemma OneJoined(line: string)
    requires line != [] && '\n' !in line
    ensures Join([line], '\n') == Ended(line)
  {
    assert [line][1..] == [] && line + ['\n'] + [] == line + ['\n'];
  }

  lemma EndedBehind(tmp: string, text: string)
    requires text != [] && text[0] == '\n'
    ensures Ended(tmp + text) == tmp + ['\n'] + Ended(text[1..])
  {
    assert text == ['\n'] + text[1..];
    assert tmp + text == tmp + ['\n'] + text[1..];
  }

  /** The lines are the text cut at its newlines; only a last one may be missing. */
  lemma {:induction false} LinesJoin(tmp: string, text: string)
    requires '\n' !in tmp
    ensures Join(Lines(tmp, text), '\n') == Ended(tmp + text)
    ensures forall i :: 0 <= i < |Lines(tmp, text)| ==> '\n' !in Lines(tmp, text)[i]
    decreases |text|
  {
    if text == [] {
      assert tmp + text == tmp;
      if tmp != [] { OneJoined(tmp); }
    } else if text[0] == '\n' {
      LinesJoin([], text[1..]);
      assert [] + text[1..] == text[1..];
      EndedBehind(tmp, text);
    } else {
      LinesJoin(tmp + [text[0]], text[1..]);
      assert tmp + text == (tmp + [text[0]]) + text[1..];
    }
  }

  function LinePairs(lines: seq<string>): seq<string> {
    if lines == [] then [] else Split([], lines[0], SPACE) + LinePairs(lines[1..])
  }

  function AllPairs(files: Files, names: seq<string>): seq<string> {
    if names == [] then []
    else LinePairs(Lines([], TextOf(files, names[0]))) + AllPairs(files, names[1..])
  }

  /** hash[key] += stoi(value) for one "key,value". */
  function AddPair(hash: map<string, int>, pair: string): map<string, int> {
    var key := Before(pair, ',');
    var value := Atoi(if ',' in pair then After(pair, ',') else pair);
    hash[key := (if key in hash then hash[key] else 0) + value]
  }

  /** A pair adds its value to the count of its key and changes no other; a number without a
      comma is key and value at once. */
  lemma PairAddsValue(hash: map<string, int>, key: string, n: int)
    requires ',' !in key
    ensures AddPair(hash, key + [','] + ToString(n)) == hash[key := (if key in hash then hash[key] else 0) + n]
    ensures var s := ToString(n); AddPair(hash, s) == hash[s := (if s in hash then hash[s] else 0) + n]
  {
    CutAt(key, ',', ToString(n));
    AtoiToString(n);
    ToStringChars(n);
    BeforeAll(ToString(n), ',');
  }

  function AddPairs(hash: map<string, int>, pairs: seq<string>): map<string, int>
    decreases |pairs|
  {
    if pairs == [] then hash else AddPairs(AddPair(hash, pairs[0]), pairs[1..])
  }

  lemma {:induction false} AddPairsSplit(hash: map<string, int>, a: seq<string>, b: seq<string>)
    ensures AddPairs(hash, a + b) == AddPairs(AddPairs(hash, a), b)
    decreases |a|
  {
    if a == [] {
      assert a + b == b;
    } else {
      assert (a + b)[1..] == a[1..] + b;
      AddPairsSplit(AddPair(hash, a[0]), a[1..], b);
    }
  }

  method AddLines(hash: map<string, int>, lines: seq<string>) returns (sum: map<string, int>)
    ensures sum == AddPairs(hash, LinePairs(lines))
  {
    sum := hash;
    for i := 0 to |lines|
      invariant AddPairs(sum, LinePairs(lines[i..])) == AddPairs(hash, LinePairs(lines))
    {
      assert lines[i..][1..] == lines[i + 1..];
      var pairs := Split([], lines[i], SPACE);
      AddPairsSplit(sum, pairs, LinePairs(lines[i + 1..]));
      for j := 0 to |pairs|
        invariant AddPairs(AddPairs(sum, pairs[j..]), LinePairs(lines[i + 1..])) == AddPairs(hash, LinePairs(lines))
      {
        assert pairs[j..][1..] == pairs[j + 1..];
        sum := AddPair(sum, pairs[j]);
      }
      assert pairs[|pairs|..] == [];
    }
    assert lines[|lines|..] == [];
  }
}
