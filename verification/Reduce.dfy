/** The sorting half of Myshuffle, reduceF, and a whole reduce task: the lines it
    prints are, in ascending key order, exactly the reducer's words with their
    sequential counts. */
module Reduce {
  import opened Sets
  import opened Text
  import opened Tokens
  import opened WordCount
  import opened WordCountProof

  /** The order of std::string. */
  predicate Less(a: string, b: string) {
    b != [] && (a == [] || a[0] < b[0] || (a[0] == b[0] && Less(a[1..], b[1..])))
  }

  lemma {:induction false} LessTotal(a: string, b: string)
    ensures a == b || Less(a, b) || Less(b, a)
    ensures !(Less(a, b) && Less(b, a)) && !Less(a, a)
  {
    if a != [] && b != [] {
      assert a == [a[0]] + a[1..] && b == [b[0]] + b[1..];
      LessTotal(a[1..], b[1..]);
    }
    if a != [] { LessTotal(a[1..], a[1..]); }
  }

  lemma {:induction false} LessTrans(a: string, b: string, c: string)
    requires Less(a, b) && Less(b, c)
    ensures Less(a, c)
  {
    if a != [] && a[0] == b[0] && b[0] == c[0] { LessTrans(a[1..], b[1..], c[1..]); }
  }

  /** The first k characters agree, and then a ends or has the smaller character. */
  ghost predicate SmallerAt(a: string, b: string, k: int) {
    0 <= k <= |a| && k < |b| && a[..k] == b[..k] && (k == |a| || a[k] < b[k])
  }

  /** One string comes before another exactly when it is a proper prefix of it or has the
      smaller character where the two first differ. */
  lemma {:induction false} LessIff(a: string, b: string)
    ensures Less(a, b) <==> exists k :: SmallerAt(a, b, k)
  {
    if a == [] || b == [] || a[0] != b[0] {
      if Less(a, b) { assert SmallerAt(a, b, 0); }
      forall k | SmallerAt(a, b, k) ensures k == 0 {}
    } else {
      LessIff(a[1..], b[1..]);
      if Less(a, b) {
        var k :| SmallerAt(a[1..], b[1..], k);
        assert a[..k + 1] == [a[0]] + a[1..][..k] && b[..k + 1] == [b[0]] + b[1..][..k];
        assert SmallerAt(a, b, k + 1);
      }
      forall k | SmallerAt(a, b, k) ensures SmallerAt(a[1..], b[1..], k - 1) {
        assert a[1..][..k - 1] == a[..k][1..] && b[1..][..k - 1] == b[..k][1..];
      }
    }
  }

  ghost predicate Ascending(keys: seq<string>) {
    forall i :: 0 < i < |keys| ==> Less(keys[i - 1], keys[i])
  }

  /** In a strictly ascending list every earlier key is smaller, so none repeats. */
  lemma {:induction false} AscendingApart(keys: seq<string>, i: int, j: int)
    requires Ascending(keys) && 0 <= i < j < |keys|
    ensures Less(keys[i], keys[j]) && keys[i] != keys[j]
    decreases j
  {
    if i < j - 1 {
      AscendingApart(keys, i, j - 1);
      LessTrans(keys[i], keys[j - 1], keys[j]);
    }
    LessTotal(keys[i], keys[i]);
  }

  function InsertKey(key: string, keys: seq<string>): (r: seq<string>)
    requires Ascending(keys) && key !in keys
    ensures |r| == |keys| + 1 && Ascending(r) && forall k :: k in r <==> k == key || k in keys
    ensures r[0] == key || (keys != [] && r[0] == keys[0] && Less(r[0], key))
  {
    if keys == [] then [key]
    else
      LessTotal(key, keys[0]);
      assert forall k :: k in keys <==> k == keys[0] || k in keys[1..];
      if Less(key, keys[0]) then [key] + keys
      else [keys[0]] + InsertKey(key, keys[1..])
  }

  /** The keys of a hash map, taken in any order and sorted; also the order in which an
      ordered map is walked. */
  method SortedKeys(hash: map<string, int>) returns (keys: seq<string>)
    ensures Ascending(keys) && forall k :: k in keys <==> k in hash
  {
    keys := [];
    var rest := hash.Keys;
    while rest != {}
      invariant rest <= hash.Keys && Ascending(keys)
      invariant forall k :: k in keys <==> k in hash && k !in rest
      decreases |rest|
    {
      ghost var some := AnyMember(rest);
      var key :| key in rest;
      keys := InsertKey(key, keys);
      rest := rest - {key};
    }
  }

  function Keys(kvs: seq<KeyValue>): (r: seq<string>)
    ensures |r| == |kvs| && forall i :: 0 <= i < |kvs| ==> r[i] == kvs[i].key
  {
    seq(|kvs|, i requires 0 <= i < |kvs| => kvs[i].key)
  }

  /** kvs lists a hash map by ascending key, each count printed. */
  ghost predicate Prints(kvs: seq<KeyValue>, hash: map<string, int>) {
    && Ascending(Keys(kvs)) && (forall k :: k in Keys(kvs) <==> k in hash)
    && forall i :: 0 <= i < |kvs| ==> kvs[i].key in hash && kvs[i].value == ToString(hash[kvs[i].key])
  }

  /** Myshuffle. */
  method Shuffle(dir: Directory, listing: seq<string>, op: nat) returns (kvs: seq<KeyValue>)
    ensures Prints(kvs, AddPairs(map[], AllPairs(dir.files, SelectedNames(listing, op))))
  {
    var names := dir.GetAllFile(listing, op);
    var hash := dir.Gather(names);
    var keys := SortedKeys(hash);
    kvs := [];
    for i := 0 to |keys|
      invariant |kvs| == i
      invariant forall k :: 0 <= k < i ==> keys[k] in hash && kvs[k] == KeyValue(keys[k], ToString(hash[keys[k]]))
    {
      assert keys[i] in keys;
      kvs := kvs + [KeyValue(keys[i], ToString(hash[keys[i]]))];
    }
    assert Keys(kvs) == keys;
  }

  /** lines lists counts by ascending key. */
  ghost predicate ListsBy(lines: seq<string>, counts: map<string, int>, keys: seq<string>) {
    && Ascending(keys) && (forall k :: k in keys <==> k in counts) && |lines| == |keys|
    && forall i :: 0 <= i < |lines| ==> keys[i] in counts && lines[i] == keys[i] + " " + ToString(counts[keys[i]])
  }

  /** counts[key] += value. */
  function AddTo(counts: map<string, int>, key: string, value: int): map<string, int> {
    counts[key := (if key in counts then counts[key] else 0) + value]
  }

  /** Values that stoi reads back as what was printed. */
  ghost predicate Numbers(kvs: seq<KeyValue>) {
    forall i :: 0 <= i < |kvs| ==> kvs[i].value == ToString(Atoi(kvs[i].value))
  }

  /** The sum of the values listed for a key, wherever they stand. */
  ghost function SumOf(kvs: seq<KeyValue>, key: string): int {
    if kvs == [] then 0
    else
      var last := kvs[|kvs| - 1];
      SumOf(kvs[..|kvs| - 1], key) + if last.key == key then Atoi(last.value) else 0
  }

  /** The accumulating half of reduceF. */
  method AddUp(kvs: seq<KeyValue>) returns (counts: map<string, int>)
    requires Numbers(kvs)
    ensures forall k :: k in counts <==> k in Keys(kvs)
    ensures forall k :: k in counts ==> counts[k] == SumOf(kvs, k)
  {
    counts := map[];
    for i := 0 to |kvs|
      invariant IsSum(counts, kvs[..i])
    {
      AddedOneMore(counts, kvs, i);
      counts := AddTo(counts, kvs[i].key, Atoi(kvs[i].value));
    }
    assert kvs[..|kvs|] == kvs;
  }

  /** counts holds the sums of the listed keys and nothing else. */
  ghost predicate IsSum(counts: map<string, int>, kvs: seq<KeyValue>) {
    && (forall k :: k in counts <==> k in Keys(kvs))
    && (forall k :: SumOf(kvs, k) == if k in counts then counts[k] else 0)
  }

  lemma AddedOneMore(counts: map<string, int>, kvs: seq<KeyValue>, i: nat)
    requires i < |kvs| && IsSum(counts, kvs[..i])
    ensures IsSum(AddTo(counts, kvs[i].key, Atoi(kvs[i].value)), kvs[..i + 1])
  {
    assert Keys(kvs[..i + 1]) == Keys(kvs[..i]) + [kvs[i].key];
    assert kvs[..i + 1][..i] == kvs[..i];
  }

  /** The printing half of reduceF. */
  method PrintCounts(counts: map<string, int>) returns (lines: seq<string>)
    ensures exists keys :: ListsBy(lines, counts, keys)
  {
    var keys := SortedKeys(counts);
    lines := [];
    for i := 0 to |keys|
      invariant |lines| == i
      invariant forall k :: 0 <= k < i ==> keys[k] in counts && lines[k] == keys[k] + " " + ToString(counts[keys[k]])
    {
      assert keys[i] in keys;
      lines := lines + [keys[i] + " " + ToString(counts[keys[i]])];
    }
    assert ListsBy(lines, counts, keys);
  }

  /** lines lists every key once, in ascending order, with the sum of its values. */
  ghost predicate ListsSums(lines: seq<string>, kvs: seq<KeyValue>, keys: seq<string>) {
    && Ascending(keys) && (forall k :: k in keys <==> k in Keys(kvs)) && |lines| == |keys|
    && forall i :: 0 <= i < |lines| ==> lines[i] == keys[i] + " " + ToString(SumOf(kvs, keys[i]))
  }

  /** reduceF: keys may come in any order and more than once. */
  method ReduceF(kvs: seq<KeyValue>) returns (lines: seq<string>)
    requires Numbers(kvs)
    ensures exists keys :: ListsSums(lines, kvs, keys)
  {
    var counts := AddUp(kvs);
    lines := PrintCounts(counts);
    ghost var keys :| ListsBy(lines, counts, keys);
    assert ListsSums(lines, kvs, keys);
  }

  lemma {:induction false} NoSum(kvs: seq<KeyValue>, key: string)
    requires key !in Keys(kvs)
    ensures SumOf(kvs, key) == 0
  {
    if kvs != [] {
      var n := |kvs| - 1;
      assert Keys(kvs)[n] == kvs[n].key;
      assert Keys(kvs[..n]) == Keys(kvs)[..n];
      NoSum(kvs[..n], key);
    }
  }

  lemma {:induction false} SumOnce(kvs: seq<KeyValue>, i: nat)
    requires Ascending(Keys(kvs)) && i < |kvs|
    ensures SumOf(kvs, kvs[i].key) == Atoi(kvs[i].value)
    decreases |kvs|
  {
    var n := |kvs| - 1;
    var front := kvs[..n];
    assert Keys(front) == Keys(kvs)[..n];
    if i < n {
      AscendingApart(Keys(kvs), i, n);
      SumOnce(front, i);
      assert front[i] == kvs[i];
    } else {
      forall k | 0 <= k < n ensures Keys(front)[k] != kvs[n].key { AscendingApart(Keys(kvs), k, n); }
      NoSum(front, kvs[n].key);
    }
  }

  /** On a printed hash map each sum is the hash map's value. */
  lemma PrintedSums(kvs: seq<KeyValue>, hash: map<string, int>)
    requires Prints(kvs, hash)
    ensures Numbers(kvs) && forall k :: k in hash ==> SumOf(kvs, k) == hash[k]
  {
    forall i | 0 <= i < |kvs|
      ensures Atoi(kvs[i].value) == hash[kvs[i].key] && SumOf(kvs, kvs[i].key) == hash[kvs[i].key]
    {
      AtoiToString(hash[kvs[i].key]);
      SumOnce(kvs, i);
    }
    forall k | k in hash ensures SumOf(kvs, k) == hash[k] {
      assert k in Keys(kvs);
      var i :| 0 <= i < |kvs| && Keys(kvs)[i] == k;
    }
  }

  /** The lines of reducer j: the words hashed to it in ascending order, each with the
      number of times it was written. */
  ghost predicate WrittenReport(lines: seq<string>, ws: seq<Write>, reducers: int, j: nat, keys: seq<string>)
    requires reducers > 0
  {
    && Ascending(keys) && |lines| == |keys|
    && (forall w :: w in keys <==> Hash(w, reducers) == j && TimesWritten(ws, w) > 0)
    && forall i :: 0 <= i < |lines| ==> lines[i] == keys[i] + " " + ToString(TimesWritten(ws, keys[i]))
  }

  /** A reduce task prints what the map phase wrote for it. */
  method RunReducer(dir: Directory, listing: seq<string>, j: nat,
                    ghost files: Files, ghost ws: seq<Write>, ghost inputs: seq<string>)
    returns (lines: seq<string>)
    requires dir.reducers > 0 && CleanDirectory(files) && WritesWords(ws, inputs)
    requires dir.files == WriteAll(files, ws, dir.reducers)
    requires NoRepeats(listing) && forall x :: x in listing <==> x in dir.files
    ensures exists keys :: WrittenReport(lines, ws, dir.reducers, j, keys)
  {
    ghost var names := SelectedNames(listing, j);
    SelectedNamesHolds(listing, j);
    ghost var hash := AddPairs(map[], AllPairs(dir.files, names));
    var kvs := Shuffle(dir, listing, j);
    PrintedSums(kvs, hash);
    lines := ReduceF(kvs);
    ghost var keys :| ListsSums(lines, kvs, keys);
    forall w
      ensures w in keys <==> Hash(w, dir.reducers) == j && TimesWritten(ws, w) > 0
      ensures w in hash ==> hash[w] == TimesWritten(ws, w)
    {
      ReducerCounts(files, ws, inputs, dir.reducers, j, names, w);
    }
    assert WrittenReport(lines, ws, dir.reducers, j, keys);
  }
}
