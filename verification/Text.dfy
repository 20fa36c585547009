/** Text primitives shared by the log, persister and intermediate-file formats:
    decimal numbers, splitting at a separator, cutting at the first separator. */
module Text {

  predicate IsDigit(c: char) { '0' <= c <= '9' }

  function DigitValue(c: char): nat
    requires IsDigit(c)
  {
    c as int - '0' as int
  }

  function DigitChar(d: nat): (c: char)
    requires d < 10
    ensures IsDigit(c) && DigitValue(c) == d
  {
    ('0' as int + d) as char
  }

  function Digits(n: nat): (s: string)
    ensures s != []
  {
    if n < 10 then [DigitChar(n)] else Digits(n / 10) + [DigitChar(n % 10)]
  }

  /** std::to_string. */
  function ToString(n: int): (s: string)
    ensures s != []
  {
    if n < 0 then ['-'] + Digits(-n) else Digits(n)
  }

  ghost function Power(k: nat): nat {
    if k == 0 then 1 else 10 * Power(k - 1)
  }

  /** A number is printed with at most k digits exactly when it is below the k-th power of
      ten. */
  lemma {:induction false} DigitsIff(n: nat, k: nat)
    requires k > 0
    ensures |Digits(n)| <= k <==> n < Power(k)
  {
    if k == 1 {
      assert Power(1) == 10 * Power(0);
    } else if n >= 10 {
      DigitsIff(n / 10, k - 1);
    } else {
      assert Power(k) >= 10 by { PowerGrows(k); }
    }
  }

  lemma {:induction false} PowerGrows(k: nat)
    requires k > 0
    ensures Power(k) >= 10
  {
    if k > 1 { PowerGrows(k - 1); }
  }

  /** The value of the leading digits of s, continuing from acc. */
  function Accumulate(acc: nat, s: string): nat
    decreases |s|
  {
    if s == [] || !IsDigit(s[0]) then acc
    else Accumulate(10 * acc + DigitValue(s[0]), s[1..])
  }

  /** The blanks of isspace: the space and the codes from tab to carriage return. */
  predicate IsSpace(c: char) { c == ' ' || 9 <= c as int <= 13 }

  /** atoi: blanks, an optional sign, then as many digits as there are. */
  function Atoi(s: string): int
    decreases |s|
  {
    if s == [] then 0
    else if IsSpace(s[0]) then Atoi(s[1..])
    else if s[0] == '-' then 0 - Accumulate(0, s[1..]) as int
    else if s[0] == '+' then Accumulate(0, s[1..])
    else Accumulate(0, s)
  }

  ghost predicate AllDigits(s: string) { forall i :: 0 <= i < |s| ==> IsDigit(s[i]) }

  lemma {:induction false} DigitsAreDigits(n: nat)
    ensures AllDigits(Digits(n))
  {
    if n >= 10 { DigitsAreDigits(n / 10); }
  }

  lemma {:induction false} AccumulateLast(acc: nat, s: string, c: char)
    requires AllDigits(s) && IsDigit(c)
    ensures Accumulate(acc, s + [c]) == 10 * Accumulate(acc, s) + DigitValue(c)
    decreases |s|
  {
    if s == [] {
      assert ([c])[1..] == [];
    } else {
      assert (s + [c])[1..] == s[1..] + [c];
      AccumulateLast(10 * acc + DigitValue(s[0]), s[1..], c);
    }
  }

  lemma {:induction false} AccumulateDigits(n: nat)
    ensures Accumulate(0, Digits(n)) == n
  {
    if n < 10 {
      assert Digits(n)[1..] == [];
    } else {
      DigitsAreDigits(n / 10);
      AccumulateLast(0, Digits(n / 10), DigitChar(n % 10));
      AccumulateDigits(n / 10);
    }
  }

  /** Reading back a printed number gives the number. */
  lemma AtoiToString(n: int)
    ensures Atoi(ToString(n)) == n
  {
    if n < 0 {
      AccumulateDigits(-n);
      assert ToString(n)[1..] == Digits(-n);
    } else {
      DigitsAreDigits(n);
      AccumulateDigits(n);
      assert IsDigit(Digits(n)[0]);
    }
  }

  lemma {:induction false} AccumulateStops(acc: nat, s: string, tail: string)
    requires AllDigits(s) && (tail == [] || !IsDigit(tail[0]))
    ensures Accumulate(acc, s + tail) == Accumulate(acc, s)
    decreases |s|
  {
    if s == [] {
      assert s + tail == tail;
    } else {
      assert (s + tail)[1..] == s[1..] + tail;
      AccumulateStops(10 * acc + DigitValue(s[0]), s[1..], tail);
    }
  }

  lemma DigitsThenTail(k: nat, tail: string)
    requires tail == [] || !IsDigit(tail[0])
    ensures Accumulate(0, Digits(k) + tail) == k && IsDigit(Digits(k)[0])
  {
    DigitsAreDigits(k);
    AccumulateDigits(k);
    AccumulateStops(0, Digits(k), tail);
  }

  lemma AtoiSigned(digits: string)
    ensures Atoi(['-'] + digits) == 0 - Accumulate(0, digits) as int && Atoi(['+'] + digits) == Accumulate(0, digits)
  {
    assert (['-'] + digits)[1..] == digits && (['+'] + digits)[1..] == digits;
  }

  lemma AtoiUnsigned(digits: string)
    requires digits != [] && IsDigit(digits[0])
    ensures Atoi(digits) == Accumulate(0, digits)
  {}

  lemma {:induction false} AtoiBlanks(blanks: string, s: string)
    requires forall i :: 0 <= i < |blanks| ==> IsSpace(blanks[i])
    ensures Atoi(blanks + s) == Atoi(s)
    decreases |blanks|
  {
    if blanks == [] {
      assert blanks + s == s;
    } else {
      assert (blanks + s)[1..] == blanks[1..] + s;
      AtoiBlanks(blanks[1..], s);
    }
  }

  lemma NegativeText(n: int, tail: string)
    requires n < 0
    ensures ToString(n) + tail == ['-'] + (Digits(-n) + tail)
  {}

  /** Blanks and a plus sign before a printed number, and anything behind it that is no digit,
      are ignored. */
  lemma AtoiIgnores(blanks: string, n: int, tail: string)
    requires (forall i :: 0 <= i < |blanks| ==> IsSpace(blanks[i])) && (tail == [] || !IsDigit(tail[0]))
    ensures Atoi(blanks + (ToString(n) + tail)) == n
    ensures n >= 0 ==> Atoi(blanks + (['+'] + (ToString(n) + tail))) == n
  {
    AtoiBlanks(blanks, ToString(n) + tail);
    if n < 0 {
      DigitsThenTail(-n, tail);
      NegativeText(n, tail);
      AtoiSigned(Digits(-n) + tail);
    } else {
      AtoiBlanks(blanks, ['+'] + (ToString(n) + tail));
      DigitsThenTail(n, tail);
      AtoiUnsigned(Digits(n) + tail);
      AtoiSigned(Digits(n) + tail);
    }
  }

  lemma ToStringChars(n: int)
    ensures forall c :: c in ToString(n) ==> c == '-' || IsDigit(c)
  {
    DigitsAreDigits(if n < 0 then -n else n);
  }

  /** Printing is injective. */
  lemma ToStringInjective(a: int, b: int)
    requires ToString(a) == ToString(b)
    ensures a == b
  {
    AtoiToString(a);
    AtoiToString(b);
  }

  /** The non-empty pieces of s that a separator ends; tmp is the piece being read. */
  function Split(tmp: string, s: string, sep: char): seq<string>
    decreases |s|
  {
    if s == [] then []
    else if s[0] != sep then Split(tmp + [s[0]], s[1..], sep)
    else (if tmp != [] then [tmp] else []) + Split([], s[1..], sep)
  }

  /** What is left after the last separator. */
  function Rest(tmp: string, s: string, sep: char): string
    decreases |s|
  {
    if s == [] then tmp
    else if s[0] != sep then Rest(tmp + [s[0]], s[1..], sep)
    else Rest([], s[1..], sep)
  }

  /** The pieces, each followed by the separator. */
  function Join(pieces: seq<string>, sep: char): string {
    if pieces == [] then [] else pieces[0] + [sep] + Join(pieces[1..], sep)
  }

  lemma {:induction false} SplitPiece(tmp: string, piece: string, s: string, sep: char)
    requires sep !in piece
    ensures Split(tmp, piece + s, sep) == Split(tmp + piece, s, sep)
    ensures Rest(tmp, piece + s, sep) == Rest(tmp + piece, s, sep)
    decreases |piece|
  {
    if piece == [] {
      assert piece + s == s && tmp + piece == tmp;
    } else {
      assert (piece + s)[1..] == piece[1..] + s;
      assert tmp + [piece[0]] + piece[1..] == tmp + piece;
      SplitPiece(tmp + [piece[0]], piece[1..], s, sep);
    }
  }

  /** Splitting what was joined gives the pieces back, whatever text follows them. */
  lemma {:induction false} SplitJoin(pieces: seq<string>, tail: string, sep: char)
    requires forall i :: 0 <= i < |pieces| ==> pieces[i] != [] && sep !in pieces[i]
    ensures Split([], Join(pieces, sep) + tail, sep) == pieces + Split([], tail, sep)
    ensures Rest([], Join(pieces, sep) + tail, sep) == Rest([], tail, sep)
    decreases |pieces|
  {
    if pieces == [] {
      assert Join(pieces, sep) + tail == tail;
    } else {
      var p, rest := pieces[0], Join(pieces[1..], sep) + tail;
      SplitJoin(pieces[1..], tail, sep);
      JoinedFirst(p, Join(pieces[1..], sep), tail, sep);
      SplitFirst(p, rest, sep);
      assert pieces == [p] + pieces[1..];
      assert [p] + (pieces[1..] + Split([], tail, sep)) == pieces + Split([], tail, sep);
    }
  }

  lemma JoinedFirst(p: string, later: string, tail: string, sep: char)
    ensures p + [sep] + later + tail == p + ([sep] + (later + tail))
  {}

  /** A text without the separator has no piece and is left over whole. */
  lemma SplitNone(text: string, sep: char)
    requires sep !in text
    ensures Split([], text, sep) == [] && Rest([], text, sep) == text
  {
    SplitPiece([], text, [], sep);
    assert text + [] == text && [] + text == text;
  }

  /** The first piece of a text whose first separator does not stand at its beginning. */
  lemma SplitFirst(piece: string, rest: string, sep: char)
    requires sep !in piece && piece != []
    ensures Split([], piece + ([sep] + rest), sep) == [piece] + Split([], rest, sep)
    ensures Rest([], piece + ([sep] + rest), sep) == Rest([], rest, sep)
  {
    SplitPiece([], piece, [sep] + rest, sep);
    assert [] + piece == piece && ([sep] + rest)[1..] == rest;
  }

  lemma {:induction false} JoinAppend(a: seq<string>, b: seq<string>, sep: char)
    ensures Join(a + b, sep) == Join(a, sep) + Join(b, sep)
  {
    if a == [] {
      assert a + b == b;
    } else {
      assert (a + b)[1..] == a[1..] + b;
      JoinAppend(a[1..], b, sep);
    }
  }

  /** Pieces never contain the separator, and all their characters come from the text. */
  lemma {:induction false} SplitClean(tmp: string, s: string, sep: char)
    requires sep !in tmp
    ensures forall x, c :: x in Split(tmp, s, sep) && c in x ==> c != sep && (c in tmp || c in s)
    ensures forall c :: c in Rest(tmp, s, sep) ==> c != sep && (c in tmp || c in s)
    decreases |s|
  {
    if s != [] {
      assert forall c :: c in s[1..] ==> c in s;
      if s[0] != sep {
        SplitClean(tmp + [s[0]], s[1..], sep);
      } else {
        SplitClean([], s[1..], sep);
      }
    }
  }

  /** The text before the first c, all of it if there is none. */
  function Before(s: string, c: char): string {
    if s == [] || s[0] == c then [] else [s[0]] + Before(s[1..], c)
  }

  /** The text after the first c, empty if there is none. */
  function After(s: string, c: char): string {
    if s == [] then [] else if s[0] == c then s[1..] else After(s[1..], c)
  }

  lemma {:induction false} BeforeAll(s: string, c: char)
    requires c !in s
    ensures Before(s, c) == s
  {
    if s != [] {
      BeforeAll(s[1..], c);
      assert s == [s[0]] + s[1..];
    }
  }

  lemma {:induction false} CutAt(a: string, c: char, b: string)
    requires c !in a
    ensures Before(a + [c] + b, c) == a && After(a + [c] + b, c) == b
  {
    var s := a + [c] + b;
    if a == [] {
      assert s[1..] == b;
    } else {
      assert s[1..] == a[1..] + [c] + b;
      CutAt(a[1..], c, b);
    }
  }

  lemma {:induction false} BeforeClean(s: string, c: char)
    ensures c !in Before(s, c) && forall x :: x in Before(s, c) ==> x in s
  {
    if s != [] && s[0] != c { BeforeClean(s[1..], c); }
  }
}
