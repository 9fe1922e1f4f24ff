/**
 * The few Python string operations the todo tool relies on, restricted to
 * ASCII text: `strip`, `split(",")`, `upper`, `isdigit`, `int`/`str` on
 * decimal strings, `endswith`, string ordering and the line splitting done by
 * `readlines`.
 */
module Text {

  // ---------------------------------------------------------------- whitespace

  /** `c.isspace()` for ASCII: space, \t \n \v \f \r and the separators 0x1C-0x1F. */
  predicate IsSpace(c: char) {
    c == ' ' || 9 <= c as int <= 13 || 28 <= c as int <= 31
  }

  /** `s.lstrip()`: `s` without its leading whitespace. */
  function LStrip(s: string): string {
    if |s| > 0 && IsSpace(s[0]) then LStrip(s[1..]) else s
  }

  /** `lstrip` leaves a suffix that starts with no blank, and what it removes is blank. */
  lemma {:induction false} LStripMeans(s: string)
    ensures |LStrip(s)| <= |s| && LStrip(s) == s[|s| - |LStrip(s)|..]
    ensures LStrip(s) == [] || !IsSpace(LStrip(s)[0])
    ensures forall i :: 0 <= i < |s| - |LStrip(s)| ==> IsSpace(s[i])
  {
    if |s| > 0 && IsSpace(s[0]) {
      LStripMeans(s[1..]);
      assert forall i :: 1 <= i < |s| - |LStrip(s)| ==> s[i] == s[1..][i - 1];
    }
  }

  /** `s.rstrip()`: `s` without its trailing whitespace. */
  function RStrip(s: string): string {
    if |s| > 0 && IsSpace(s[|s| - 1]) then RStrip(s[..|s| - 1]) else s
  }

  /** `rstrip` leaves a prefix that ends in no blank, and what it removes is blank. */
  lemma {:induction false} RStripMeans(s: string)
    ensures |RStrip(s)| <= |s| && RStrip(s) == s[..|RStrip(s)|]
    ensures RStrip(s) == [] || !IsSpace(RStrip(s)[|RStrip(s)| - 1])
    ensures forall i :: |RStrip(s)| <= i < |s| ==> IsSpace(s[i])
  {
    if |s| > 0 && IsSpace(s[|s| - 1]) {
      RStripMeans(s[..|s| - 1]);
      assert forall i :: |RStrip(s)| <= i < |s| - 1 ==> s[i] == s[..|s| - 1][i];
    }
  }

  /** `s.strip()`. */
  function Strip(s: string): string {
    LStrip(RStrip(s))
  }

  /** A string with whitespace at neither end. */
  predicate Trimmed(s: string) {
    s == [] || (!IsSpace(s[0]) && !IsSpace(s[|s| - 1]))
  }

  lemma StripTrimmedNewline(s: string)
    requires Trimmed(s)
    ensures Strip(s + "\n") == s
  {
    assert (s + "\n")[..|s|] == s;
    assert RStrip(s + "\n") == RStrip(s);
  }

  // -------------------------------------------------------------- split/join

  /** `s.split(",")`: never empty. */
  function Split(s: string): (r: seq<string>)
    ensures |r| >= 1
  {
    if |s| == 0 then [""]
    else if s[0] == ',' then [""] + Split(s[1..])
    else
      var t := Split(s[1..]);
      [[s[0]] + t[0]] + t[1..]
  }

  /** No part of a split holds a comma. */
  lemma {:induction false} SplitPartsNoComma(s: string)
    ensures forall i :: 0 <= i < |Split(s)| ==> ',' !in Split(s)[i]
  {
    if |s| > 0 {
      SplitPartsNoComma(s[1..]);
      var t := Split(s[1..]);
      if s[0] != ',' {
        var r := [[s[0]] + t[0]] + t[1..];
        assert r == Split(s);
        forall i | 0 <= i < |r|
          ensures ',' !in r[i]
        {
          if i == 0 {
            assert ',' !in t[0];
          } else {
            assert r[i] == t[i];
          }
        }
      } else {
        assert Split(s) == [""] + t;
        forall i | 0 <= i < |Split(s)|
          ensures ',' !in Split(s)[i]
        {
          if i > 0 {
            assert Split(s)[i] == t[i - 1];
          }
        }
      }
    }
  }

  /** `",".join(parts)`. */
  function Join(parts: seq<string>): string
    requires |parts| >= 1
  {
    if |parts| == 1 then parts[0] else parts[0] + "," + Join(parts[1..])
  }

  /** Joining the parts of a split gives the original string back. */
  lemma {:induction false} JoinSplit(s: string)
    ensures Join(Split(s)) == s
  {
    if |s| == 0 {
    } else if s[0] == ',' {
      JoinSplit(s[1..]);
      assert ([""] + Split(s[1..]))[1..] == Split(s[1..]);
    } else {
      var t := Split(s[1..]);
      JoinSplit(s[1..]);
      var r := [[s[0]] + t[0]] + t[1..];
      assert r[1..] == t[1..];
      if |t| == 1 {
        assert Join(r) == [s[0]] + t[0];
      } else {
        assert Join(r) == ([s[0]] + t[0]) + "," + Join(t[1..]);
        assert Join(t) == t[0] + "," + Join(t[1..]);
      }
      assert s == [s[0]] + s[1..];
    }
  }

  /** A string without a comma splits into itself. */
  lemma {:induction false} SplitNoComma(s: string)
    requires ',' !in s
    ensures Split(s) == [s]
  {
    if |s| > 0 {
      SplitNoComma(s[1..]);
      assert s == [s[0]] + s[1..];
    }
  }

  /** Splitting distributes over a comma: the parts of `a` followed by those of `b`. */
  lemma {:induction false} SplitAppend(a: string, b: string)
    ensures Split(a + "," + b) == Split(a) + Split(b)
  {
    if |a| == 0 {
      assert a + "," + b == [','] + b;
      assert ([','] + b)[1..] == b;
    } else {
      var s := a + "," + b;
      assert s[0] == a[0] && s[1..] == a[1..] + "," + b;
      SplitAppend(a[1..], b);
      var t, u, v := Split(s[1..]), Split(a[1..]), Split(b);
      assert t == u + v;
      if a[0] == ',' {
        assert Split(s) == [""] + t && Split(a) == [""] + u;
        Associative([""], u, v);
      } else {
        assert (u + v)[0] == u[0] && (u + v)[1..] == u[1..] + v;
        assert Split(s) == [[a[0]] + u[0]] + (u[1..] + v);
        assert Split(a) == [[a[0]] + u[0]] + u[1..];
        Associative([[a[0]] + u[0]], u[1..], v);
      }
    }
  }

  // ------------------------------------------------------------------ letters

  function UpperChar(c: char): char {
    if 'a' <= c <= 'z' then (c as int - 32) as char else c
  }

  /** `s.upper()` for ASCII text. */
  function Upper(s: string): (r: string)
    ensures |r| == |s|
    ensures forall i :: 0 <= i < |s| ==> r[i] == UpperChar(s[i])
  {
    if |s| == 0 then [] else [UpperChar(s[0])] + Upper(s[1..])
  }

  /** `s.isalpha()` for ASCII text. */
  predicate IsAlpha(s: string) {
    |s| > 0 && forall i :: 0 <= i < |s| ==> ('a' <= s[i] <= 'z' || 'A' <= s[i] <= 'Z')
  }

  // ------------------------------------------------------------------- digits

  predicate IsDigit(c: char) {
    '0' <= c <= '9'
  }

  predicate AllDigits(s: string) {
    forall i :: 0 <= i < |s| ==> IsDigit(s[i])
  }

  /** `s.isdigit()` for ASCII text: non-empty and made of decimal digits. */
  predicate IsDigits(s: string) {
    |s| > 0 && AllDigits(s)
  }

  /** The decimal form `str(n)` produces: digits, no leading zero except in "0". */
  predicate IsCanonical(s: string) {
    IsDigits(s) && (s[0] == '0' ==> |s| == 1)
  }

  function DigitChar(d: nat): char
    requires d < 10
  {
    ('0' as int + d) as char
  }

  function DigitValue(c: char): nat
    requires IsDigit(c)
  {
    c as int - '0' as int
  }

  /** `int(s)` on a digit string: never negative. */
  function ParseDigits(s: string): (n: int)
    requires AllDigits(s)
    ensures n >= 0
  {
    if |s| == 0 then 0 else 10 * ParseDigits(s[..|s| - 1]) + DigitValue(s[|s| - 1])
  }

  /** `str(n)` for a natural number: always in canonical decimal form. */
  function NatToString(n: nat): (r: string)
    ensures IsCanonical(r)
    ensures |r| == 1 <==> n < 10
  {
    if n < 10 then [DigitChar(n)] else NatToString(n / 10) + [DigitChar(n % 10)]
  }

  /** `int(str(n)) == n`. */
  lemma {:induction false} ParseNatToString(n: nat)
    ensures ParseDigits(NatToString(n)) == n
  {
    if n >= 10 {
      var s := NatToString(n);
      ParseNatToString(n / 10);
      assert s[..|s| - 1] == NatToString(n / 10);
    }
  }

  /** `str` is injective on natural numbers. */
  lemma NatToStringInjective(m: nat, n: nat)
    requires NatToString(m) == NatToString(n)
    ensures m == n
  {
    ParseNatToString(m);
    ParseNatToString(n);
  }

  /** A digit string whose first digit is not zero denotes at least 1. */
  lemma {:induction false} ParseLeadingNonzero(s: string)
    requires IsDigits(s) && s[0] != '0'
    ensures ParseDigits(s) >= 1
  {
    if |s| > 1 {
      var p := s[..|s| - 1];
      assert p[0] == s[0];
      ParseLeadingNonzero(p);
    }
  }

  /** `str(int(s)) == s` exactly when `s` is already canonical. */
  lemma {:induction false} CanonicalRoundTrip(s: string)
    requires IsCanonical(s)
    ensures NatToString(ParseDigits(s)) == s
  {
    var p := s[..|s| - 1];
    var d := DigitValue(s[|s| - 1]);
    assert DigitChar(d) == s[|s| - 1];
    if |s| == 1 {
      assert p == [];
    } else {
      assert p[0] == s[0];
      ParseLeadingNonzero(p);
      CanonicalRoundTrip(p);
      var n := ParseDigits(s);
      assert n == 10 * ParseDigits(p) + d;
      assert n / 10 == ParseDigits(p) && n % 10 == d;
      assert s == p + [s[|s| - 1]];
    }
  }

  // ------------------------------------------------------------------ suffix

  /** `s.endswith(t)`. */
  predicate EndsWith(s: string, t: string) {
    |t| <= |s| && s[|s| - |t|..] == t
  }

  lemma EndsWithMeans(s: string, t: string)
    ensures EndsWith(s, t) <==> exists p :: s == p + t
  {
    if EndsWith(s, t) {
      assert s == s[..|s| - |t|] + t;
    }
    if exists p :: s == p + t {
      var p :| s == p + t;
      assert s[|s| - |t|..] == t;
    }
  }

  // ---------------------------------------------------------------- ordering

  /** Python's `a <= b` on strings: lexicographic by code point, a prefix first. */
  predicate StrLe(a: string, b: string) {
    |a| == 0 || (|b| > 0 && (a[0] < b[0] || (a[0] == b[0] && StrLe(a[1..], b[1..]))))
  }

  /** Python's `a < b` on strings. */
  predicate StrLt(a: string, b: string) {
    StrLe(a, b) && a != b
  }

  lemma {:induction false} StrLeRefl(a: string)
    ensures StrLe(a, a)
  {
    if |a| > 0 {
      StrLeRefl(a[1..]);
    }
  }

  lemma {:induction false} StrLeAntisym(a: string, b: string)
    requires StrLe(a, b) && StrLe(b, a)
    ensures a == b
  {
    if |a| > 0 {
      StrLeAntisym(a[1..], b[1..]);
      assert a == [a[0]] + a[1..] && b == [b[0]] + b[1..];
    }
  }

  lemma {:induction false} StrLeTrans(a: string, b: string, c: string)
    requires StrLe(a, b) && StrLe(b, c)
    ensures StrLe(a, c)
  {
    if |a| > 0 && a[0] == b[0] && b[0] == c[0] {
      StrLeTrans(a[1..], b[1..], c[1..]);
    }
  }

  lemma {:induction false} StrLeTotal(a: string, b: string)
    ensures StrLe(a, b) || StrLe(b, a)
  {
    if |a| > 0 && |b| > 0 && a[0] == b[0] {
      StrLeTotal(a[1..], b[1..]);
    }
  }

  // ------------------------------------------------------------------- lines

  /** One line as `readlines` yields it from a file: text ending in its only newline. */
  predicate IsLine(l: string) {
    |l| > 0 && l[|l| - 1] == '\n' && '\n' !in l[..|l| - 1]
  }

  predicate AllLines(ls: seq<string>) {
    forall i :: 0 <= i < |ls| ==> IsLine(ls[i])
  }

  /** The text of a file written with `writelines(ls)`. */
  function Concat(ls: seq<string>): string {
    if |ls| == 0 then "" else ls[0] + Concat(ls[1..])
  }

  /**
   * `readlines` on a file holding `s`: the text cut after every newline; only
   * the last piece may lack one, and no piece is empty.
   */
  function ReadLines(s: string): (r: seq<string>)
    ensures |r| == 0 <==> |s| == 0
  {
    if |s| == 0 then []
    else if s[0] == '\n' then ["\n"] + ReadLines(s[1..])
    else
      var t := ReadLines(s[1..]);
      if |t| == 0 then [s] else [[s[0]] + t[0]] + t[1..]
  }

  /** No piece `readlines` yields is empty, and all but the last are whole lines. */
  lemma {:induction false} ReadLinesPieces(s: string)
    ensures forall i :: 0 <= i < |ReadLines(s)| ==> |ReadLines(s)[i]| > 0
    ensures forall i :: 0 <= i < |ReadLines(s)| - 1 ==> IsLine(ReadLines(s)[i])
  {
    if |s| > 0 {
      var t := ReadLines(s[1..]);
      ReadLinesPieces(s[1..]);
      if s[0] == '\n' {
        var r := ["\n"] + t;
        assert ReadLines(s) == r;
        assert IsLine("\n") by { assert "\n"[..0] == []; }
        assert forall i :: 1 <= i < |r| ==> r[i] == t[i - 1];
      } else if |t| > 0 {
        var l := [s[0]] + t[0];
        var r := [l] + t[1..];
        assert ReadLines(s) == r;
        assert forall i :: 1 <= i < |r| ==> r[i] == t[i];
        if |t| > 1 {
          assert IsLine(t[0]);
          assert l[..|l| - 1] == [s[0]] + t[0][..|t[0]| - 1];
          assert IsLine(l);
        }
      }
    }
  }

  /** The last piece holds no newline before its final character. */
  lemma {:induction false} ReadLinesLast(s: string)
    ensures |ReadLines(s)| > 0 ==> NoEarlyNewline(ReadLines(s)[|ReadLines(s)| - 1])
  {
    if |s| > 0 {
      var t := ReadLines(s[1..]);
      ReadLinesLast(s[1..]);
      if s[0] == '\n' {
        assert ReadLines(s) == ["\n"] + t;
        if |t| == 0 {
          assert NoEarlyNewline("\n") by { assert "\n"[..0] == []; }
        }
      } else if |t| == 1 {
        var l := [s[0]] + t[0];
        assert ReadLines(s) == [l];
        assert l[..|l| - 1] == [s[0]] + t[0][..|t[0]| - 1];
      } else if |t| > 1 {
        assert ReadLines(s) == [[s[0]] + t[0]] + t[1..];
      } else {
        assert ReadLines(s) == [s];
        assert s[..|s| - 1] == [];
      }
    }
  }

  /** The text holds no newline except possibly as its last character. */
  predicate NoEarlyNewline(l: string) {
    |l| == 0 || '\n' !in l[..|l| - 1]
  }

  /**
   * The pieces are determined: any list of pieces with the properties of
   * `ReadLinesPieces` that concatenates to `s` is `ReadLines(s)`.
   */
  lemma {:induction false} ReadLinesUnique(s: string, ls: seq<string>)
    requires Concat(ls) == s
    requires forall i :: 0 <= i < |ls| ==> |ls[i]| > 0
    requires forall i :: 0 <= i < |ls| - 1 ==> IsLine(ls[i])
    requires |ls| > 0 ==> NoEarlyNewline(ls[|ls| - 1])
    ensures ReadLines(s) == ls
    decreases |ls|
  {
    if |ls| == 1 {
      assert s == ls[0] by { assert Concat(ls[1..]) == ""; }
      if IsLine(s) {
        ReadOneLine(s);
      } else {
        assert '\n' !in s by { assert s == s[..|s| - 1] + [s[|s| - 1]]; }
        ReadNoNewline(s);
      }
    } else if |ls| > 1 {
      var rest := Concat(ls[1..]);
      assert s == Concat([ls[0]]) + rest by { assert Concat([ls[0]]) == ls[0]; }
      ReadLinesPrefixed([ls[0]], rest);
      ReadLinesUnique(rest, ls[1..]);
      assert ls == [ls[0]] + ls[1..];
    }
  }

  /** Text without a newline is read as one piece. */
  lemma {:induction false} ReadNoNewline(l: string)
    requires |l| > 0 && '\n' !in l
    ensures ReadLines(l) == [l]
  {
    if |l| > 1 {
      ReadNoNewline(l[1..]);
      assert l == [l[0]] + l[1..];
    }
  }

  /** Reading back what was written: `readlines` undoes the concatenation. */
  lemma {:induction false} ConcatReadLines(s: string)
    ensures Concat(ReadLines(s)) == s
  {
    if |s| > 0 {
      ConcatReadLines(s[1..]);
      var t := ReadLines(s[1..]);
      if s[0] == '\n' {
        assert (["\n"] + t)[1..] == t;
      } else if |t| > 0 {
        var r := [[s[0]] + t[0]] + t[1..];
        assert r[1..] == t[1..];
        assert Concat(t) == t[0] + Concat(t[1..]);
      }
      assert s == [s[0]] + s[1..];
    }
  }

  /** Text ending in a newline is read as its own lines, then the rest is read. */
  lemma {:induction false} ReadLinesAfterNewline(l: string, u: string)
    requires |l| > 0 && l[|l| - 1] == '\n'
    ensures ReadLines(l + u) == ReadLines(l) + ReadLines(u)
  {
    var s := l + u;
    assert s[0] == l[0];
    if |l| == 1 {
      assert s[1..] == u;
      assert l[1..] == [];
    } else {
      assert s[1..] == l[1..] + u;
      ReadLinesAfterNewline(l[1..], u);
      var t', v := ReadLines(l[1..]), ReadLines(u);
      assert ReadLines(s[1..]) == t' + v;
      if l[0] != '\n' {
        assert |t'| > 0;
        assert (t' + v)[0] == t'[0] && (t' + v)[1..] == t'[1..] + v;
        assert ReadLines(l) == [[l[0]] + t'[0]] + t'[1..];
        assert ReadLines(s) == [[l[0]] + t'[0]] + (t'[1..] + v);
      }
    }
  }

  /** A single line reads back as exactly itself. */
  lemma {:induction false} ReadOneLine(l: string)
    requires IsLine(l)
    ensures ReadLines(l) == [l]
  {
    if |l| == 1 {
      assert l == "\n";
      assert ReadLines(l) == ["\n"] + ReadLines([]);
    } else {
      assert l[0] != '\n' by { assert l[0] == l[..|l| - 1][0]; }
      assert l[1..][..|l| - 2] == l[..|l| - 1][1..];
      ReadOneLine(l[1..]);
      var t := ReadLines(l[1..]);
      assert ReadLines(l) == [[l[0]] + t[0]] + t[1..];
      assert t[1..] == [];
      assert l == [l[0]] + l[1..];
    }
  }

  /** Lines written with `writelines` read back unchanged. */
  lemma {:induction false} ReadLinesConcat(ls: seq<string>)
    requires AllLines(ls)
    ensures ReadLines(Concat(ls)) == ls
  {
    if |ls| > 0 {
      ReadOneLine(ls[0]);
      ReadLinesConcat(ls[1..]);
      ReadLinesAfterNewline(ls[0], Concat(ls[1..]));
    }
  }

  lemma {:induction false} ConcatAppend(a: seq<string>, b: seq<string>)
    ensures Concat(a + b) == Concat(a) + Concat(b)
  {
    if |a| == 0 {
      assert a + b == b;
    } else {
      assert (a + b)[0] == a[0] && (a + b)[1..] == a[1..] + b;
      ConcatAppend(a[1..], b);
      assert Concat(a + b) == a[0] + Concat(a[1..] + b);
    }
  }

  /**
   * Rewriting a file whose lines are `a`, then `l`, then `b`, and reading it
   * again, yields `a`, the lines of `l`, then `b`.
   */
  lemma ReadLinesSpliced(a: seq<string>, l: string, b: seq<string>)
    requires AllLines(a) && AllLines(b) && |l| > 0 && l[|l| - 1] == '\n'
    ensures ReadLines(Concat(a) + l + Concat(b)) == a + ReadLines(l) + b
  {
    var ca, cb := Concat(a), Concat(b);
    var rest := l + cb;
    assert ReadLines(rest) == ReadLines(l) + b by {
      ReadLinesConcat(b);
      ReadLinesAfterNewline(l, cb);
    }
    ReadLinesPrefixed(a, rest);
    Associative(ca, l, cb);
    Associative(a, ReadLines(l), b);
  }

  lemma Associative<T>(x: seq<T>, y: seq<T>, z: seq<T>)
    ensures x + y + z == x + (y + z)
  {
  }

  /** Whole lines written before some text are read back before that text's lines. */
  lemma ReadLinesPrefixed(a: seq<string>, rest: string)
    requires AllLines(a)
    ensures ReadLines(Concat(a) + rest) == a + ReadLines(rest)
  {
    if |a| == 0 {
      assert Concat(a) + rest == rest;
    } else {
      ConcatEndsInNewline(a);
      ReadLinesAfterNewline(Concat(a), rest);
      ReadLinesConcat(a);
    }
  }

  lemma {:induction false} ConcatEndsInNewline(ls: seq<string>)
    requires AllLines(ls) && |ls| > 0
    ensures |Concat(ls)| > 0 && Concat(ls)[|Concat(ls)| - 1] == '\n'
  {
    if |ls| > 1 {
      ConcatEndsInNewline(ls[1..]);
    }
  }

  /** Text that ends in a newline reads as whole lines only. */
  lemma {:induction false} ReadLinesTerminated(s: string)
    requires |s| > 0 && s[|s| - 1] == '\n'
    ensures AllLines(ReadLines(s))
  {
    if |s| > 1 {
      var t := ReadLines(s[1..]);
      ReadLinesTerminated(s[1..]);
      if s[0] != '\n' {
        var l := [s[0]] + t[0];
        assert l[..|l| - 1] == [s[0]] + t[0][..|t[0]| - 1];
        assert IsLine(l);
        var r := [l] + t[1..];
        assert forall i :: 1 <= i < |r| ==> r[i] == t[i];
      }
    }
  }
}
