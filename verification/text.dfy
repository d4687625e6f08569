/** Character-level helpers used by both page parsers: splitting a body at a
    separator and joining it back, blank (whitespace-only) text, and decimal
    digit fields. */
module Text {

  /** The whitespace characters JSON and the page bodies tolerate:
      space, tab, line feed and carriage return. */
  predicate IsBlankChar(c: char) {
    c == ' ' || c == '\t' || c == '\n' || c == '\r'
  }

  predicate IsBlank(s: string) {
    forall i :: 0 <= i < |s| ==> IsBlankChar(s[i])
  }

  predicate StartsWith(s: string, prefix: string) {
    |prefix| <= |s| && s[..|prefix|] == prefix
  }

  // ---------------------------------------------------------------------
  // Splitting and joining
  // ---------------------------------------------------------------------

  /** The pieces of `s` between occurrences of `sep`, like JavaScript's
      `s.split(sep)`: never empty, and no piece contains the separator. */
  function Split(s: string, sep: char): (parts: seq<string>)
    ensures |parts| > 0
    ensures forall i :: 0 <= i < |parts| ==> sep !in parts[i]
    ensures |parts[0]| <= |s|
  {
    if |s| == 0 then [""]
    else
      var rest := Split(s[1..], sep);
      if s[0] == sep then [""] + rest
      else [[s[0]] + rest[0]] + rest[1..]
  }

  /** The inverse of Split: the pieces glued back with the separator. */
  function Join(parts: seq<string>, sep: char): string
    requires |parts| > 0
    decreases |parts|
  {
    if |parts| == 1 then parts[0] else parts[0] + [sep] + Join(parts[1..], sep)
  }

  lemma {:induction false} JoinConsHead(c: char, parts: seq<string>, sep: char)
    requires |parts| > 0
    ensures Join([[c] + parts[0]] + parts[1..], sep) == [c] + Join(parts, sep)
  {
    var ps := [[c] + parts[0]] + parts[1..];
    assert ps[1..] == parts[1..];
  }

  /** Splitting loses nothing: joining the pieces gives the text back. */
  lemma {:induction false} SplitJoin(s: string, sep: char)
    ensures Join(Split(s, sep), sep) == s
  {
    if |s| == 0 {
    } else {
      var rest := Split(s[1..], sep);
      SplitJoin(s[1..], sep);
      if s[0] == sep {
        var ps := [""] + rest;
        assert ps[1..] == rest;
        assert Join(ps, sep) == "" + [sep] + Join(rest, sep);
        assert s == [s[0]] + s[1..];
      } else {
        JoinConsHead(s[0], rest, sep);
        assert s == [s[0]] + s[1..];
      }
    }
  }

  /** Text without the separator is a single piece. */
  lemma {:induction false} SplitWithoutSep(a: string, sep: char)
    requires sep !in a
    ensures Split(a, sep) == [a]
  {
    if |a| > 0 {
      assert sep !in a[1..] by {
        forall i | 0 <= i < |a[1..]| ensures a[1..][i] != sep {
          assert a[1..][i] == a[i + 1];
        }
      }
      SplitWithoutSep(a[1..], sep);
      assert [a[0]] + a[1..] == a;
    }
  }

  /** A separator-free piece followed by the separator splits off as the
      first piece. */
  lemma {:induction false} SplitCons(a: string, sep: char, t: string)
    requires sep !in a
    ensures Split(a + [sep] + t, sep) == [a] + Split(t, sep)
  {
    var s := a + [sep] + t;
    if |a| == 0 {
      assert s[0] == sep && s[1..] == t;
    } else {
      assert sep !in a[1..] by {
        forall i | 0 <= i < |a[1..]| ensures a[1..][i] != sep {
          assert a[1..][i] == a[i + 1];
        }
      }
      SplitCons(a[1..], sep, t);
      assert s[0] == a[0];
      assert s[1..] == a[1..] + [sep] + t;
      assert [a[0]] + a[1..] == a;
    }
  }

  /** Joining separator-free pieces and splitting again gives the pieces
      back. */
  lemma {:induction false} JoinSplit(parts: seq<string>, sep: char)
    requires |parts| > 0
    requires forall i :: 0 <= i < |parts| ==> sep !in parts[i]
    ensures Split(Join(parts, sep), sep) == parts
    decreases |parts|
  {
    if |parts| == 1 {
      SplitWithoutSep(parts[0], sep);
    } else {
      JoinSplit(parts[1..], sep);
      SplitCons(parts[0], sep, Join(parts[1..], sep));
      assert [parts[0]] + parts[1..] == parts;
    }
  }

  /** Every character of every piece occurs in the split text. */
  lemma {:induction false} SplitPiecesFromText(s: string, sep: char)
    ensures forall i, j :: 0 <= i < |Split(s, sep)| && 0 <= j < |Split(s, sep)[i]| ==>
              Split(s, sep)[i][j] in s
  {
    if |s| > 0 {
      SplitPiecesFromText(s[1..], sep);
      var rest := Split(s[1..], sep);
      var parts := Split(s, sep);
      forall i, j | 0 <= i < |parts| && 0 <= j < |parts[i]| ensures parts[i][j] in s {
        if s[0] == sep {
          assert parts[i] == rest[i - 1];
          assert rest[i - 1][j] in s[1..];
        } else if i == 0 {
          if j > 0 {
            assert parts[0][j] == rest[0][j - 1];
            assert rest[0][j - 1] in s[1..];
          }
        } else {
          assert parts[i] == rest[i];
          assert rest[i][j] in s[1..];
        }
      }
    }
  }

  /** The first piece is a prefix of the split text. */
  lemma SplitFirstIsPrefix(s: string, sep: char)
    ensures StartsWith(s, Split(s, sep)[0])
  {
    var parts := Split(s, sep);
    SplitJoin(s, sep);
    if |parts| > 1 {
      assert s == parts[0] + ([sep] + Join(parts[1..], sep));
    }
  }

  /** Blank pieces joined at a blank separator are blank. */
  lemma {:induction false} JoinBlank(parts: seq<string>, sep: char)
    requires |parts| > 0 && IsBlankChar(sep)
    requires forall i :: 0 <= i < |parts| ==> IsBlank(parts[i])
    ensures IsBlank(Join(parts, sep))
    decreases |parts|
  {
    if |parts| > 1 {
      JoinBlank(parts[1..], sep);
      var j := Join(parts[1..], sep);
      var s := parts[0] + [sep] + j;
      forall i | 0 <= i < |s| ensures IsBlankChar(s[i]) {
        if i < |parts[0]| {
          assert s[i] == parts[0][i];
        } else if i > |parts[0]| {
          assert s[i] == j[i - |parts[0]| - 1];
        }
      }
    }
  }

  // ---------------------------------------------------------------------
  // Tails and trailing blanks
  // ---------------------------------------------------------------------

  /** `a` is a tail of `s`: what is left of `s` after some prefix. */
  predicate IsSuffix(a: string, s: string) {
    |a| <= |s| && a == s[|s| - |a|..]
  }

  lemma SuffixFrom(s: string, k: nat)
    requires k <= |s|
    ensures IsSuffix(s[k..], s)
  {
  }

  lemma SuffixTrans(a: string, b: string, c: string)
    requires IsSuffix(a, b) && IsSuffix(b, c)
    ensures IsSuffix(a, c)
  {
    assert c[|c| - |b|..][|b| - |a|..] == c[|c| - |a|..];
  }

  /** Drops trailing blanks. */
  function TrimEnd(s: string): (t: string)
    ensures |t| <= |s|
    ensures |t| == 0 || !IsBlankChar(t[|t| - 1])
    decreases |s|
  {
    if |s| > 0 && IsBlankChar(s[|s| - 1]) then TrimEnd(s[..|s| - 1]) else s
  }

  /** Blank text after a non-blank last character is exactly what TrimEnd
      drops. */
  lemma {:induction false} TrimEndBlank(w: string, b: string)
    requires |w| > 0 && !IsBlankChar(w[|w| - 1])
    requires IsBlank(b)
    ensures TrimEnd(w + b) == w
    decreases |b|
  {
    if |b| == 0 {
      assert w + b == w;
    } else {
      var s := w + b;
      var b' := b[..|b| - 1];
      assert IsBlank(b') by {
        forall i | 0 <= i < |b'| ensures IsBlankChar(b'[i]) {
          assert b'[i] == b[i];
        }
      }
      assert s[|s| - 1] == b[|b| - 1];
      assert s[..|s| - 1] == w + b';
      TrimEndBlank(w, b');
    }
  }

  // ---------------------------------------------------------------------
  // Decimal fields
  // ---------------------------------------------------------------------

  predicate IsDigit(c: char) {
    '0' <= c <= '9'
  }

  /** A non-empty run of ASCII digits: the `[0-9]+` field shape. */
  predicate IsDigits(s: string) {
    |s| > 0 && forall i :: 0 <= i < |s| ==> IsDigit(s[i])
  }

  function DigitValue(c: char): (d: nat)
    requires IsDigit(c)
    ensures d < 10
  {
    (c as int) - ('0' as int)
  }

  function DigitChar(d: nat): (c: char)
    requires d < 10
    ensures IsDigit(c) && DigitValue(c) == d
  {
    ('0' as int + d) as char
  }

  /** The number a digit field denotes (leading zeros allowed, as with
      JavaScript's `Number("007")`). */
  function DecimalValue(s: string): nat
    requires forall i :: 0 <= i < |s| ==> IsDigit(s[i])
    decreases |s|
  {
    if |s| == 0 then 0 else 10 * DecimalValue(s[..|s| - 1]) + DigitValue(s[|s| - 1])
  }

  /** The canonical decimal spelling of `n`; reading it back gives `n`. */
  function Decimal(n: nat): (s: string)
    ensures IsDigits(s)
    ensures DecimalValue(s) == n
    decreases n
  {
    if n < 10 then [DigitChar(n)]
    else
      var hi := Decimal(n / 10);
      var s := hi + [DigitChar(n % 10)];
      assert s[..|s| - 1] == hi;
      s
  }
}
