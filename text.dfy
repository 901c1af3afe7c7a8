/** String operations the system takes from JavaScript (`split`, `join`, `includes`, `startsWith`,
    number-to-text in template literals), with the round trips the rest of the model relies on. */
module Text {
  import opened Wrappers

  predicate StartsWith(s: string, prefix: string) {
    |prefix| <= |s| && s[..|prefix|] == prefix
  }

  /** `s.includes(sub)`. */
  predicate Contains(s: string, sub: string)
    decreases |s|
  {
    StartsWith(s, sub) || (|s| > 0 && Contains(s[1..], sub))
  }

  /** `s.split(sep)` for a one-character separator: the pieces between separators, never empty. */
  function Split(s: string, sep: char): (parts: seq<string>)
    ensures |parts| >= 1
    decreases |s|
  {
    if |s| == 0 then [""]
    else if s[0] == sep then [""] + Split(s[1..], sep)
    else var rest := Split(s[1..], sep); [[s[0]] + rest[0]] + rest[1..]
  }

  /** `parts.join(sep)`. */
  function Join(parts: seq<string>, sep: string): string
    decreases |parts|
  {
    if |parts| == 0 then "" else if |parts| == 1 then parts[0] else parts[0] + sep + Join(parts[1..], sep)
  }

  lemma {:induction false} SplitWithoutSeparator(a: string, sep: char)
    requires sep !in a
    ensures Split(a, sep) == [a]
    decreases |a|
  {
    if |a| > 0 {
      SplitWithoutSeparator(a[1..], sep);
      assert [a[0]] + a[1..] == a;
    }
  }

  lemma {:induction false} SplitAtFirstSeparator(a: string, sep: char, b: string)
    requires sep !in a
    ensures Split(a + [sep] + b, sep) == [a] + Split(b, sep)
    decreases |a|
  {
    var s := a + [sep] + b;
    if |a| == 0 {
      assert s[1..] == b;
    } else {
      assert s[0] == a[0] && s[1..] == a[1..] + [sep] + b;
      SplitAtFirstSeparator(a[1..], sep, b);
      assert [a[0]] + a[1..] == a;
    }
  }

  /** Splitting a join recovers the pieces, as long as no piece contains the separator. */
  lemma {:induction false} SplitJoin(parts: seq<string>, sep: char)
    requires |parts| >= 1
    requires forall i :: 0 <= i < |parts| ==> sep !in parts[i]
    ensures Split(Join(parts, [sep]), sep) == parts
    decreases |parts|
  {
    if |parts| == 1 {
      SplitWithoutSeparator(parts[0], sep);
    } else {
      SplitJoin(parts[1..], sep);
      SplitAtFirstSeparator(parts[0], sep, Join(parts[1..], [sep]));
      assert parts == [parts[0]] + parts[1..];
    }
  }

  /** A string splits into a single piece exactly when it holds no separator. */
  lemma {:induction false} SplitPieceCount(s: string, sep: char)
    ensures (|Split(s, sep)| == 1) == (sep !in s)
    decreases |s|
  {
    if |s| > 0 {
      SplitPieceCount(s[1..], sep);
      assert s == [s[0]] + s[1..];
    }
  }

  /** The last piece of `s.split(sep)` (`s.split(sep).pop()`). */
  function LastPiece(s: string, sep: char): string {
    var parts := Split(s, sep); parts[|parts| - 1]
  }

  /** How the last piece of `s` relates to the last piece of `s` without its first character. */
  lemma LastPieceUnfold(s: string, sep: char)
    requires |s| > 0
    ensures LastPiece(s, sep) == if s[0] != sep && sep !in s[1..] then s else LastPiece(s[1..], sep)
  {
    var rest := Split(s[1..], sep);
    SplitPieceCount(s[1..], sep);
    if s[0] != sep && sep !in s[1..] {
      SplitWithoutSeparator(s[1..], sep);
      assert [s[0]] + s[1..] == s;
    }
  }

  /** The last piece holds no separator and ends `s`; it is all of `s` when `s` has no separator,
      and otherwise it is preceded by the last separator. */
  lemma {:induction false} LastPieceIsAfterLastSeparator(s: string, sep: char)
    ensures var e := LastPiece(s, sep);
      && sep !in e && |e| <= |s| && s[|s| - |e|..] == e
      && (sep !in s ==> e == s)
      && (sep in s ==> |e| < |s| && s[|s| - |e| - 1] == sep)
    decreases |s|
  {
    if |s| > 0 {
      LastPieceUnfold(s, sep);
      var t := s[1..];
      assert s == [s[0]] + t;
      if s[0] != sep && sep !in t {
        assert sep !in s;
      } else {
        LastPieceIsAfterLastSeparator(t, sep);
        var e := LastPiece(t, sep);
        assert sep in s;
        assert t[|t| - |e|..] == s[|s| - |e|..];
        if sep in t {
          assert t[|t| - |e| - 1] == s[|s| - |e| - 1];
        } else {
          assert e == t && s[|s| - |e| - 1] == s[0];
        }
      }
    }
  }

  /** The last piece is what follows the last separator. */
  lemma LastPieceOf(a: string, sep: char, b: string)
    requires sep !in b
    ensures LastPiece(a + [sep] + b, sep) == b
  {
    var s := a + [sep] + b;
    LastPieceIsAfterLastSeparator(s, sep);
    var e := LastPiece(s, sep);
    assert s[|s| - |b|..] == b;
    assert s[|s| - |b| - 1] == sep;
  }

  /** The text before the first `c` (all of `s` when there is none). */
  function Before(s: string, c: char): string
    decreases |s|
  {
    if |s| == 0 || s[0] == c then "" else [s[0]] + Before(s[1..], c)
  }

  /** The text after the first `c` (empty when there is none). */
  function After(s: string, c: char): string
    decreases |s|
  {
    if |s| == 0 then "" else if s[0] == c then s[1..] else After(s[1..], c)
  }

  lemma {:induction false} BeforeAfterFirst(a: string, c: char, b: string)
    requires c !in a
    ensures Before(a + [c] + b, c) == a && After(a + [c] + b, c) == b
    decreases |a|
  {
    var s := a + [c] + b;
    if |a| == 0 {
      assert s[0] == c && s[1..] == b;
    } else {
      assert s[0] == a[0] && s[1..] == a[1..] + [c] + b;
      BeforeAfterFirst(a[1..], c, b);
      assert [a[0]] + a[1..] == a;
    }
  }

  lemma {:induction false} BeforeWithoutSeparator(a: string, c: char)
    requires c !in a
    ensures Before(a, c) == a
    decreases |a|
  {
    if |a| > 0 {
      BeforeWithoutSeparator(a[1..], c);
      assert [a[0]] + a[1..] == a;
    }
  }

  predicate IsDigit(c: char) { '0' <= c <= '9' }

  function DigitChar(d: nat): char
    requires d < 10
  {
    "0123456789"[d]
  }

  /** The decimal numeral JavaScript writes for a non-negative integer (`${n}`, `String(n)`). */
  function Decimal(n: nat): (s: string)
    ensures |s| >= 1
    decreases n
  {
    if n < 10 then [DigitChar(n)] else Decimal(n / 10) + [DigitChar(n % 10)]
  }

  /** The value of a string of decimal digits. */
  function DigitsValue(s: string): nat
    requires forall i :: 0 <= i < |s| ==> IsDigit(s[i])
    decreases |s|
  {
    if |s| == 0 then 0
    else
      var last := s[|s| - 1];
      assert IsDigit(last);
      10 * DigitsValue(s[..|s| - 1]) + (last as int - '0' as int)
  }

  /** Reading a decimal numeral back gives the number; a numeral holds digits only. */
  lemma {:induction false} DecimalRoundTrip(n: nat)
    ensures forall i :: 0 <= i < |Decimal(n)| ==> IsDigit(Decimal(n)[i])
    ensures DigitsValue(Decimal(n)) == n
    decreases n
  {
    if n >= 10 {
      DecimalRoundTrip(n / 10);
      var s := Decimal(n);
      assert s[..|s| - 1] == Decimal(n / 10);
    }
  }

  /** The value of a decimal numeral, or None when `s` is empty or holds a non-digit. */
  function ParseDecimal(s: string): Option<nat> {
    if |s| > 0 && forall i :: 0 <= i < |s| ==> IsDigit(s[i]) then Some(DigitsValue(s)) else None
  }

  /** Parsing inverts `Decimal`. */
  lemma ParseDecimalInvertsDecimal(n: nat)
    ensures ParseDecimal(Decimal(n)) == Some(n)
  {
    DecimalRoundTrip(n);
  }

  /** A number written in decimal and followed by a separator that is not a digit reads back
      from the text before that separator. */
  lemma DecimalBeforeSeparator(n: nat, sep: char, tail: string)
    requires !IsDigit(sep)
    ensures ParseDecimal(Before(Decimal(n) + [sep] + tail, sep)) == Some(n)
  {
    var d := Decimal(n);
    DecimalRoundTrip(n);
    assert sep !in d by {
      forall i | 0 <= i < |d| ensures d[i] != sep { assert IsDigit(d[i]); }
    }
    BeforeAfterFirst(d, sep, tail);
    ParseDecimalInvertsDecimal(n);
  }

  /** A name `${timestamp}_${random}${suffix}`: the timestamp reads back from the text before its
      first `_`, and the name ends with the suffix. */
  lemma StampedNameParts(timestamp: nat, random: string, suffix: string)
    ensures var n := Decimal(timestamp) + "_" + random + suffix;
      ParseDecimal(Before(n, '_')) == Some(timestamp) && n[|n| - |suffix|..] == suffix
  {
    var head := Decimal(timestamp) + "_" + random;
    assert head + suffix == Decimal(timestamp) + ['_'] + (random + suffix);
    DecimalBeforeSeparator(timestamp, '_', random + suffix);
    assert (head + suffix)[|head|..] == suffix;
  }
}
