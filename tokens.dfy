/**
 * Text primitives the statistics store is built on: Java's `String.split`
 * with a single-character separator, and decimal integer text.
 */
module Tokens {

  const Tab: char := '\t'

  /** Every field of `s` between occurrences of `sep`, empty fields included. */
  function Fields(s: string, sep: char): (r: seq<string>)
    ensures |r| >= 1
  {
    if |s| == 0 then [""]
    else
      var rest := Fields(s[1..], sep);
      if s[0] == sep then [""] + rest
      else [[s[0]] + rest[0]] + rest[1..]
  }

  /** The fields `xs` glued back together with `sep` between neighbours. */
  function Join(xs: seq<string>, sep: char): string
    requires |xs| >= 1
  {
    if |xs| == 1 then xs[0] else xs[0] + [sep] + Join(xs[1..], sep)
  }

  /** No field contains the separator. */
  lemma {:induction false} FieldsFree(s: string, sep: char)
    ensures forall j :: 0 <= j < |Fields(s, sep)| ==> sep !in Fields(s, sep)[j]
  {
    if |s| > 0 {
      FieldsFree(s[1..], sep);
    }
  }

  /** Gluing the fields of `s` back together gives `s`. */
  lemma {:induction false} JoinFields(s: string, sep: char)
    ensures Join(Fields(s, sep), sep) == s
  {
    if |s| > 0 {
      var rest := Fields(s[1..], sep);
      JoinFields(s[1..], sep);
      if s[0] == sep {
        assert Fields(s, sep)[1..] == rest;
      } else {
        var r := Fields(s, sep);
        assert r[1..] == rest[1..];
        if |rest| == 1 {
          assert Join(r, sep) == [s[0]] + rest[0];
        } else {
          assert Join(rest, sep) == rest[0] + [sep] + Join(rest[1..], sep);
          assert Join(r, sep) == [s[0]] + rest[0] + [sep] + Join(rest[1..], sep);
        }
        assert s == [s[0]] + s[1..];
      }
    }
  }

  /** A field free of `sep` followed by `sep` splits off as one field. */
  lemma {:induction false} FieldsOfPrefix(a: string, sep: char, b: string)
    requires sep !in a
    ensures Fields(a + [sep] + b, sep) == [a] + Fields(b, sep)
  {
    if |a| > 0 {
      assert (a + [sep] + b)[1..] == a[1..] + [sep] + b;
      FieldsOfPrefix(a[1..], sep, b);
      assert [a[0]] + a[1..] == a;
    } else {
      assert a + [sep] + b == [sep] + b;
      assert ([sep] + b)[1..] == b;
    }
  }

  /** A text without `sep` is a single field. */
  lemma {:induction false} FieldsOfPlain(a: string, sep: char)
    requires sep !in a
    ensures Fields(a, sep) == [a]
  {
    if |a| > 0 {
      FieldsOfPlain(a[1..], sep);
      assert [a[0]] + a[1..] == a;
    }
  }

  /** Splitting a join of `sep`-free fields gives the fields back. */
  lemma {:induction false} FieldsJoin(xs: seq<string>, sep: char)
    requires |xs| >= 1
    requires forall j :: 0 <= j < |xs| ==> sep !in xs[j]
    ensures Fields(Join(xs, sep), sep) == xs
  {
    if |xs| == 1 {
      FieldsOfPlain(xs[0], sep);
    } else {
      FieldsJoin(xs[1..], sep);
      FieldsOfPrefix(xs[0], sep, Join(xs[1..], sep));
    }
  }

  lemma JoinTwo(a: string, b: string, sep: char)
    ensures Join([a, b], sep) == a + [sep] + b
  {
    assert [a, b][1..] == [b];
  }

  lemma JoinThree(a: string, b: string, c: string, sep: char)
    ensures Join([a, b, c], sep) == a + [sep] + b + [sep] + c
  {
    assert [a, b, c][1..] == [b, c];
    JoinTwo(b, c, sep);
    assert Join([a, b, c], sep) == a + [sep] + (b + [sep] + c);
  }

  lemma JoinFour(a: string, b: string, c: string, d: string, sep: char)
    ensures Join([a, b, c, d], sep) == a + [sep] + b + [sep] + c + [sep] + d
  {
    assert [a, b, c, d][1..] == [b, c, d];
    JoinThree(b, c, d, sep);
    assert Join([a, b, c, d], sep) == a + [sep] + (b + [sep] + c + [sep] + d);
  }

  /** Java's limit-0 split drops the empty fields at the end of the array. */
  function DropTrailingEmpty(xs: seq<string>): seq<string>
  {
    if |xs| == 0 then []
    else if xs[|xs| - 1] == "" then DropTrailingEmpty(xs[..|xs| - 1])
    else xs
  }

  /** What is kept is a prefix ending in a non-empty field; what is dropped is empty. */
  lemma {:induction false} DropTrailingEmptyPrefix(xs: seq<string>)
    ensures var r := DropTrailingEmpty(xs);
      && |r| <= |xs| && r == xs[..|r|]
      && (r == [] || r[|r| - 1] != "")
      && forall j :: |r| <= j < |xs| ==> xs[j] == ""
  {
    if |xs| > 0 && xs[|xs| - 1] == "" {
      DropTrailingEmptyPrefix(xs[..|xs| - 1]);
    }
  }

  /**
   * `s.split(sep)` in Java: the fields of `s` without the trailing empty
   * ones; the empty string, in which the separator never matches, gives
   * the one-element array [""].
   */
  function Split(s: string, sep: char): (r: seq<string>)
    ensures sep !in s ==> r == [s]
    ensures forall j :: 0 <= j < |r| ==> sep !in r[j]
  {
    if s == "" then [""]
    else
      var fs := Fields(s, sep);
      assert sep !in s ==> fs == [s] by {
        if sep !in s { FieldsOfPlain(s, sep); }
      }
      FieldsFree(s, sep);
      DropTrailingEmptyPrefix(fs);
      DropTrailingEmpty(fs)
  }

  /** The fields of a line of the statistics file. */
  function SplitTab(line: string): seq<string>
  {
    Split(line, Tab)
  }

  /** Splitting text that was joined from `sep`-free fields, the last one non-empty, gives the fields back. */
  lemma SplitJoin(xs: seq<string>, sep: char)
    requires |xs| >= 1 && xs[|xs| - 1] != ""
    requires forall j :: 0 <= j < |xs| ==> sep !in xs[j]
    ensures Split(Join(xs, sep), sep) == xs
  {
    FieldsJoin(xs, sep);
    assert Fields("", sep) == [""];
  }

  // ---------------------------------------------------------------
  // Decimal integers: `n + ""` and the parseInt helper of the reader.
  // ---------------------------------------------------------------

  predicate IsDigit(c: char) { '0' <= c <= '9' }

  /** A non-empty string of decimal digits. */
  predicate IsDigits(s: string)
  {
    |s| > 0 && forall j :: 0 <= j < |s| ==> IsDigit(s[j])
  }

  function DigitChar(d: nat): (c: char)
    requires d < 10
    ensures IsDigit(c) && c as int - '0' as int == d
  {
    ('0' as int + d) as char
  }

  /** The value of a digit string read most significant digit first. */
  function DigitsValue(s: string): nat
    requires forall j :: 0 <= j < |s| ==> IsDigit(s[j])
  {
    if |s| == 0 then 0
    else DigitsValue(s[..|s| - 1]) * 10 + DigitValue(s[|s| - 1])
  }

  function DigitValue(c: char): (d: nat)
    requires IsDigit(c)
    ensures d < 10
  {
    c as int - '0' as int
  }

  /**
   * The decimal text Java produces for a non-negative int (`n + ""`):
   * no sign and no leading zero.
   */
  function NatToString(n: nat): (r: string)
    ensures IsDigits(r)
    ensures r[0] == '0' <==> n == 0
    ensures n == 0 <==> r == "0"
    ensures n < 10 <==> |r| == 1
  {
    if n < 10 then [DigitChar(n)]
    else NatToString(n / 10) + [DigitChar(n % 10)]
  }

  /**
   * parseInt of the file reader on a count field: the decimal value of a
   * digit string; any other text reads as 0.
   */
  function ParseInt(s: string): nat
  {
    if IsDigits(s) then DigitsValue(s) else 0
  }

  /** Reading back the decimal text of `n` gives `n`. */
  lemma {:induction false} ParseNatToString(n: nat)
    ensures ParseInt(NatToString(n)) == n
  {
    if n >= 10 {
      ParseNatToString(n / 10);
      var s := NatToString(n);
      assert s[..|s| - 1] == NatToString(n / 10);
      assert DigitValue(s[|s| - 1]) == n % 10;
      assert DigitsValue(s) == (n / 10) * 10 + n % 10;
    }
  }

  /** A digit string contains no separator that is not a digit. */
  lemma DigitsExclude(s: string, c: char)
    requires IsDigits(s) && !IsDigit(c)
    ensures c !in s
  {
    assert forall j :: 0 <= j < |s| ==> s[j] != c;
  }

  /** A leading zero does not change the value of a digit string. */
  lemma {:induction false} LeadingZero(s: string)
    requires forall j :: 0 <= j < |s| ==> IsDigit(s[j])
    ensures DigitsValue("0" + s) == DigitsValue(s)
  {
    if |s| > 0 {
      var t := "0" + s;
      assert t[..|t| - 1] == "0" + s[..|s| - 1];
      LeadingZero(s[..|s| - 1]);
    }
  }

  /** `s` left-padded with zeros to at least `width` characters. */
  function PadLeft(s: string, width: nat): (r: string)
    ensures |r| == if |s| >= width then |s| else width
    ensures |s| >= width ==> r == s
    decreases width - |s|
  {
    if |s| >= width then s else PadLeft("0" + s, width)
  }

  /** Zero padding keeps the value of a number's text. */
  lemma {:induction false} ParsePadded(n: nat, width: nat)
    ensures ParseInt(PadLeft(NatToString(n), width)) == n
  {
    ParseNatToString(n);
    PaddedValue(NatToString(n), width);
  }

  lemma {:induction false} PaddedValue(s: string, width: nat)
    requires IsDigits(s)
    ensures IsDigits(PadLeft(s, width)) && DigitsValue(PadLeft(s, width)) == DigitsValue(s)
    decreases width - |s|
  {
    if |s| < width {
      LeadingZero(s);
      PaddedValue("0" + s, width);
    }
  }
}
