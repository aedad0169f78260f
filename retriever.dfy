/**
 * The aggregator of VoxSpell's statistics store (StatisticsRetriever):
 * linear passes over the store's lines that total the counts of record
 * lines per category, over the whole store, and day by day.
 *
 * Every query reads the store afresh from its first line; the store's
 * lines are passed in as `lines`.
 */
module Retriever {
  import opened Tokens
  import opened Dates
  import opened FileHandler

  /** The two-element `int[] { correct, incorrect }` the queries return. */
  datatype Tally = Tally(correct: int, incorrect: int)

  const NoOutcome: Tally := Tally(0, 0)

  /**
   * Adding two tallies, field by field. A function value rather than a
   * function: a function's axiom for literal arguments can loop in the
   * solver on sums of `NoOutcome`.
   */
  const Plus: (Tally, Tally) -> Tally := (a: Tally, b: Tally) => Tally(a.correct + b.correct, a.incorrect + b.incorrect)

  /** One more outcome, correct or not. */
  function Increment(correct: bool): Tally
  {
    if correct then Tally(1, 0) else Tally(0, 1)
  }

  /** What a line adds to the lifetime totals: the counts of a line of exactly four fields. */
  function LineTally(line: string): Tally
  {
    var t := SplitTab(line);
    if |t| == 4 then Tally(ParseInt(t[1]), ParseInt(t[2])) else NoOutcome
  }

  /** The line is a record of `category`: four fields, the fourth being `category`. */
  predicate HasCategory(line: string, category: string)
  {
    var t := SplitTab(line);
    |t| == 4 && t[3] == category
  }

  /** What a line adds to the totals of `category`: the counts of a record of that category. */
  function CategoryLineTally(line: string, category: string): Tally
  {
    if HasCategory(line, category) then LineTally(line) else NoOutcome
  }

  function InCategory(category: string): string -> Tally
  {
    line => CategoryLineTally(line, category)
  }

  /** The sum of `f` over the first `n` lines, taken in file order. */
  function SumTo(lines: seq<string>, n: nat, f: string -> Tally): Tally
    requires n <= |lines|
  {
    if n == 0 then NoOutcome else Plus(SumTo(lines, n - 1, f), f(lines[n - 1]))
  }

  /** The sum of `f` over all the lines. */
  function SumOver(lines: seq<string>, f: string -> Tally): Tally
  {
    SumTo(lines, |lines|, f)
  }

  /** getLifeTimeStats as a value: the totals of every four-field line. */
  function LifetimeTally(lines: seq<string>): Tally
  {
    SumOver(lines, LineTally)
  }

  /** getStatsForCategory as a value: the totals of every four-field line of `category`, whatever its date. */
  function CategoryTally(lines: seq<string>, category: string): Tally
  {
    SumOver(lines, InCategory(category))
  }

  /** Sums over two sequences that agree on their first `n` lines agree. */
  lemma {:induction false} SumToAgree(a: seq<string>, b: seq<string>, n: nat, f: string -> Tally)
    requires n <= |a| && n <= |b|
    requires forall i :: 0 <= i < n ==> a[i] == b[i]
    ensures SumTo(a, n, f) == SumTo(b, n, f)
  {
    if n > 0 {
      SumToAgree(a, b, n - 1, f);
    }
  }

  /** getStatsForCategory: one pass over the store. */
  method GetStatsForCategory(lines: seq<string>, category: string) returns (stats: Tally)
    ensures stats == CategoryTally(lines, category)
  {
    var correct, incorrect := 0, 0;
    var p: nat := 0;
    while p < |lines|
      invariant 0 <= p <= |lines|
      invariant Tally(correct, incorrect) == SumTo(lines, p, InCategory(category))
    {
      var tokens := SplitTab(lines[p]);
      assert InCategory(category)(lines[p]) == CategoryLineTally(lines[p], category);
      // tokens: word, correct count, incorrect count, category
      if |tokens| == 4 && tokens[3] == category {
        correct := correct + ParseInt(tokens[1]);
        incorrect := incorrect + ParseInt(tokens[2]);
      }
      p := p + 1;
    }
    stats := Tally(correct, incorrect);
  }

  /** getLifeTimeStats: one pass over the store. */
  method GetLifeTimeStats(lines: seq<string>) returns (stats: Tally)
    ensures stats == LifetimeTally(lines)
  {
    var correct, incorrect := 0, 0;
    var p: nat := 0;
    while p < |lines|
      invariant 0 <= p <= |lines|
      invariant Tally(correct, incorrect) == SumTo(lines, p, LineTally)
    {
      var tokens := SplitTab(lines[p]);
      if |tokens| == 4 {
        correct := correct + ParseInt(tokens[1]);
        incorrect := incorrect + ParseInt(tokens[2]);
      }
      p := p + 1;
    }
    stats := Tally(correct, incorrect);
  }

  // ---------------------------------------------------------------
  // Properties of the totals
  // ---------------------------------------------------------------

  lemma PlusInterchange(a: Tally, b: Tally, c: Tally, d: Tally)
    ensures Plus(Plus(a, b), Plus(c, d)) == Plus(Plus(a, c), Plus(b, d))
  {
  }

  lemma {:induction false} SumToAppend(a: seq<string>, b: seq<string>, m: nat, f: string -> Tally)
    requires m <= |b|
    ensures SumTo(a + b, |a| + m, f) == Plus(SumOver(a, f), SumTo(b, m, f))
  {
    if m == 0 {
      SumToAgree(a + b, a, |a|, f);
    } else {
      SumToAppend(a, b, m - 1, f);
      assert (a + b)[|a| + m - 1] == b[m - 1];
    }
  }

  /** Totals add up over concatenated stretches of the store. */
  lemma SumOverAppend(a: seq<string>, b: seq<string>, f: string -> Tally)
    ensures SumOver(a + b, f) == Plus(SumOver(a, f), SumOver(b, f))
  {
    SumToAppend(a, b, |b|, f);
  }

  lemma SumOverOne(x: string, f: string -> Tally)
    ensures SumOver([x], f) == f(x)
  {
    assert SumTo([x], 0, f) == NoOutcome;
    assert Plus(NoOutcome, f(x)) == f(x);
  }

  /** The total over `a`, one line `x`, then `b`. */
  lemma SumOverAround(a: seq<string>, x: string, b: seq<string>, f: string -> Tally)
    ensures SumOver(a + [x] + b, f) == Plus(Plus(SumOver(a, f), f(x)), SumOver(b, f))
  {
    SumOverAppend(a + [x], b, f);
    SumOverAppend(a, [x], f);
    SumOverOne(x, f);
  }

  /** A line that adds nothing can be dropped from a total. */
  lemma SumOverSkip(a: seq<string>, x: string, b: seq<string>, f: string -> Tally)
    requires f(x) == NoOutcome
    ensures SumOver(a + [x] + b, f) == SumOver(a + b, f)
  {
    SumOverAround(a, x, b, f);
    SumOverAppend(a, b, f);
    assert Plus(SumOver(a, f), NoOutcome) == SumOver(a, f);
  }

  /** Replacing a line by one worth `d` more raises the total by `d`. */
  lemma SumOverReplace(a: seq<string>, x: string, y: string, b: seq<string>, f: string -> Tally, d: Tally)
    requires f(y) == Plus(f(x), d)
    ensures SumOver(a + [y] + b, f) == Plus(SumOver(a + [x] + b, f), d)
  {
    SumOverAround(a, x, b, f);
    SumOverAround(a, y, b, f);
  }

  /** Excluded lines: a line without exactly four fields changes neither total. */
  lemma ExcludedLine(a: seq<string>, line: string, b: seq<string>, category: string)
    requires |SplitTab(line)| != 4
    ensures LifetimeTally(a + [line] + b) == LifetimeTally(a + b)
    ensures CategoryTally(a + [line] + b, category) == CategoryTally(a + b, category)
  {
    assert LineTally(line) == NoOutcome;
    assert InCategory(category)(line) == NoOutcome;
    SumOverSkip(a, line, b, LineTally);
    SumOverSkip(a, line, b, InCategory(category));
  }

  /** Taking the same line out of two sequences with equal multisets leaves equal multisets. */
  lemma MultisetRemove(a: seq<string>, x: string, b: seq<string>, k: nat)
    requires k < |b| && b[k] == x && multiset(a + [x]) == multiset(b)
    ensures multiset(a) == multiset(b[..k] + b[k + 1..])
  {
    assert b == b[..k] + [x] + b[k + 1..];
    assert multiset(b) == multiset(b[..k]) + multiset([x]) + multiset(b[k + 1..]);
    assert multiset(a + [x]) == multiset(a) + multiset([x]);
    assert multiset(b[..k] + b[k + 1..]) == multiset(b[..k]) + multiset(b[k + 1..]);
    assert multiset(a) == multiset(a + [x]) - multiset([x]);
    assert multiset(b[..k] + b[k + 1..]) == multiset(b) - multiset([x]);
  }

  /** The totals do not depend on the order of the lines. */
  lemma {:induction false} SumOverPermutation(a: seq<string>, b: seq<string>, f: string -> Tally)
    requires multiset(a) == multiset(b)
    ensures SumOver(a, f) == SumOver(b, f)
    decreases |a|
  {
    if |a| == 0 {
      assert |b| == |multiset(b)| == 0;
    } else {
      var x := a[|a| - 1];
      var a' := a[..|a| - 1];
      assert a == a' + [x];
      assert x in multiset(b) by {
        assert x in multiset(a);
      }
      var k :| 0 <= k < |b| && b[k] == x;
      MultisetRemove(a', x, b, k);
      SumOverPermutation(a', b[..k] + b[k + 1..], f);
      SumOverAround(b[..k], x, b[k + 1..], f);
      assert b == b[..k] + [x] + b[k + 1..];
      SumOverAppend(b[..k], b[k + 1..], f);
      SumOverSnoc(a', x, f);
      PlusInterchange(SumOver(b[..k], f), NoOutcome, f(x), SumOver(b[k + 1..], f));
      assert Plus(f(x), NoOutcome) == f(x);
      assert Plus(SumOver(b[..k], f), NoOutcome) == SumOver(b[..k], f);
    }
  }

  /** Lifetime and category totals are invariant under reordering the store's lines. */
  lemma TotalsIgnoreOrder(a: seq<string>, b: seq<string>, category: string)
    requires multiset(a) == multiset(b)
    ensures LifetimeTally(a) == LifetimeTally(b)
    ensures CategoryTally(a, category) == CategoryTally(b, category)
  {
    SumOverPermutation(a, b, LineTally);
    SumOverPermutation(a, b, InCategory(category));
  }

  /** The totals of the categories `cats`, one after the other. */
  function SumOfCategories(lines: seq<string>, cats: seq<string>): Tally
  {
    SumOver(cats, CategoryTotalsTo(lines, |lines|))
  }

  /** The totals of each category over the first `n` lines. */
  function CategoryTotalsTo(lines: seq<string>, n: nat): string -> Tally
    requires n <= |lines|
  {
    category => SumTo(lines, n, InCategory(category))
  }

  /** What one line adds to the totals of each category. */
  function LineCategories(line: string): string -> Tally
  {
    category => CategoryLineTally(line, category)
  }

  lemma SumOverSnoc(a: seq<string>, x: string, f: string -> Tally)
    ensures SumOver(a + [x], f) == Plus(SumOver(a, f), f(x))
  {
    SumOverAppend(a, [x], f);
    SumOverOne(x, f);
  }

  /** A sum of pointwise sums is the sum of the two sums. */
  lemma {:induction false} SumToPointwise(xs: seq<string>, n: nat, g: string -> Tally, h1: string -> Tally, h2: string -> Tally)
    requires n <= |xs|
    requires forall x :: g(x) == Plus(h1(x), h2(x))
    ensures SumTo(xs, n, g) == Plus(SumTo(xs, n, h1), SumTo(xs, n, h2))
  {
    if n > 0 {
      SumToPointwise(xs, n - 1, g, h1, h2);
      PlusInterchange(SumTo(xs, n - 1, h1), SumTo(xs, n - 1, h2), h1(xs[n - 1]), h2(xs[n - 1]));
    }
  }

  /** A sum of nothing at every position is nothing. */
  lemma {:induction false} SumToZero(xs: seq<string>, n: nat, g: string -> Tally)
    requires n <= |xs|
    requires forall i :: 0 <= i < n ==> g(xs[i]) == NoOutcome
    ensures SumTo(xs, n, g) == NoOutcome
  {
    if n > 0 {
      SumToZero(xs, n - 1, g);
      assert g(xs[n - 1]) == NoOutcome;
    }
  }

  /** A function that is `w` at position `p` of `xs` and nothing at the other positions sums to `w` past `p`. */
  lemma {:induction false} SumToSingle(xs: seq<string>, n: nat, g: string -> Tally, p: nat, w: Tally)
    requires n <= |xs| && p < |xs|
    requires forall i :: 0 <= i < |xs| ==> g(xs[i]) == if i == p then w else NoOutcome
    ensures SumTo(xs, n, g) == if n > p then w else NoOutcome
  {
    if n > 0 {
      SumToSingle(xs, n - 1, g, p, w);
    }
  }

  /** A function that is `w` at position `p` of `xs` and nothing at the other positions sums to `w`. */
  lemma SumOverSingle(xs: seq<string>, g: string -> Tally, p: nat, w: Tally)
    requires p < |xs|
    requires forall i :: 0 <= i < |xs| ==> g(xs[i]) == if i == p then w else NoOutcome
    ensures SumOver(xs, g) == w
  {
    SumToSingle(xs, |xs|, g, p, w);
  }

  /** Over distinct keys, a function that is `w` at `k` and nothing elsewhere sums to `w` when `k` is among them. */
  lemma SumOverPointMass(xs: seq<string>, g: string -> Tally, k: string, w: Tally)
    requires forall i, j :: 0 <= i < j < |xs| ==> xs[i] != xs[j]
    requires forall i :: 0 <= i < |xs| ==> g(xs[i]) == if xs[i] == k then w else NoOutcome
    ensures SumOver(xs, g) == if k in xs then w else NoOutcome
  {
    if k in xs {
      var p :| 0 <= p < |xs| && xs[p] == k;
      forall i | 0 <= i < |xs|
        ensures g(xs[i]) == if i == p then w else NoOutcome
      {
        assert xs[i] == k <==> i == p;
      }
      SumOverSingle(xs, g, p, w);
    } else {
      SumToZero(xs, |xs|, g);
    }
  }

  /** A line adds its counts to exactly one of distinct categories: its own. */
  lemma LineCountedOnce(line: string, cats: seq<string>)
    requires forall i, j :: 0 <= i < j < |cats| ==> cats[i] != cats[j]
    requires |SplitTab(line)| == 4 ==> SplitTab(line)[3] in cats
    ensures SumOver(cats, LineCategories(line)) == LineTally(line)
  {
    var t := SplitTab(line);
    var g := LineCategories(line);
    if |t| == 4 {
      forall i | 0 <= i < |cats|
        ensures g(cats[i]) == if cats[i] == t[3] then LineTally(line) else NoOutcome
      {
        assert g(cats[i]) == CategoryLineTally(line, cats[i]);
        assert HasCategory(line, cats[i]) <==> cats[i] == t[3];
      }
      SumOverPointMass(cats, g, t[3], LineTally(line));
    } else {
      forall i | 0 <= i < |cats|
        ensures g(cats[i]) == NoOutcome
      {
        assert g(cats[i]) == CategoryLineTally(line, cats[i]);
        assert !HasCategory(line, cats[i]);
      }
      SumToZero(cats, |cats|, g);
      assert LineTally(line) == NoOutcome;
    }
  }

  /** Over the first `n` lines, the lifetime total is the sum of the category totals. */
  lemma {:induction false} PrefixIsSumOfCategories(lines: seq<string>, n: nat, cats: seq<string>)
    requires n <= |lines|
    requires forall i, j :: 0 <= i < j < |cats| ==> cats[i] != cats[j]
    requires forall j :: 0 <= j < |lines| && |SplitTab(lines[j])| == 4 ==> SplitTab(lines[j])[3] in cats
    ensures SumTo(lines, n, LineTally) == SumOver(cats, CategoryTotalsTo(lines, n))
  {
    if n == 0 {
      SumToZero(cats, |cats|, CategoryTotalsTo(lines, 0));
    } else {
      var x := lines[n - 1];
      PrefixIsSumOfCategories(lines, n - 1, cats);
      LineCountedOnce(x, cats);
      forall c
        ensures CategoryTotalsTo(lines, n)(c) == Plus(CategoryTotalsTo(lines, n - 1)(c), LineCategories(x)(c))
      {
        assert CategoryTotalsTo(lines, n)(c) == SumTo(lines, n, InCategory(c));
      }
      SumToPointwise(cats, |cats|, CategoryTotalsTo(lines, n), CategoryTotalsTo(lines, n - 1), LineCategories(x));
    }
  }

  /**
   * Lifetime totals: getLifeTimeStats equals the sum of getStatsForCategory
   * over distinct categories that include every category in the store
   * (no double counting, no omission).
   */
  lemma LifetimeIsSumOfCategories(lines: seq<string>, cats: seq<string>)
    requires forall i, j :: 0 <= i < j < |cats| ==> cats[i] != cats[j]
    requires forall j :: 0 <= j < |lines| && |SplitTab(lines[j])| == 4 ==> SplitTab(lines[j])[3] in cats
    ensures LifetimeTally(lines) == SumOfCategories(lines, cats)
  {
    PrefixIsSumOfCategories(lines, |lines|, cats);
  }

  lemma SumOverPair(x: string, y: string, f: string -> Tally)
    ensures SumOver([x, y], f) == Plus(f(x), f(y))
  {
    assert [x, y] == [x] + [y];
    SumOverSnoc([x], y, f);
    SumOverOne(x, f);
  }

  /** Lines worth `d` put in front of the store raise its total by `d`. */
  lemma SumOverPrepend(opening: seq<string>, file: seq<string>, f: string -> Tally, d: Tally)
    requires SumOver(opening, f) == d
    ensures SumOver(opening + file, f) == Plus(SumOver(file, f), d)
  {
    SumOverAppend(opening, file, f);
  }

  /** Lines worth `d` put in place of a first line worth nothing raise the total by `d`. */
  lemma SumOverReplaceFirst(opening: seq<string>, file: seq<string>, f: string -> Tally, d: Tally)
    requires |file| > 0 && f(file[0]) == NoOutcome && SumOver(opening, f) == d
    ensures SumOver(opening + file[1..], f) == Plus(SumOver(file, f), d)
  {
    var rest := file[1..];
    assert opening + [file[0]] + rest == opening + file;
    SumOverSkip(opening, file[0], rest, f);
    SumOverAppend(opening, file, f);
  }

  /** Replacing line `k` by one worth `d` more raises the total by `d`. */
  lemma SumOverReplaceAt(file: seq<string>, k: nat, u: string, f: string -> Tally, d: Tally)
    requires k < |file| && f(u) == Plus(f(file[k]), d)
    ensures SumOver(file[..k] + [u] + file[k + 1..], f) == Plus(SumOver(file, f), d)
  {
    SumOverReplace(file[..k], file[k], u, file[k + 1..], f, d);
    assert file[..k] + [file[k]] + file[k + 1..] == file;
  }

  /** What recording changes in a total that counts `f`. */
  lemma RecordedSum(file: seq<string>, today: string, word: string, correct: bool,
                    category: string, f: string -> Tally, d: Tally)
    requires Recorded(file, today, word, correct, category).Rewritten?
    requires f(DateLine(today)) == NoOutcome
    requires |file| > 0 && IsTodayMarker(file[0], today) ==> f(file[0]) == NoOutcome
    requires f(NewStatistic(word, correct, category)) == d
    requires forall j :: 0 <= j < |file| && ScanToday(file, word, category, 1) == Match(j) ==>
               f(UpdatedRecord(file[j], word, correct, category)) == Plus(f(file[j]), d)
    ensures SumOver(Recorded(file, today, word, correct, category).content, f) == Plus(SumOver(file, f), d)
  {
    var content := Recorded(file, today, word, correct, category).content;
    var opening := [DateLine(today), NewStatistic(word, correct, category)];
    assert SumOver(opening, f) == d by {
      SumOverPair(DateLine(today), NewStatistic(word, correct, category), f);
      assert Plus(NoOutcome, d) == d;
    }
    if |file| == 0 {
      assert content == opening + file;
      SumOverPrepend(opening, file, f, d);
    } else if !IsTodayMarker(file[0], today) {
      assert content == opening + file;
      SumOverPrepend(opening, file, f, d);
    } else {
      match ScanToday(file, word, category, 1)
      case BlockEnds =>
        assert content == opening + file[1..];
        SumOverReplaceFirst(opening, file, f, d);
      case Match(k) =>
        assert content == file[..k] + [UpdatedRecord(file[k], word, correct, category)] + file[k + 1..];
        SumOverReplaceAt(file, k, UpdatedRecord(file[k], word, correct, category), f, d);
    }
  }

  /** The rewritten record of a matching line counts one more outcome, in its own category only. */
  lemma UpdatedRecordCounts(line: string, word: string, correct: bool, category: string)
    requires Tab !in word && IsField(category)
    requires |SplitTab(line)| == 4
    ensures LineTally(UpdatedRecord(line, word, correct, category)) == Plus(LineTally(line), Increment(correct))
    ensures forall other :: HasCategory(UpdatedRecord(line, word, correct, category), other) <==> other == category
  {
    var t := SplitTab(line);
    var c: nat, i: nat := ParseInt(t[1]) + (if correct then 1 else 0), ParseInt(t[2]) + (if correct then 0 else 1);
    var u := UpdatedRecord(line, word, correct, category);
    assert u == RecordLine(word, c, i, category);
    RecordRoundTrip(word, c, i, category);
    var ut := SplitTab(u);
    assert ut == [word, NatToString(c), NatToString(i), category];
    assert LineTally(u) == Tally(c, i) by {
      assert |ut| == 4 && ParseInt(ut[1]) == c && ParseInt(ut[2]) == i;
    }
    assert LineTally(line) == Tally(ParseInt(t[1]), ParseInt(t[2]));
    forall other
      ensures HasCategory(u, other) <==> other == category
    {
      assert ut[3] == category;
    }
  }

  /** A date marker line counts in no total. */
  lemma MarkerCountsNothing(today: string, category: string)
    requires IsField(today)
    ensures LineTally(DateLine(today)) == NoOutcome
    ensures CategoryLineTally(DateLine(today), category) == NoOutcome
  {
    DateLineRoundTrip(today);
  }

  /**
   * Grand totals: one recorded outcome raises the store-wide correct total
   * by one when correct, otherwise the incorrect total by one; the other
   * total stays. A matched record of more than four fields would be
   * rewritten as a four-field record and start counting, so the matched
   * record has exactly four.
   */
  lemma GrandTotalsAfterRecord(file: seq<string>, today: string, word: string, correct: bool, category: string)
    requires IsField(today) && Tab !in word && IsField(category)
    requires forall j :: 0 <= j < |file| && ScanToday(file, word, category, 1) == Match(j) ==> |SplitTab(file[j])| == 4
    requires Recorded(file, today, word, correct, category).Rewritten?
    ensures LifetimeTally(Recorded(file, today, word, correct, category).content)
            == Plus(LifetimeTally(file), Increment(correct))
  {
    MarkerCountsNothing(today, category);
    NewRecordCounts(word, correct, category);
    forall j | 0 <= j < |file| && ScanToday(file, word, category, 1) == Match(j)
      ensures LineTally(UpdatedRecord(file[j], word, correct, category)) == Plus(LineTally(file[j]), Increment(correct))
    {
      UpdatedRecordCounts(file[j], word, correct, category);
    }
    RecordedSum(file, today, word, correct, category, LineTally, Increment(correct));
  }

  /** Category totals: one recorded outcome moves the totals of its own category by one and no other. */
  lemma CategoryTotalsAfterRecord(file: seq<string>, today: string, word: string, correct: bool,
                                  category: string, other: string)
    requires IsField(today) && Tab !in word && IsField(category)
    requires forall j :: 0 <= j < |file| && ScanToday(file, word, category, 1) == Match(j) ==> |SplitTab(file[j])| == 4
    requires Recorded(file, today, word, correct, category).Rewritten?
    ensures CategoryTally(Recorded(file, today, word, correct, category).content, other)
            == Plus(CategoryTally(file, other), if other == category then Increment(correct) else NoOutcome)
  {
    var d := if other == category then Increment(correct) else NoOutcome;
    var f := InCategory(other);
    MarkerCountsNothing(today, other);
    NewRecordCounts(word, correct, category);
    assert f(NewStatistic(word, correct, category)) == d;
    forall j | 0 <= j < |file| && ScanToday(file, word, category, 1) == Match(j)
      ensures f(UpdatedRecord(file[j], word, correct, category)) == Plus(f(file[j]), d)
    {
      UpdatedRecordCounts(file[j], word, correct, category);
      assert HasCategory(file[j], other) <==> other == category;
    }
    RecordedSum(file, today, word, correct, category, f, d);
  }
}
