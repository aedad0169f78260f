/**
 * getPrevDayStats of StatisticsRetriever: the statistics of the last
 * `days` days, today first, one entry per day. Days without a block in
 * the store get an entry with no outcomes; a block's entry carries the
 * totals of the records under its date marker.
 *
 * The previous-day step is a parameter `prev`. The source uses getPrevDate
 * (Dates.PrevDate); Dates.PrevIsoDate is the step in the store's own date
 * form (see the finding in the README).
 */
module DailyStats {
  import opened Tokens
  import opened Dates
  import opened Retriever

  /** One element of the returned list: `{ correct + "", incorrect + "", date }`. */
  datatype DayStats = DayStats(correct: int, incorrect: int, date: string)

  /** The result of getPrevDayStats, or the exception it throws. */
  datatype Daily = DailyCrashed | Daily(stats: seq<DayStats>)

  /** An entry of a day with no outcomes. */
  function Blank(date: string): DayStats
  {
    DayStats(0, 0, date)
  }

  function Entry(t: Tally, date: string): DayStats
  {
    DayStats(t.correct, t.incorrect, date)
  }

  /** `prev` applied `k` times to `s`: the date `k` days before `s`. */
  function Iter(prev: string -> string, s: string, k: nat): string
    decreases k
  {
    if k == 0 then s else Iter(prev, prev(s), k - 1)
  }

  lemma {:induction false} IterSucc(prev: string -> string, s: string, k: nat)
    ensures Iter(prev, s, k + 1) == prev(Iter(prev, s, k))
    decreases k
  {
    if k > 0 {
      IterSucc(prev, prev(s), k - 1);
    }
  }

  lemma {:induction false} IterAdd(prev: string -> string, s: string, a: nat, b: nat)
    ensures Iter(prev, Iter(prev, s, a), b) == Iter(prev, s, a + b)
    decreases a
  {
    if a > 0 {
      IterAdd(prev, prev(s), a - 1, b);
    }
  }

  /** What is left of `days` after `n` entries; never negative. */
  function Budget(days: nat, n: nat): nat
  {
    if n <= days then days - n else 0
  }

  /**
   * The sync loops: empty entries from `cursor` back, one day at a time,
   * until the date `stop` is met or `budget` entries are made.
   */
  function Zeros(cursor: string, stop: string, budget: nat, prev: string -> string): (r: seq<DayStats>)
    ensures |r| <= budget
    decreases budget
  {
    if budget == 0 || cursor == stop then []
    else [Blank(cursor)] + Zeros(prev(cursor), stop, budget - 1, prev)
  }

  /** The sync loops make an empty entry for each day before `stop` is met, and stop early only at `stop`. */
  lemma {:induction false} ZerosEntries(cursor: string, stop: string, budget: nat, prev: string -> string)
    ensures var r := Zeros(cursor, stop, budget, prev);
      && (forall j :: 0 <= j < |r| ==> r[j] == Blank(Iter(prev, cursor, j)) && Iter(prev, cursor, j) != stop)
      && (|r| < budget ==> Iter(prev, cursor, |r|) == stop)
    decreases budget
  {
    if budget > 0 && cursor != stop {
      ZerosEntries(prev(cursor), stop, budget - 1, prev);
      var rest := Zeros(prev(cursor), stop, budget - 1, prev);
      assert forall j :: 0 <= j < |rest| ==> Iter(prev, cursor, j + 1) == Iter(prev, prev(cursor), j);
    }
  }

  /** addEmptyStats as a value: `n` empty entries for the days before `date`. */
  function EmptyStats(date: string, n: nat, prev: string -> string): (r: seq<DayStats>)
    ensures |r| == n
    ensures forall j :: 0 <= j < n ==> r[j] == Blank(Iter(prev, prev(date), j))
    decreases n
  {
    if n == 0 then []
    else
      var rest := EmptyStats(prev(date), n - 1, prev);
      assert forall j :: 0 <= j < |rest| ==> Iter(prev, prev(date), j + 1) == Iter(prev, prev(prev(date)), j);
      [Blank(prev(date))] + rest
  }

  lemma EmptyStatsSnoc(date: string, n: nat, prev: string -> string)
    ensures EmptyStats(date, n + 1, prev) == EmptyStats(date, n, prev) + [Blank(Iter(prev, prev(date), n))]
  {
    var a, b := EmptyStats(date, n + 1, prev), EmptyStats(date, n, prev) + [Blank(Iter(prev, prev(date), n))];
    assert |a| == |b|;
    forall j | 0 <= j < |a|
      ensures a[j] == b[j]
    {
    }
  }

  /** addEmptyStats: the days before `lastRecDate`, as many as asked for; none for a count below one. */
  method AddEmptyStats(lastRecDate: string, daysOfStatsToAdd: int, prev: string -> string)
    returns (emptyStats: seq<DayStats>)
    ensures emptyStats == EmptyStats(lastRecDate, if daysOfStatsToAdd > 0 then daysOfStatsToAdd else 0, prev)
  {
    emptyStats := [];
    var date := lastRecDate;
    var i := 0;
    while i < daysOfStatsToAdd
      invariant 0 <= i <= if daysOfStatsToAdd > 0 then daysOfStatsToAdd else 0
      invariant date == Iter(prev, lastRecDate, i)
      invariant emptyStats == EmptyStats(lastRecDate, i, prev)
    {
      date := prev(date);
      IterSucc(prev, lastRecDate, i);
      EmptyStatsSnoc(lastRecDate, i, prev);
      emptyStats := emptyStats + [Blank(date)];
      i := i + 1;
    }
  }

  /**
   * The two sync loops of getPrevDayStats: empty entries from `cursor`
   * back until `stop` is met or the list holds `days` entries.
   */
  method SyncDates(stats: seq<DayStats>, cursor: string, stop: string, days: nat, prev: string -> string)
    returns (synced: seq<DayStats>)
    ensures synced == stats + Zeros(cursor, stop, Budget(days, |stats|), prev)
  {
    synced := stats;
    var date := cursor;
    while date != stop && |synced| < days
      invariant |stats| <= |synced|
      invariant synced + Zeros(date, stop, Budget(days, |synced|), prev)
                == stats + Zeros(cursor, stop, Budget(days, |stats|), prev)
      decreases days - |synced|
    {
      synced := synced + [Blank(date)];
      date := prev(date);
    }
    assert Zeros(date, stop, Budget(days, |synced|), prev) == [];
  }

  // ---------------------------------------------------------------
  // The main loop of getPrevDayStats as a value
  // ---------------------------------------------------------------

  /** The loop's variables: the entries so far, the counts of the block being read, and its date. */
  datatype Cursor = Cursor(stats: seq<DayStats>, acc: Tally, date: string)

  /**
   * One line of the main loop: a four-field record adds its counts, a
   * two-field date marker closes the block (its entry, then empty entries
   * back to the new date), any other line changes nothing.
   */
  function Consume(st: Cursor, line: string, days: nat, prev: string -> string): Cursor
  {
    var t := SplitTab(line);
    if |t| == 4 then Cursor(st.stats, Plus(st.acc, LineTally(line)), st.date)
    else if |t| == 2 then
      var recorded := st.stats + [Entry(st.acc, st.date)];
      Cursor(recorded + Zeros(prev(st.date), t[1], Budget(days, |recorded|), prev), NoOutcome, t[1])
    else st
  }

  /**
   * The main loop from line `p` on: it stops when `days` entries are made,
   * and on the last line it makes the entry of the block being read.
   */
  function Scan(lines: seq<string>, p: nat, st: Cursor, days: nat, prev: string -> string): seq<DayStats>
    requires 1 <= p <= |lines|
    decreases |lines| - p
  {
    if p == |lines| || |st.stats| == days then st.stats
    else
      var next := Consume(st, lines[p], days, prev);
      if p + 1 == |lines| then next.stats + [Entry(next.acc, next.date)]
      else Scan(lines, p + 1, next, days, prev)
  }

  /** The entries the sync loop and the main loop make, before any padding. */
  function MainEntries(lines: seq<string>, today: string, days: nat, prev: string -> string): seq<DayStats>
    requires |lines| >= 1
  {
    var t := SplitTab(lines[0]);
    if |t| < 2 then []
    else Scan(lines, 1, Cursor(Zeros(today, t[1], days, prev), NoOutcome, t[1]), days, prev)
  }

  /**
   * getPrevDayStats as a value. It throws on an empty store (the first
   * read gives null), on a first line of one field (tokens[1]), and when
   * no entry was made although `days` are wanted (stats.get(-1)); the
   * entries are padded with empty days up to `days`.
   */
  function PrevDayStats(lines: seq<string>, today: string, days: nat, prev: string -> string): Daily
  {
    if |lines| == 0 || |SplitTab(lines[0])| == 1 then DailyCrashed
    else
      var main := MainEntries(lines, today, days, prev);
      if |main| == days then Daily(main)
      else if |main| == 0 then DailyCrashed
      else Daily(main + EmptyStats(main[|main| - 1].date, Budget(days, |main|), prev))
  }

  /** The main loop of getPrevDayStats: the blocks after the first line, read line by line. */
  method ReadBlocks(lines: seq<string>, lead: seq<DayStats>, firstDate: string, days: nat, prev: string -> string)
    returns (stats: seq<DayStats>)
    requires |lines| >= 1
    ensures stats == Scan(lines, 1, Cursor(lead, NoOutcome, firstDate), days, prev)
  {
    stats := lead;
    var date := firstDate;
    var correct, incorrect := 0, 0;
    var p := 1;
    while p < |lines|
      invariant 1 <= p <= |lines|
      invariant Scan(lines, p, Cursor(stats, Tally(correct, incorrect), date), days, prev)
                == Scan(lines, 1, Cursor(lead, NoOutcome, firstDate), days, prev)
      decreases |lines| - p
    {
      if |stats| == days {
        break;  // requested number of entries found
      }
      ghost var before := Cursor(stats, Tally(correct, incorrect), date);
      var tokens := SplitTab(lines[p]);
      if |tokens| == 4 {
        correct := correct + ParseInt(tokens[1]);
        incorrect := incorrect + ParseInt(tokens[2]);
      } else if |tokens| == 2 {
        stats := stats + [DayStats(correct, incorrect, date)];
        correct, incorrect := 0, 0;
        var prevDate := prev(date);
        date := tokens[1];
        // empty entries for the days between two stored dates
        stats := SyncDates(stats, prevDate, date, days, prev);
      }
      assert Cursor(stats, Tally(correct, incorrect), date) == Consume(before, lines[p], days, prev);
      if p + 1 == |lines| {
        stats := stats + [DayStats(correct, incorrect, date)];
        break;  // end of the store
      }
      p := p + 1;
    }
  }

  /** getPrevDayStats: the store read line by line, as the source's nested loops do. */
  method GetPrevDayStats(lines: seq<string>, today: string, days: nat, prev: string -> string)
    returns (r: Daily)
    ensures r == PrevDayStats(lines, today, days, prev)
  {
    if |lines| == 0 {
      return DailyCrashed;  // the first read gives null
    }
    var stats: seq<DayStats> := [];
    var tokens := SplitTab(lines[0]);
    if |tokens| > 0 {
      if |tokens| == 1 {
        return DailyCrashed;  // tokens[1] is out of bounds
      }
      var date := tokens[1];
      // empty entries back from today to the first stored date
      stats := SyncDates(stats, today, date, days, prev);
      assert stats == Zeros(today, date, days, prev);
      stats := ReadBlocks(lines, stats, date, days, prev);
    }
    assert stats == MainEntries(lines, today, days, prev);
    if |stats| != days {
      if |stats| == 0 {
        return DailyCrashed;  // stats.get(-1)
      }
      var lastRecDate := stats[|stats| - 1].date;
      var empty := AddEmptyStats(lastRecDate, days - |stats|, prev);
      assert (if days - |stats| > 0 then days - |stats| else 0) == Budget(days, |stats|);
      stats := stats + empty;
    }
    return Daily(stats);
  }

  // ---------------------------------------------------------------
  // Shape of the result: length and dates
  // ---------------------------------------------------------------

  /** The main loop only appends entries. */
  lemma ConsumePrefix(st: Cursor, line: string, days: nat, prev: string -> string)
    ensures var next := Consume(st, line, days, prev);
      |next.stats| >= |st.stats| && forall j :: 0 <= j < |st.stats| ==> next.stats[j] == st.stats[j]
  {
  }

  lemma {:induction false} ScanPrefix(lines: seq<string>, p: nat, st: Cursor, days: nat, prev: string -> string)
    requires 1 <= p <= |lines|
    ensures var r := Scan(lines, p, st, days, prev);
      |r| >= |st.stats| && forall j :: 0 <= j < |st.stats| ==> r[j] == st.stats[j]
    decreases |lines| - p
  {
    if p < |lines| && |st.stats| != days {
      ConsumePrefix(st, lines[p], days, prev);
      if p + 1 < |lines| {
        ScanPrefix(lines, p + 1, Consume(st, lines[p], days, prev), days, prev);
      }
    }
  }

  /** While entries are wanted, reading a line makes at most the entries still wanted; only a date marker makes any. */
  lemma ConsumeLength(st: Cursor, line: string, days: nat, prev: string -> string)
    requires |st.stats| < days
    ensures var next := Consume(st, line, days, prev);
      |st.stats| <= |next.stats| <= days && (|SplitTab(line)| != 2 ==> next.stats == st.stats)
  {
  }

  lemma {:induction false} ScanLength(lines: seq<string>, p: nat, st: Cursor, days: nat, prev: string -> string)
    requires 1 <= p <= |lines| && |st.stats| <= days
    ensures var r := Scan(lines, p, st, days, prev);
      |r| <= days + 1 && (|r| == days + 1 ==> |SplitTab(lines[|lines| - 1])| == 2)
    decreases |lines| - p
  {
    if p < |lines| && |st.stats| != days {
      ConsumeLength(st, lines[p], days, prev);
      if p + 1 < |lines| {
        ScanLength(lines, p + 1, Consume(st, lines[p], days, prev), days, prev);
      }
    }
  }

  /** Reading a line never drops an entry. */
  lemma ConsumeKeepsLength(st: Cursor, line: string, days: nat, prev: string -> string)
    ensures |Consume(st, line, days, prev).stats| >= |st.stats|
  {
  }

  /** The main loop keeps its entries, and makes at least one when there is a line left and entries are still wanted. */
  lemma {:induction false} ScanGrows(lines: seq<string>, p: nat, st: Cursor, days: nat, prev: string -> string)
    requires 1 <= p <= |lines|
    ensures |Scan(lines, p, st, days, prev)| >= |st.stats|
    ensures p < |lines| && |st.stats| != days ==> |Scan(lines, p, st, days, prev)| > |st.stats|
    decreases |lines| - p
  {
    if p < |lines| && |st.stats| != days {
      var next := Consume(st, lines[p], days, prev);
      ConsumeKeepsLength(st, lines[p], days, prev);
      if p + 1 < |lines| {
        ScanGrows(lines, p + 1, next, days, prev);
      }
    }
  }

  /**
   * Length: the result holds exactly `days` entries, except that a date
   * marker on the last line can add one more.
   */
  lemma DailyLength(lines: seq<string>, today: string, days: nat, prev: string -> string)
    requires PrevDayStats(lines, today, days, prev).Daily?
    ensures var s := PrevDayStats(lines, today, days, prev).stats;
      |s| == days || (|s| == days + 1 && |SplitTab(lines[|lines| - 1])| == 2)
  {
    var t := SplitTab(lines[0]);
    if |t| >= 2 {
      ScanLength(lines, 1, Cursor(Zeros(today, t[1], days, prev), NoOutcome, t[1]), days, prev);
    }
  }

  /** Entry `j` of `stats` is dated `j` days before today, for every `j` below `days`. */
  predicate DatesFrom(stats: seq<DayStats>, today: string, days: nat, prev: string -> string)
  {
    forall j :: 0 <= j < |stats| && j < days ==> stats[j].date == Iter(prev, today, j)
  }

  /** The loop's entries and the date it is at follow the days back from today. */
  predicate OnTrack(st: Cursor, today: string, days: nat, prev: string -> string)
  {
    DatesFrom(st.stats, today, days, prev) && |st.stats| <= days
    && (|st.stats| < days ==> st.date == Iter(prev, today, |st.stats|))
  }

  lemma ConsumeOnTrack(st: Cursor, line: string, today: string, days: nat, prev: string -> string)
    requires OnTrack(st, today, days, prev) && |st.stats| < days
    ensures OnTrack(Consume(st, line, days, prev), today, days, prev)
  {
    var t := SplitTab(line);
    if |t| == 2 {
      MarkerOnTrack(st.stats, Entry(st.acc, st.date), t[1], today, days, prev);
    }
  }

  /** A block's entry dated as it should be, then the empty days up to the next date, stay on track. */
  lemma MarkerOnTrack(stats: seq<DayStats>, e: DayStats, stop: string, today: string, days: nat,
                      prev: string -> string)
    requires DatesFrom(stats, today, days, prev) && |stats| < days
    requires e.date == Iter(prev, today, |stats|)
    ensures var recorded := stats + [e];
      OnTrack(Cursor(recorded + Zeros(prev(e.date), stop, Budget(days, |recorded|), prev), NoOutcome, stop),
              today, days, prev)
  {
    var n := |stats|;
    var recorded := stats + [e];
    var z := Zeros(prev(e.date), stop, Budget(days, n + 1), prev);
    ZerosEntries(prev(e.date), stop, Budget(days, n + 1), prev);
    var next := recorded + z;
    IterSucc(prev, today, n);
    forall j | 0 <= j < |next| && j < days
      ensures next[j].date == Iter(prev, today, j)
    {
      if j > n {
        GapDate(z, prev(e.date), today, n + 1, j, prev);
        assert next[j] == z[j - (n + 1)];
      }
    }
    if |next| < days {
      IterShift(prev, today, n + 1, |next|);
    }
  }

  /** Entry `j - a` of the empty days from the day `a` steps back is dated `j` steps back. */
  lemma GapDate(z: seq<DayStats>, cursor: string, today: string, a: nat, j: nat, prev: string -> string)
    requires a <= j < a + |z| && cursor == Iter(prev, today, a)
    requires forall i :: 0 <= i < |z| ==> z[i].date == Iter(prev, cursor, i)
    ensures z[j - a].date == Iter(prev, today, j)
  {
    IterShift(prev, today, a, j);
  }

  /** Stepping `a` days back, then `j - a` more, is stepping `j` days back. */
  lemma IterShift(prev: string -> string, s: string, a: nat, j: nat)
    requires a <= j
    ensures Iter(prev, Iter(prev, s, a), j - a) == Iter(prev, s, j)
  {
    IterAdd(prev, s, a, j - a);
  }

  lemma {:induction false} ScanDates(lines: seq<string>, p: nat, st: Cursor, today: string, days: nat,
                                     prev: string -> string)
    requires 1 <= p <= |lines| && OnTrack(st, today, days, prev)
    ensures DatesFrom(Scan(lines, p, st, days, prev), today, days, prev)
    decreases |lines| - p
  {
    if p < |lines| && |st.stats| != days {
      var next := Consume(st, lines[p], days, prev);
      ConsumeOnTrack(st, lines[p], today, days, prev);
      if p + 1 < |lines| {
        ScanDates(lines, p + 1, next, today, days, prev);
      }
    }
  }

  /** The empty days addEmptyStats appends continue the dates of the entries before them. */
  lemma PaddingDates(main: seq<DayStats>, today: string, days: nat, prev: string -> string)
    requires 0 < |main| < days && DatesFrom(main, today, days, prev)
    ensures DatesFrom(main + EmptyStats(main[|main| - 1].date, Budget(days, |main|), prev), today, days, prev)
  {
    var m := |main|;
    var pad := EmptyStats(main[m - 1].date, Budget(days, m), prev);
    IterSucc(prev, today, m - 1);
    forall i | 0 <= i < |pad|
      ensures pad[i].date == Iter(prev, today, m + i)
    {
      IterAdd(prev, today, m, i);
    }
    var s := main + pad;
    forall j | 0 <= j < |s| && j < days
      ensures s[j].date == Iter(prev, today, j)
    {
      if j >= m {
        assert s[j] == pad[j - m];
      }
    }
  }

  /** Dates: entry `j` of the result is the day `j` days before today, for each of the `days` entries asked for. */
  lemma DailyDates(lines: seq<string>, today: string, days: nat, prev: string -> string)
    requires PrevDayStats(lines, today, days, prev).Daily?
    ensures DatesFrom(PrevDayStats(lines, today, days, prev).stats, today, days, prev)
  {
    var t := SplitTab(lines[0]);
    if |t| >= 2 {
      LeadOnTrack(today, t[1], days, prev);
      ScanDates(lines, 1, Cursor(Zeros(today, t[1], days, prev), NoOutcome, t[1]), today, days, prev);
      var main := MainEntries(lines, today, days, prev);
      if 0 < |main| < days {
        PaddingDates(main, today, days, prev);
      }
    }
  }

  /** After the sync loop, its entries are dated from today on, and the loop is at the first stored date. */
  lemma LeadOnTrack(today: string, date: string, days: nat, prev: string -> string)
    ensures OnTrack(Cursor(Zeros(today, date, days, prev), NoOutcome, date), today, days, prev)
  {
    ZerosEntries(today, date, days, prev);
  }

  /** Padding keeps the entries of the loops and, when entries are missing, continues with the day before the last. */
  lemma DailyOfMain(lines: seq<string>, today: string, days: nat, prev: string -> string)
    requires |lines| >= 1 && |SplitTab(lines[0])| >= 2 && |MainEntries(lines, today, days, prev)| > 0
    ensures PrevDayStats(lines, today, days, prev).Daily?
    ensures var s, main := PrevDayStats(lines, today, days, prev).stats, MainEntries(lines, today, days, prev);
      && |s| >= |main| && (forall j :: 0 <= j < |main| ==> s[j] == main[j])
      && (|main| < days ==> |s| > |main| && s[|main|] == Blank(prev(main[|main| - 1].date)))
  {
  }

  /**
   * Crashes: getPrevDayStats throws exactly on an empty store, on a first
   * line of one field, and, when entries are wanted, on a first line of no
   * field or on a store of only today's date marker.
   */
  lemma DailyCrashes(lines: seq<string>, today: string, days: nat, prev: string -> string)
    ensures PrevDayStats(lines, today, days, prev) == DailyCrashed
            <==> |lines| == 0 || |SplitTab(lines[0])| == 1
                 || (days > 0 && (|SplitTab(lines[0])| == 0
                                  || (|lines| == 1 && SplitTab(lines[0])[1] == today)))
  {
    if |lines| > 0 && |SplitTab(lines[0])| >= 2 {
      var t := SplitTab(lines[0]);
      var lead := Zeros(today, t[1], days, prev);
      var st := Cursor(lead, NoOutcome, t[1]);
      ScanPrefix(lines, 1, st, days, prev);
      if |lines| > 1 && |lead| != days {
        ScanGrows(lines, 1, st, days, prev);
      }
      assert |lead| == 0 <==> days == 0 || today == t[1];
    }
  }

  // ---------------------------------------------------------------
  // What the entries count
  // ---------------------------------------------------------------

  /** The end of the block whose records start at line `q`: the next two-field line, or the end of the store. */
  function BlockEnd(lines: seq<string>, q: nat): (r: nat)
    requires q <= |lines|
    ensures q <= r <= |lines|
    decreases |lines| - q
  {
    if q == |lines| || |SplitTab(lines[q])| == 2 then q else BlockEnd(lines, q + 1)
  }

  /** The block's lines before BlockEnd are no markers, and BlockEnd is a marker or the end of the store. */
  lemma {:induction false} BlockEndLines(lines: seq<string>, q: nat)
    requires q <= |lines|
    ensures forall j :: q <= j < BlockEnd(lines, q) ==> |SplitTab(lines[j])| != 2
    ensures BlockEnd(lines, q) < |lines| ==> |SplitTab(lines[BlockEnd(lines, q)])| == 2
    decreases |lines| - q
  {
    if q < |lines| && |SplitTab(lines[q])| != 2 {
      BlockEndLines(lines, q + 1);
    }
  }

  /** Line `m` heads a block: a two-field line, or the first line, whose second field is read as a date. */
  predicate OpensBlock(lines: seq<string>, m: nat)
  {
    m < |lines| && var t := SplitTab(lines[m]); |t| == 2 || (m == 0 && |t| >= 2)
  }

  /** The totals of the four-field lines from line `i` up to, not including, line `j`. */
  function RangeTally(lines: seq<string>, i: nat, j: nat): Tally
    requires i <= j <= |lines|
    decreases j - i
  {
    if i == j then NoOutcome else Plus(RangeTally(lines, i, j - 1), LineTally(lines[j - 1]))
  }

  /** The first `k` lines of a stretch tally as the lifetime sum over them. */
  lemma {:induction false} RangeTallyPrefix(lines: seq<string>, i: nat, j: nat, k: nat)
    requires i <= j <= |lines| && k <= j - i
    ensures RangeTally(lines, i, i + k) == SumTo(lines[i..j], k, LineTally)
  {
    if k > 0 {
      RangeTallyPrefix(lines, i, j, k - 1);
      assert lines[i..j][k - 1] == lines[i + k - 1];
    }
  }

  /** RangeTally is the lifetime tally of that stretch of the store. */
  lemma RangeTallyIsLifetime(lines: seq<string>, i: nat, j: nat)
    requires i <= j <= |lines|
    ensures RangeTally(lines, i, j) == LifetimeTally(lines[i..j])
  {
    RangeTallyPrefix(lines, i, j, j - i);
  }

  /** The totals of the block headed by line `m`: its four-field records up to the next two-field line. */
  function BlockTally(lines: seq<string>, m: nat): Tally
    requires m < |lines|
  {
    RangeTally(lines, m + 1, BlockEnd(lines, m + 1))
  }

  /** A block's totals are the lifetime tally of the lines between its marker and the next. */
  lemma BlockTallyIsLifetime(lines: seq<string>, m: nat)
    requires m < |lines|
    ensures BlockTally(lines, m) == LifetimeTally(lines[m + 1..BlockEnd(lines, m + 1)])
  {
    RangeTallyIsLifetime(lines, m + 1, BlockEnd(lines, m + 1));
  }

  /** The entry carries the totals of a block of the store under that block's date. */
  ghost predicate Attributed(e: DayStats, lines: seq<string>)
  {
    exists m: nat :: OpensBlock(lines, m) && e.date == SplitTab(lines[m])[1] && Tally(e.correct, e.incorrect) == BlockTally(lines, m)
  }

  /** Every entry counts nothing, or exactly one block under its own date. */
  ghost predicate AllSound(stats: seq<DayStats>, lines: seq<string>)
  {
    forall j :: 0 <= j < |stats| ==> (stats[j].correct == 0 && stats[j].incorrect == 0) || Attributed(stats[j], lines)
  }

  /** The main loop is inside the block headed by line `m`, its counts those of lines `m + 1` up to `p`. */
  predicate InBlock(lines: seq<string>, p: nat, st: Cursor, m: nat)
  {
    m < p <= |lines| && OpensBlock(lines, m) && p <= BlockEnd(lines, m + 1)
    && st.date == SplitTab(lines[m])[1] && st.acc == RangeTally(lines, m + 1, p)
  }

  lemma InBlockStart(lines: seq<string>, st: Cursor)
    requires |lines| >= 1 && |SplitTab(lines[0])| >= 2
    requires st.date == SplitTab(lines[0])[1] && st.acc == NoOutcome
    ensures InBlock(lines, 1, st, 0)
  {
  }

  /** A date marker inside a block ends it and opens the next block. */
  lemma MarkerOpensBlock(lines: seq<string>, p: nat, st: Cursor, m: nat, days: nat, prev: string -> string)
    requires p < |lines| && InBlock(lines, p, st, m) && |SplitTab(lines[p])| == 2
    ensures p == BlockEnd(lines, m + 1)
    ensures InBlock(lines, p + 1, Consume(st, lines[p], days, prev), p)
  {
    var next := Consume(st, lines[p], days, prev);
    BlockEndLines(lines, m + 1);
    assert next.acc == NoOutcome && next.date == SplitTab(lines[p])[1];
  }

  /** A line that is not a date marker adds its counts, if any, and changes nothing else. */
  lemma ConsumeNonMarker(st: Cursor, line: string, days: nat, prev: string -> string)
    requires |SplitTab(line)| != 2
    ensures Consume(st, line, days, prev) == Cursor(st.stats, Plus(st.acc, LineTally(line)), st.date)
  {
    if |SplitTab(line)| != 4 {
      assert LineTally(line) == NoOutcome;
    }
  }

  /** Any other line inside a block stays in it, a record adding its counts. */
  lemma LineExtendsBlock(lines: seq<string>, p: nat, st: Cursor, m: nat, days: nat, prev: string -> string)
    requires p < |lines| && InBlock(lines, p, st, m) && |SplitTab(lines[p])| != 2
    ensures Consume(st, lines[p], days, prev).stats == st.stats
    ensures InBlock(lines, p + 1, Consume(st, lines[p], days, prev), m)
  {
    var next := Consume(st, lines[p], days, prev);
    ConsumeNonMarker(st, lines[p], days, prev);
    assert p + 1 <= BlockEnd(lines, m + 1) by {
      BlockEndLines(lines, m + 1);
      assert p != BlockEnd(lines, m + 1);
    }
  }

  /** At the end of its block, the loop's counts are the block's totals. */
  lemma BlockEntry(lines: seq<string>, p: nat, st: Cursor, m: nat)
    requires InBlock(lines, p, st, m) && p == BlockEnd(lines, m + 1)
    ensures Entry(st.acc, st.date) == Entry(BlockTally(lines, m), SplitTab(lines[m])[1])
    ensures Attributed(Entry(st.acc, st.date), lines)
  {
  }

  lemma SoundAppend(a: seq<DayStats>, b: seq<DayStats>, lines: seq<string>)
    requires AllSound(a, lines) && AllSound(b, lines)
    ensures AllSound(a + b, lines)
  {
    forall j | 0 <= j < |a + b|
      ensures ((a + b)[j].correct == 0 && (a + b)[j].incorrect == 0) || Attributed((a + b)[j], lines)
    {
      if j < |a| {
        assert (a + b)[j] == a[j];
      } else {
        assert (a + b)[j] == b[j - |a|];
      }
    }
  }

  lemma ZerosSound(cursor: string, stop: string, budget: nat, prev: string -> string, lines: seq<string>)
    ensures AllSound(Zeros(cursor, stop, budget, prev), lines)
  {
    ZerosEntries(cursor, stop, budget, prev);
  }

  /** Reading a line keeps every entry sound and the loop inside a block. */
  lemma ConsumeSound(lines: seq<string>, p: nat, st: Cursor, m: nat, days: nat, prev: string -> string)
    returns (m': nat)
    requires p < |lines| && InBlock(lines, p, st, m) && AllSound(st.stats, lines)
    ensures InBlock(lines, p + 1, Consume(st, lines[p], days, prev), m')
    ensures AllSound(Consume(st, lines[p], days, prev).stats, lines)
  {
    var next := Consume(st, lines[p], days, prev);
    if |SplitTab(lines[p])| == 2 {
      MarkerOpensBlock(lines, p, st, m, days, prev);
      m' := p;
      BlockEntry(lines, p, st, m);
      var recorded := st.stats + [Entry(st.acc, st.date)];
      var z := Zeros(prev(st.date), SplitTab(lines[p])[1], Budget(days, |recorded|), prev);
      assert next.stats == recorded + z;
      SoundAppend(st.stats, [Entry(st.acc, st.date)], lines);
      ZerosSound(prev(st.date), SplitTab(lines[p])[1], Budget(days, |recorded|), prev, lines);
      SoundAppend(recorded, z, lines);
    } else {
      LineExtendsBlock(lines, p, st, m, days, prev);
      m' := m;
    }
  }

  /** On the last line, the entry of the block being read is sound. */
  lemma LastEntrySound(lines: seq<string>, st: Cursor, m: nat)
    requires InBlock(lines, |lines|, st, m) && AllSound(st.stats, lines)
    ensures AllSound(st.stats + [Entry(st.acc, st.date)], lines)
  {
    BlockEntry(lines, |lines|, st, m);
    SoundAppend(st.stats, [Entry(st.acc, st.date)], lines);
  }

  /** The main loop at line `p`, inside the block headed by line `m`, with every entry so far sound. */
  ghost predicate ScanReady(lines: seq<string>, p: nat, st: Cursor, m: nat)
  {
    1 <= p <= |lines| && InBlock(lines, p, st, m) && AllSound(st.stats, lines)
  }

  lemma {:induction false} ScanSound(lines: seq<string>, p: nat, st: Cursor, m: nat, days: nat, prev: string -> string)
    requires ScanReady(lines, p, st, m)
    ensures AllSound(Scan(lines, p, st, days, prev), lines)
    decreases |lines| - p
  {
    if p < |lines| && |st.stats| != days {
      var next, m' := ScanSoundStep(lines, p, st, m, days, prev);
      if p + 1 < |lines| {
        ScanSound(lines, p + 1, next, m', days, prev);
      }
    }
  }

  /** One step of the main loop keeps it ready, and on the last line ends sound. */
  lemma ScanSoundStep(lines: seq<string>, p: nat, st: Cursor, m: nat, days: nat, prev: string -> string)
    returns (next: Cursor, m': nat)
    requires ScanReady(lines, p, st, m) && p < |lines| && |st.stats| != days
    ensures p + 1 < |lines| ==> ScanReady(lines, p + 1, next, m')
    ensures p + 1 < |lines| ==> Scan(lines, p, st, days, prev) == Scan(lines, p + 1, next, days, prev)
    ensures p + 1 == |lines| ==> AllSound(Scan(lines, p, st, days, prev), lines)
  {
    next := Consume(st, lines[p], days, prev);
    m' := ConsumeSound(lines, p, st, m, days, prev);
    if p + 1 == |lines| {
      LastEntrySound(lines, next, m');
    }
  }

  /**
   * Soundness: every entry of the result counts no outcome at all, or the
   * totals of one block of the store, dated with that block's date.
   */
  lemma DailySound(lines: seq<string>, today: string, days: nat, prev: string -> string)
    requires PrevDayStats(lines, today, days, prev).Daily?
    ensures AllSound(PrevDayStats(lines, today, days, prev).stats, lines)
    ensures forall m: nat :: BlockReached(lines, today, days, prev, m) ==>
      var s, k := PrevDayStats(lines, today, days, prev).stats, BlockSlot(lines, today, days, prev, m);
      k < |s| && s[k] == Entry(BlockTally(lines, m), SplitTab(lines[m])[1])
  {
    forall m: nat | BlockReached(lines, today, days, prev, m)
      ensures var s, k := PrevDayStats(lines, today, days, prev).stats, BlockSlot(lines, today, days, prev, m);
        k < |s| && s[k] == Entry(BlockTally(lines, m), SplitTab(lines[m])[1])
    {
      DailyBlockEntry(lines, today, days, prev, m);
    }
    var t := SplitTab(lines[0]);
    if |t| >= 2 {
      var st := Cursor(Zeros(today, t[1], days, prev), NoOutcome, t[1]);
      InBlockStart(lines, st);
      ZerosSound(today, t[1], days, prev, lines);
      ScanSound(lines, 1, st, 0, days, prev);
      var main := MainEntries(lines, today, days, prev);
      if |main| != days {
        var s := main + EmptyStats(main[|main| - 1].date, Budget(days, |main|), prev);
        forall j | 0 <= j < |s|
          ensures (s[j].correct == 0 && s[j].incorrect == 0) || Attributed(s[j], lines)
        {
          if j < |main| {
            assert s[j] == main[j];
          }
        }
      }
    }
  }

  /** A date marker inside a block makes the block's entry next. */
  lemma MarkerMakesEntry(lines: seq<string>, p: nat, st: Cursor, m: nat, days: nat, prev: string -> string)
    requires p < |lines| && InBlock(lines, p, st, m) && |SplitTab(lines[p])| == 2
    ensures var next := Consume(st, lines[p], days, prev);
      |next.stats| > |st.stats| && next.stats[|st.stats|] == Entry(BlockTally(lines, m), SplitTab(lines[m])[1])
  {
    MarkerOpensBlock(lines, p, st, m, days, prev);
    BlockEntry(lines, p, st, m);
  }

  /** A date marker inside a block, entries still wanted: the loop's next entry is the block's. */
  lemma ScanAfterMarker(lines: seq<string>, p: nat, st: Cursor, m: nat, days: nat, prev: string -> string)
    requires p < |lines| && InBlock(lines, p, st, m) && |st.stats| < days && |SplitTab(lines[p])| == 2
    ensures var r := Scan(lines, p, st, days, prev);
      |r| > |st.stats| && r[|st.stats|] == Entry(BlockTally(lines, m), SplitTab(lines[m])[1])
  {
    var next := Consume(st, lines[p], days, prev);
    MarkerMakesEntry(lines, p, st, m, days, prev);
    if p + 1 < |lines| {
      ScanPrefix(lines, p + 1, next, days, prev);
    }
  }

  /** Inside a block, while entries are wanted, the next entry the loop makes is that block's. */
  lemma {:induction false} ScanBlockEntry(lines: seq<string>, p: nat, st: Cursor, m: nat, days: nat,
                                          prev: string -> string)
    requires p < |lines| && InBlock(lines, p, st, m) && |st.stats| < days
    ensures var r := Scan(lines, p, st, days, prev);
      |r| > |st.stats| && r[|st.stats|] == Entry(BlockTally(lines, m), SplitTab(lines[m])[1])
    decreases |lines| - p
  {
    if |SplitTab(lines[p])| == 2 {
      ScanAfterMarker(lines, p, st, m, days, prev);
    } else {
      var next := Consume(st, lines[p], days, prev);
      LineExtendsBlock(lines, p, st, m, days, prev);
      if p + 1 == |lines| {
        BlockEntry(lines, p + 1, next, m);
      } else {
        ScanBlockEntry(lines, p + 1, next, m, days, prev);
      }
    }
  }

  /**
   * The first block: when the sync loop meets the first stored date after
   * `k` empty days and fewer than `days` entries, the result starts with
   * those `k` empty days and its entry `k` carries the first block's totals
   * under the first stored date.
   */
  lemma DailyFirstBlock(lines: seq<string>, today: string, days: nat, prev: string -> string)
    requires |lines| >= 1 && |SplitTab(lines[0])| >= 2
    requires var lead := Zeros(today, SplitTab(lines[0])[1], days, prev);
      |lead| < days && (|lines| >= 2 || |lead| > 0)
    ensures var t, lead := SplitTab(lines[0]), Zeros(today, SplitTab(lines[0])[1], days, prev);
      && PrevDayStats(lines, today, days, prev).Daily?
      && (var s := PrevDayStats(lines, today, days, prev).stats;
          && |s| > |lead|
          && (forall j :: 0 <= j < |lead| ==> s[j] == lead[j])
          && s[|lead|] == Entry(BlockTally(lines, 0), t[1]))
  {
    var t := SplitTab(lines[0]);
    var lead := Zeros(today, t[1], days, prev);
    ZerosEntries(today, t[1], days, prev);
    var st := Cursor(lead, NoOutcome, t[1]);
    var k := |lead|;
    var main := MainEntries(lines, today, days, prev);
    assert main == Scan(lines, 1, st, days, prev);
    InBlockStart(lines, st);
    ScanPrefix(lines, 1, st, days, prev);
    if |lines| >= 2 {
      ScanBlockEntry(lines, 1, st, 0, days, prev);
      DailyOfMain(lines, today, days, prev);
    } else {
      assert main == lead;
      DailyOfMain(lines, today, days, prev);
      assert BlockEnd(lines, 1) == 1;
      IterSucc(prev, today, k - 1);
      assert prev(lead[k - 1].date) == t[1];
    }
  }

  /**
   * The leading empty days fill the whole series: when the sync loop makes
   * `days` entries before it meets the first stored date, they are the result.
   */
  lemma DailyAllLeading(lines: seq<string>, today: string, days: nat, prev: string -> string)
    requires |lines| >= 1 && |SplitTab(lines[0])| >= 2
    requires |Zeros(today, SplitTab(lines[0])[1], days, prev)| == days
    ensures PrevDayStats(lines, today, days, prev) == Daily(Zeros(today, SplitTab(lines[0])[1], days, prev))
  {
  }

  // ---------------------------------------------------------------
  // Every block the main loop reaches gets its entry
  // ---------------------------------------------------------------

  /** The main loop's cursor when the sync loop is done and line 1 is next. */
  function InitialCursor(lines: seq<string>, today: string, days: nat, prev: string -> string): Cursor
    requires |lines| >= 1 && |SplitTab(lines[0])| >= 2
  {
    var t := SplitTab(lines[0]);
    Cursor(Zeros(today, t[1], days, prev), NoOutcome, t[1])
  }

  /** The loop's variables once lines 1 up to, not including, `p` are read, starting from `st`. */
  function StateAt(lines: seq<string>, p: nat, st: Cursor, days: nat, prev: string -> string): Cursor
    requires 1 <= p <= |lines|
    decreases p
  {
    if p == 1 then st else Consume(StateAt(lines, p - 1, st, days, prev), lines[p - 1], days, prev)
  }

  /** Line `m` heads a block, and the loop reads it while fewer than `days` entries exist. */
  predicate BlockReached(lines: seq<string>, today: string, days: nat, prev: string -> string, m: nat)
  {
    && |lines| >= 1 && |SplitTab(lines[0])| >= 2
    && m < |lines| && OpensBlock(lines, m) && (m > 0 || |lines| >= 2)
    && |StateAt(lines, m + 1, InitialCursor(lines, today, days, prev), days, prev).stats| < days
  }

  /** The index of block `m`'s entry: the number of entries once its heading line is read. */
  function BlockSlot(lines: seq<string>, today: string, days: nat, prev: string -> string, m: nat): nat
    requires |lines| >= 1 && |SplitTab(lines[0])| >= 2 && m < |lines|
  {
    |StateAt(lines, m + 1, InitialCursor(lines, today, days, prev), days, prev).stats|
  }

  lemma StateStep(lines: seq<string>, p: nat, st: Cursor, days: nat, prev: string -> string)
    requires 1 <= p < |lines|
    ensures StateAt(lines, p + 1, st, days, prev) == Consume(StateAt(lines, p, st, days, prev), lines[p], days, prev)
  {
  }

  /** Entries are never taken back: the cursor's entries only grow from line to line. */
  lemma {:induction false} StateGrows(lines: seq<string>, q: nat, p: nat, st: Cursor, days: nat, prev: string -> string)
    requires 1 <= q <= p <= |lines|
    ensures |StateAt(lines, q, st, days, prev).stats| <= |StateAt(lines, p, st, days, prev).stats|
    decreases p
  {
    if q < p {
      var r := p - 1;
      StateGrows(lines, q, r, st, days, prev);
      StateLengthStep(lines, r, st, days, prev);
      assert r + 1 == p;
    }
  }

  lemma StateLengthStep(lines: seq<string>, p: nat, st: Cursor, days: nat, prev: string -> string)
    requires 1 <= p < |lines|
    ensures |StateAt(lines, p, st, days, prev).stats| <= |StateAt(lines, p + 1, st, days, prev).stats|
  {
    StateStep(lines, p, st, days, prev);
    ConsumeKeepsLength(StateAt(lines, p, st, days, prev), lines[p], days, prev);
  }

  /** While fewer than `days` entries exist, the loop from line 1 is the loop from line `p` on. */
  lemma {:induction false} ScanFromState(lines: seq<string>, p: nat, st: Cursor, days: nat, prev: string -> string)
    requires 1 <= p < |lines| && |StateAt(lines, p, st, days, prev).stats| < days
    ensures Scan(lines, 1, st, days, prev) == Scan(lines, p, StateAt(lines, p, st, days, prev), days, prev)
    decreases p
  {
    if p > 1 {
      var q := p - 1;
      StateGrows(lines, q, p, st, days, prev);
      ScanFromState(lines, q, st, days, prev);
      StateStep(lines, q, st, days, prev);
      assert q + 1 == p;
    }
  }

  /** Whatever line the loop is at, it is inside some block. */
  lemma {:induction false} StateInBlock(lines: seq<string>, p: nat, st: Cursor, days: nat, prev: string -> string)
    returns (m: nat)
    requires 1 <= p <= |lines| && InBlock(lines, 1, st, 0)
    ensures InBlock(lines, p, StateAt(lines, p, st, days, prev), m)
    decreases p
  {
    if p == 1 {
      m := 0;
    } else {
      var q := p - 1;
      var m0 := StateInBlock(lines, q, st, days, prev);
      m := StepInBlock(lines, q, st, m0, days, prev);
      assert q + 1 == p;
    }
  }

  /** Reading line `p` leaves the loop inside a block: the same one, or the one line `p` heads. */
  lemma StepInBlock(lines: seq<string>, p: nat, st: Cursor, m0: nat, days: nat, prev: string -> string)
    returns (m: nat)
    requires 1 <= p < |lines| && InBlock(lines, p, StateAt(lines, p, st, days, prev), m0)
    ensures InBlock(lines, p + 1, StateAt(lines, p + 1, st, days, prev), m)
  {
    StateStep(lines, p, st, days, prev);
    if |SplitTab(lines[p])| == 2 {
      MarkerOpensBlock(lines, p, StateAt(lines, p, st, days, prev), m0, days, prev);
      m := p;
    } else {
      LineExtendsBlock(lines, p, StateAt(lines, p, st, days, prev), m0, days, prev);
      m := m0;
    }
  }

  /** Just after the line heading block `m`, the loop is at the start of that block. */
  lemma AfterBlockStart(lines: seq<string>, m: nat, days: nat, prev: string -> string, st: Cursor)
    requires m < |lines| && OpensBlock(lines, m) && InBlock(lines, 1, st, 0)
    ensures InBlock(lines, m + 1, StateAt(lines, m + 1, st, days, prev), m)
  {
    if m > 0 {
      var m0 := StateInBlock(lines, m, st, days, prev);
      StateStep(lines, m, st, days, prev);
      MarkerOpensBlock(lines, m, StateAt(lines, m, st, days, prev), m0, days, prev);
    }
  }

  /**
   * Completeness: every block whose heading line the loop reads while fewer
   * than `days` entries exist gets an entry in the series, carrying that
   * block's totals under its date, at the index the loop has reached.
   */
  lemma DailyBlockEntry(lines: seq<string>, today: string, days: nat, prev: string -> string, m: nat)
    requires BlockReached(lines, today, days, prev, m)
    ensures PrevDayStats(lines, today, days, prev).Daily?
    ensures var s, k := PrevDayStats(lines, today, days, prev).stats, BlockSlot(lines, today, days, prev, m);
      |s| > k && s[k] == Entry(BlockTally(lines, m), SplitTab(lines[m])[1])
  {
    var st := InitialCursor(lines, today, days, prev);
    assert MainEntries(lines, today, days, prev) == Scan(lines, 1, st, days, prev);
    InBlockStart(lines, st);
    ScanReachesBlock(lines, st, days, prev, m);
    DailyOfMain(lines, today, days, prev);
  }

  /** The main loop from line 1 makes block `m`'s entry at the index it has reached after line `m`. */
  lemma ScanReachesBlock(lines: seq<string>, st: Cursor, days: nat, prev: string -> string, m: nat)
    requires InBlock(lines, 1, st, 0)
    requires m < |lines| && OpensBlock(lines, m) && (m > 0 || |lines| >= 2)
    requires |StateAt(lines, m + 1, st, days, prev).stats| < days
    ensures var r, k := Scan(lines, 1, st, days, prev), |StateAt(lines, m + 1, st, days, prev).stats|;
      |r| > k && r[k] == Entry(BlockTally(lines, m), SplitTab(lines[m])[1])
  {
    AfterBlockStart(lines, m, days, prev, st);
    var after := StateAt(lines, m + 1, st, days, prev);
    if m + 1 < |lines| {
      ScanFromState(lines, m + 1, st, days, prev);
      ScanBlockEntry(lines, m + 1, after, m, days, prev);
    } else {
      StateGrows(lines, m, m + 1, st, days, prev);
      ScanFromState(lines, m, st, days, prev);
      StateStep(lines, m, st, days, prev);
      assert Scan(lines, m, StateAt(lines, m, st, days, prev), days, prev) == after.stats + [Entry(after.acc, after.date)];
      BlockEntry(lines, |lines|, after, m);
    }
  }

  /** Blocks read one after the other get entries at increasing indices: each block its own entry. */
  lemma BlockSlotsIncrease(lines: seq<string>, today: string, days: nat, prev: string -> string, m1: nat, m2: nat)
    requires m1 < m2 && BlockReached(lines, today, days, prev, m1) && BlockReached(lines, today, days, prev, m2)
    ensures BlockSlot(lines, today, days, prev, m1) < BlockSlot(lines, today, days, prev, m2)
  {
    var st := InitialCursor(lines, today, days, prev);
    StateGrows(lines, m1 + 1, m2, st, days, prev);
    StateGrows(lines, m2, m2 + 1, st, days, prev);
    StateStep(lines, m2, st, days, prev);
  }

  // ---------------------------------------------------------------
  // Every other entry is an empty day
  // ---------------------------------------------------------------

  /** Every entry counts nothing, or sits at the slot of a block the loop reaches. */
  ghost predicate Placed(lines: seq<string>, today: string, days: nat, prev: string -> string, stats: seq<DayStats>)
  {
    forall j :: 0 <= j < |stats| ==>
      (stats[j].correct == 0 && stats[j].incorrect == 0)
      || exists m: nat :: BlockReached(lines, today, days, prev, m) && BlockSlot(lines, today, days, prev, m) == j
  }

  /** Inside a block the loop makes no entry: the entries are those it had once the block's heading line was read. */
  lemma {:induction false} SteadyInBlock(lines: seq<string>, st: Cursor, m: nat, p: nat, days: nat, prev: string -> string)
    requires m < |lines| && m + 1 <= p <= BlockEnd(lines, m + 1)
    ensures StateAt(lines, p, st, days, prev).stats == StateAt(lines, m + 1, st, days, prev).stats
    decreases p
  {
    if p > m + 1 {
      var q := p - 1;
      SteadyInBlock(lines, st, m, q, days, prev);
      BlockEndLines(lines, m + 1);
      StateStep(lines, q, st, days, prev);
      ConsumeNonMarker(StateAt(lines, q, st, days, prev), lines[q], days, prev);
      assert q + 1 == p;
    }
  }

  /** Reading line `p` while fewer than `days` entries exist keeps every entry placed. */
  lemma PlacedStep(lines: seq<string>, today: string, days: nat, prev: string -> string, p: nat)
    requires |lines| >= 1 && |SplitTab(lines[0])| >= 2 && 1 <= p < |lines|
    requires var s := StateAt(lines, p, InitialCursor(lines, today, days, prev), days, prev).stats;
      |s| < days && Placed(lines, today, days, prev, s)
    ensures Placed(lines, today, days, prev, StateAt(lines, p + 1, InitialCursor(lines, today, days, prev), days, prev).stats)
  {
    var st0 := InitialCursor(lines, today, days, prev);
    var cur := StateAt(lines, p, st0, days, prev);
    InBlockStart(lines, st0);
    var m0 := StateInBlock(lines, p, st0, days, prev);
    StateStep(lines, p, st0, days, prev);
    var next := Consume(cur, lines[p], days, prev);
    if |SplitTab(lines[p])| == 2 {
      var recorded := cur.stats + [Entry(cur.acc, cur.date)];
      var z := Zeros(prev(cur.date), SplitTab(lines[p])[1], Budget(days, |recorded|), prev);
      assert next.stats == recorded + z;
      ZerosEntries(prev(cur.date), SplitTab(lines[p])[1], Budget(days, |recorded|), prev);
      SteadyInBlock(lines, st0, m0, p, days, prev);
      assert BlockReached(lines, today, days, prev, m0) && BlockSlot(lines, today, days, prev, m0) == |cur.stats|;
      forall j | 0 <= j < |next.stats|
        ensures (next.stats[j].correct == 0 && next.stats[j].incorrect == 0)
                || exists m: nat :: BlockReached(lines, today, days, prev, m) && BlockSlot(lines, today, days, prev, m) == j
      {
        if j < |cur.stats| {
          assert next.stats[j] == cur.stats[j];
        } else if j > |cur.stats| {
          assert next.stats[j] == z[j - |recorded|];
        }
      }
    } else {
      LineExtendsBlock(lines, p, cur, m0, days, prev);
    }
  }

  /** The block the last line belongs to is reached when fewer than `days` entries exist at the end, its slot the index after them. */
  lemma LastBlock(lines: seq<string>, today: string, days: nat, prev: string -> string) returns (m: nat)
    requires |lines| >= 2 && |SplitTab(lines[0])| >= 2
    requires |StateAt(lines, |lines|, InitialCursor(lines, today, days, prev), days, prev).stats| < days
    ensures BlockReached(lines, today, days, prev, m)
    ensures BlockSlot(lines, today, days, prev, m) == |StateAt(lines, |lines|, InitialCursor(lines, today, days, prev), days, prev).stats|
  {
    var st0 := InitialCursor(lines, today, days, prev);
    InBlockStart(lines, st0);
    m := StateInBlock(lines, |lines|, st0, days, prev);
    SteadyInBlock(lines, st0, m, |lines|, days, prev);
  }

  /** The entry the loop makes on the last line is placed, or counts nothing. */
  lemma LastPlaced(lines: seq<string>, today: string, days: nat, prev: string -> string)
    requires |lines| >= 2 && |SplitTab(lines[0])| >= 2
    requires var st0 := InitialCursor(lines, today, days, prev);
      && |StateAt(lines, |lines| - 1, st0, days, prev).stats| < days
      && |StateAt(lines, |lines|, st0, days, prev).stats| <= days
      && Placed(lines, today, days, prev, StateAt(lines, |lines|, st0, days, prev).stats)
    ensures var last := StateAt(lines, |lines|, InitialCursor(lines, today, days, prev), days, prev);
      Placed(lines, today, days, prev, last.stats + [Entry(last.acc, last.date)])
  {
    var st0 := InitialCursor(lines, today, days, prev);
    var last := StateAt(lines, |lines|, st0, days, prev);
    var q := |lines| - 1;
    StateStep(lines, q, st0, days, prev);
    ConsumeLength(StateAt(lines, q, st0, days, prev), lines[q], days, prev);
    assert q + 1 == |lines|;
    if |last.stats| < days {
      var m1 := LastBlock(lines, today, days, prev);
    } else {
      assert last.acc == NoOutcome;
    }
    var s := last.stats + [Entry(last.acc, last.date)];
    forall j | 0 <= j < |s|
      ensures (s[j].correct == 0 && s[j].incorrect == 0)
              || exists m: nat :: BlockReached(lines, today, days, prev, m) && BlockSlot(lines, today, days, prev, m) == j
    {
      if j < |last.stats| {
        assert s[j] == last.stats[j];
      }
    }
  }

  /** The main loop from line `p` on keeps every entry placed. */
  lemma {:induction false} ScanPlaced(lines: seq<string>, today: string, days: nat, prev: string -> string, p: nat)
    requires |lines| >= 1 && |SplitTab(lines[0])| >= 2 && 1 <= p <= |lines|
    requires var s := StateAt(lines, p, InitialCursor(lines, today, days, prev), days, prev).stats;
      |s| <= days && Placed(lines, today, days, prev, s)
    ensures Placed(lines, today, days, prev,
                   Scan(lines, p, StateAt(lines, p, InitialCursor(lines, today, days, prev), days, prev), days, prev))
    decreases |lines| - p
  {
    var st0 := InitialCursor(lines, today, days, prev);
    var cur := StateAt(lines, p, st0, days, prev);
    if p < |lines| && |cur.stats| != days {
      StateStep(lines, p, st0, days, prev);
      ConsumeLength(cur, lines[p], days, prev);
      PlacedStep(lines, today, days, prev, p);
      var r := p + 1;
      if r == |lines| {
        LastPlaced(lines, today, days, prev);
      } else {
        ScanPlaced(lines, today, days, prev, r);
      }
    }
  }

  /** No block the loop reaches has its entry at index `j`. */
  ghost predicate Unclaimed(lines: seq<string>, today: string, days: nat, prev: string -> string, j: nat)
  {
    forall m: nat :: BlockReached(lines, today, days, prev, m) ==> BlockSlot(lines, today, days, prev, m) != j
  }

  /** Empty padding after the loops' entries keeps every unclaimed entry empty. */
  lemma PadKeepsGaps(lines: seq<string>, today: string, days: nat, prev: string -> string,
                     main: seq<DayStats>, pad: seq<DayStats>)
    requires forall j :: 0 <= j < |main| && Unclaimed(lines, today, days, prev, j) ==> main[j].correct == 0 && main[j].incorrect == 0
    requires forall j :: 0 <= j < |pad| ==> pad[j].correct == 0 && pad[j].incorrect == 0
    ensures forall j :: 0 <= j < |main + pad| && Unclaimed(lines, today, days, prev, j) ==>
              (main + pad)[j].correct == 0 && (main + pad)[j].incorrect == 0
  {
    forall j | 0 <= j < |main + pad| && Unclaimed(lines, today, days, prev, j)
      ensures (main + pad)[j].correct == 0 && (main + pad)[j].incorrect == 0
    {
      if j >= |main| {
        assert (main + pad)[j] == pad[j - |main|];
      }
    }
  }

  /** An entry of the two loops, before padding, at no reached block's slot counts nothing. */
  lemma MainGapsBlank(lines: seq<string>, today: string, days: nat, prev: string -> string)
    requires |lines| >= 1 && |SplitTab(lines[0])| >= 2
    ensures var main := MainEntries(lines, today, days, prev);
      forall j :: 0 <= j < |main| && Unclaimed(lines, today, days, prev, j)
        ==> main[j].correct == 0 && main[j].incorrect == 0
  {
    var st0 := InitialCursor(lines, today, days, prev);
    assert MainEntries(lines, today, days, prev) == Scan(lines, 1, st0, days, prev);
    ZerosEntries(today, SplitTab(lines[0])[1], days, prev);
    assert Placed(lines, today, days, prev, st0.stats);
    ScanPlaced(lines, today, days, prev, 1);
  }

  /**
   * Gaps: an entry of the series at no reached block's slot counts
   * nothing. Together with DailyBlockEntry, the series holds each reached
   * block's totals at its slot and an empty day everywhere else.
   */
  lemma DailyGapsBlank(lines: seq<string>, today: string, days: nat, prev: string -> string)
    requires PrevDayStats(lines, today, days, prev).Daily?
    ensures var s := PrevDayStats(lines, today, days, prev).stats;
      forall j :: 0 <= j < |s| && Unclaimed(lines, today, days, prev, j)
        ==> s[j].correct == 0 && s[j].incorrect == 0
  {
    if |SplitTab(lines[0])| >= 2 {
      var main := MainEntries(lines, today, days, prev);
      MainGapsBlank(lines, today, days, prev);
      if |main| != days {
        PadKeepsGaps(lines, today, days, prev, main, EmptyStats(main[|main| - 1].date, Budget(days, |main|), prev));
      }
    }
  }

  // ---------------------------------------------------------------
  // The unpadded month of formatCalendarDate
  // ---------------------------------------------------------------

  /** A text the step leaves unchanged stays unchanged. */
  lemma {:induction false} IterFixed(prev: string -> string, s: string, j: nat)
    requires prev(s) == s
    ensures Iter(prev, s, j) == s
    decreases j
  {
    if j > 0 {
      IterFixed(prev, s, j - 1);
    }
  }

  /** getPrevDate applied `j` times walks back `j` days in the unpadded form. */
  lemma {:induction false} CalendarSeries(x: Date, j: nat)
    ensures Iter(PrevDate, FormatCalendarDate(x), j) == FormatCalendarDate(DaysBack(x, j))
    decreases j
  {
    if j > 0 {
      PrevDateOfCalendarText(x);
      var y := if HasPrevDay(x) then PrevDay(x) else x;
      CalendarSeries(y, j - 1);
      if !HasPrevDay(x) {
        assert DaysBack(x, j - 1) == x;
      }
    }
  }

  /** The corrected step applied `j` times walks back `j` days in the store's form. */
  lemma {:induction false} IsoSeries(x: Date, j: nat)
    ensures Iter(PrevIsoDate, IsoFormat(x), j) == IsoFormat(DaysBack(x, j))
    decreases j
  {
    if j > 0 {
      PrevIsoDateOfIsoText(x);
      var y := if HasPrevDay(x) then PrevDay(x) else x;
      IsoSeries(y, j - 1);
      if !HasPrevDay(x) {
        assert DaysBack(x, j - 1) == x;
      }
    }
  }

  /** From an unpadded text, getPrevDate never produces the store's text of a day in January to September. */
  lemma CalendarNeverMeets(y: Date, e: Date)
    requires e.month < 10
    ensures forall k: nat :: Iter(PrevDate, FormatCalendarDate(y), k) != IsoFormat(e)
  {
    forall k: nat
      ensures Iter(PrevDate, FormatCalendarDate(y), k) != IsoFormat(e)
    {
      CalendarSeries(y, k);
      CalendarTextIsNotStoreText(DaysBack(y, k), e);
    }
  }

  /**
   * As written: stepping back from today's `yyyy-MM-dd` text with
   * getPrevDate never produces the store's text of a day in January to
   * September other than today.
   */
  lemma AsWrittenNeverMeets(t: Date, e: Date, j: nat)
    requires e.month < 10 && IsoFormat(t) != IsoFormat(e)
    ensures Iter(PrevDate, IsoFormat(t), j) != IsoFormat(e)
  {
    if j > 0 && HasPrevDay(t) {
      PrevDateOfIsoText(t);
      CalendarNeverMeets(PrevDay(t), e);
    } else if j > 0 {
      FirstDayStays(t, j);
    }
  }

  /** getPrevDate leaves the text of the first day of the calendar where it is. */
  lemma FirstDayStays(t: Date, j: nat)
    requires !HasPrevDay(t)
    ensures Iter(PrevDate, IsoFormat(t), j) == IsoFormat(t)
  {
    PrevDateOfIsoText(t);
    IterFixed(PrevDate, IsoFormat(t), j);
  }

  /**
   * As written, the blocks are lost: when the newest stored date lies in
   * January to September and is not today, the sync loop never meets it,
   * and all `days` entries are empty whatever the store holds.
   */
  lemma AsWrittenLosesBlocks(lines: seq<string>, t: Date, e: Date, days: nat)
    requires |lines| >= 1 && |SplitTab(lines[0])| >= 2 && SplitTab(lines[0])[1] == IsoFormat(e)
    requires e.month < 10 && IsoFormat(t) != IsoFormat(e)
    ensures PrevDayStats(lines, IsoFormat(t), days, PrevDate).Daily?
    ensures var s := PrevDayStats(lines, IsoFormat(t), days, PrevDate).stats;
      |s| == days && forall j :: 0 <= j < |s| ==> s[j] == Blank(Iter(PrevDate, IsoFormat(t), j))
  {
    var lead := Zeros(IsoFormat(t), IsoFormat(e), days, PrevDate);
    ZerosEntries(IsoFormat(t), IsoFormat(e), days, PrevDate);
    if |lead| < days {
      AsWrittenNeverMeets(t, e, |lead|);
      assert false;
    }
    assert MainEntries(lines, IsoFormat(t), days, PrevDate) == lead;
  }

  /**
   * Corrected: with the previous day written as `yyyy-MM-dd`, when the
   * newest stored date is `k` days before today and `k` is below `days`,
   * the result has `k` empty days and then the newest block's totals under
   * its date.
   */
  lemma CorrectedKeepsBlocks(lines: seq<string>, t: Date, e: Date, k: nat, days: nat)
    requires |lines| >= 1 && |SplitTab(lines[0])| >= 2 && SplitTab(lines[0])[1] == IsoFormat(e)
    requires DaysBack(t, k) == e && forall j :: 0 <= j < k ==> DaysBack(t, j) != e
    requires k < days && (|lines| >= 2 || k > 0)
    ensures PrevDayStats(lines, IsoFormat(t), days, PrevIsoDate).Daily?
    ensures var s := PrevDayStats(lines, IsoFormat(t), days, PrevIsoDate).stats;
      && |s| > k
      && (forall j :: 0 <= j < k ==> s[j] == Blank(IsoFormat(DaysBack(t, j))))
      && s[k] == Entry(BlockTally(lines, 0), IsoFormat(e))
  {
    var lead := Zeros(IsoFormat(t), IsoFormat(e), days, PrevIsoDate);
    ZerosEntries(IsoFormat(t), IsoFormat(e), days, PrevIsoDate);
    IsoSeries(t, k);
    if |lead| > k {
      assert false;
    }
    if |lead| < k {
      IsoSeries(t, |lead|);
      IsoFormatInjective(DaysBack(t, |lead|), e);
      assert false;
    }
    forall j | 0 <= j < k
      ensures lead[j] == Blank(IsoFormat(DaysBack(t, j)))
    {
      IsoSeries(t, j);
    }
    DailyFirstBlock(lines, IsoFormat(t), days, PrevIsoDate);
  }

  /**
   * The finding on one store: today 2016-10-01, newest block dated
   * 2016-09-30. As written every entry is empty; corrected, entry 1 is the
   * block's.
   */
  lemma UnpaddedMonthExample(lines: seq<string>, days: nat)
    requires |lines| >= 1 && |SplitTab(lines[0])| >= 2 && SplitTab(lines[0])[1] == "2016-09-30"
    requires days >= 2
    ensures PrevDayStats(lines, "2016-10-01", days, PrevDate).Daily?
    ensures forall j :: 0 <= j < |PrevDayStats(lines, "2016-10-01", days, PrevDate).stats| ==>
              PrevDayStats(lines, "2016-10-01", days, PrevDate).stats[j].correct == 0
    ensures PrevDayStats(lines, "2016-10-01", days, PrevIsoDate).Daily?
    ensures var s := PrevDayStats(lines, "2016-10-01", days, PrevIsoDate).stats;
      |s| > 1 && s[0] == Blank("2016-10-01") && s[1] == Entry(BlockTally(lines, 0), "2016-09-30")
  {
    var t, e := Date(2016, 10, 1), Date(2016, 9, 30);
    ExampleDates();
    AsWrittenLosesBlocks(lines, t, e, days);
    assert DaysBack(t, 1) == e;
    assert DaysBack(t, 0) == t;
    CorrectedKeepsBlocks(lines, t, e, 1, days);
  }
}
