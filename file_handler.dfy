/**
 * The recorder of VoxSpell's statistics store (StatisticsFileHandler).
 *
 * The store is a text file of lines, newest date block first:
 *
 *   date<TAB>2016-10-15
 *   word<TAB>correct<TAB>incorrect<TAB>category
 *   ...
 *   date<TAB>2016-10-14
 *   ...
 *
 * Recording one outcome writes a complete replacement file to a temporary
 * file and then renames it over the store; here the store is the sequence
 * of its lines and the rename is one assignment of the new sequence.
 */
module FileHandler {
  import opened Tokens

  const DateId: string := "date"

  /** getDateFormatForFile, without its line terminator. */
  function DateLine(today: string): string
  {
    DateId + [Tab] + today
  }

  /** getStatisticFileFormat, without its line terminator. */
  function RecordLine(word: string, correct: nat, incorrect: nat, category: string): string
  {
    word + [Tab] + NatToString(correct) + [Tab] + NatToString(incorrect) + [Tab] + category
  }

  /** getNewStatistic: the record of a word's first outcome. */
  function NewStatistic(word: string, correct: bool, category: string): string
  {
    RecordLine(word, if correct then 1 else 0, if correct then 0 else 1, category)
  }

  /** A line writeStatistic reads as a date marker: two fields, the first "date". */
  predicate IsDateMarker(line: string)
  {
    var t := SplitTab(line);
    |t| == 2 && t[0] == DateId
  }

  /** The date marker of today's block. */
  predicate IsTodayMarker(line: string, today: string)
  {
    IsDateMarker(line) && SplitTab(line)[1] == today
  }

  /** A line that ends today's block during the scan: its first field is "date". */
  predicate StartsWithDateId(line: string)
  {
    var t := SplitTab(line);
    |t| > 0 && t[0] == DateId
  }

  /** A record of (word, category) that the scan updates. */
  predicate Matching(line: string, word: string, category: string)
  {
    var t := SplitTab(line);
    |t| >= 4 && t[0] == word && t[3] == category
  }

  /** A line the scan passes over: not a block end, and no record of (word, category). */
  predicate OtherLine(line: string, word: string, category: string)
  {
    var t := SplitTab(line);
    |t| > 0 && t[0] != DateId && (t[0] == word ==> |t| >= 4 && t[3] != category)
  }

  /** Where the scan of today's block stops. */
  datatype Step =
    | Crash          // tokens[0] or tokens[3] read out of range
    | BlockEnds      // next date marker or end of file: the word is new today
    | Match(index: nat)

  /**
   * The inner loop of writeStatistic over today's block from line `i` on:
   * the first line whose first field is "date" ends the block, the first
   * record of (word, category) is the one to update.
   */
  function ScanToday(file: seq<string>, word: string, category: string, i: nat): (r: Step)
    requires i <= |file|
    ensures r.Match? ==> i <= r.index < |file| && Matching(file[r.index], word, category)
    ensures r.Match? ==> word != DateId
    decreases |file| - i
  {
    if i == |file| then BlockEnds
    else
      var t := SplitTab(file[i]);
      if |t| == 0 then Crash
      else if t[0] == DateId then BlockEnds
      else if t[0] == word then
        if |t| < 4 then Crash
        else if t[3] == category then Match(i)
        else ScanToday(file, word, category, i + 1)
      else ScanToday(file, word, category, i + 1)
  }

  /** The record of (word, category) after one more outcome. */
  function UpdatedRecord(line: string, word: string, correct: bool, category: string): string
    requires |SplitTab(line)| >= 4
  {
    var t := SplitTab(line);
    RecordLine(word, ParseInt(t[1]) + (if correct then 1 else 0),
               ParseInt(t[2]) + (if correct then 0 else 1), category)
  }

  /** What one writeStatistic call does to the store. */
  datatype Outcome = Crashed | Rewritten(content: seq<string>)

  /**
   * The store after recording one outcome of `word` in `category` on
   * `today`, as the four branches of writeStatistic produce it.
   */
  function Recorded(file: seq<string>, today: string, word: string, correct: bool, category: string): Outcome
  {
    var opening := [DateLine(today), NewStatistic(word, correct, category)];
    if |file| == 0 then Rewritten(opening)
    else if !IsTodayMarker(file[0], today) then Rewritten(opening + file)
    else
      match ScanToday(file, word, category, 1)
      case Crash => Crashed
      case BlockEnds => Rewritten(opening + file[1..])
      case Match(k) => Rewritten(file[..k] + [UpdatedRecord(file[k], word, correct, category)] + file[k + 1..])
  }

  // ---------------------------------------------------------------
  // The private writers; each returns what it writes to the temp file.
  // ---------------------------------------------------------------

  /** writeRestOfFile: copies every line the reader has left, from line `from` on, after `written`. */
  method WriteRestOfFile(file: seq<string>, from: nat, written: seq<string>) returns (temp: seq<string>)
    requires from <= |file|
    ensures temp == written + file[from..]
  {
    temp := written;
    var p := from;
    while p < |file|
      invariant from <= p <= |file|
      invariant temp == written + file[from..p]
    {
      temp := temp + [file[p]];
      p := p + 1;
    }
  }

  /** writeNewStatisticAndRestOfFile: today's marker, the new record, then the rest of the file. */
  method WriteNewStatisticAndRestOfFile(file: seq<string>, from: nat, today: string, word: string,
                                        correct: bool, category: string) returns (temp: seq<string>)
    requires from <= |file|
    ensures temp == [DateLine(today), NewStatistic(word, correct, category)] + file[from..]
  {
    temp := WriteRestOfFile(file, from, [DateLine(today), NewStatistic(word, correct, category)]);
  }

  /** recordNewStatForToday: a new block for today on top of the whole old file. */
  method RecordNewStatForToday(file: seq<string>, today: string, word: string, correct: bool,
                               category: string) returns (temp: seq<string>)
    ensures temp == [DateLine(today), NewStatistic(word, correct, category)] + file
  {
    temp := WriteNewStatisticAndRestOfFile(file, 0, today, word, correct, category);
  }

  /** recordNewWordForToday: skips the old first line (today's marker) and puts the new record right after a fresh marker. */
  method RecordNewWordForToday(file: seq<string>, today: string, word: string, correct: bool,
                               category: string) returns (temp: seq<string>)
    requires |file| >= 1
    ensures temp == [DateLine(today), NewStatistic(word, correct, category)] + file[1..]
  {
    temp := WriteNewStatisticAndRestOfFile(file, 1, today, word, correct, category);
  }

  /**
   * updateStatistic: copies the file up to the first record of
   * (word, category), rewrites that record with one more outcome, and
   * copies the rest. It is called only after the scan found that record.
   */
  method UpdateStatistic(file: seq<string>, word: string, correct: bool, category: string)
      returns (temp: seq<string>)
    requires |file| >= 1 && IsDateMarker(file[0])
    requires ScanToday(file, word, category, 1).Match?
    ensures var k := ScanToday(file, word, category, 1).index;
      temp == file[..k] + [UpdatedRecord(file[k], word, correct, category)] + file[k + 1..]
  {
    ghost var k := ScanToday(file, word, category, 1).index;
    temp := [];
    var p := 0;
    while p < |file|
      invariant 0 <= p <= k
      invariant temp == file[..p]
      invariant p >= 1 ==> ScanToday(file, word, category, p) == Match(k)
    {
      var t := SplitTab(file[p]);
      if t[0] == word && t[3] == category {
        temp := temp + [UpdatedRecord(file[p], word, correct, category)];
        break;
      }
      temp := temp + [file[p]];
      p := p + 1;
    }
    temp := WriteRestOfFile(file, p + 1, temp);
  }

  // ---------------------------------------------------------------
  // What one recorded outcome does to the store
  // ---------------------------------------------------------------

  /** A non-empty text without a tab: one field of a line. */
  predicate IsField(s: string)
  {
    s != "" && Tab !in s
  }

  /** A line on which the scan of today's block throws: no field at all, or a short line whose first field is the word. */
  predicate Malformed(line: string, word: string)
  {
    var t := SplitTab(line);
    |t| == 0 || (t[0] != DateId && t[0] == word && |t| < 4)
  }

  /**
   * Record round trip: the line getStatisticFileFormat writes splits back
   * into word, correct count, incorrect count and category, and both
   * counts read back as written.
   */
  lemma RecordRoundTrip(word: string, correct: nat, incorrect: nat, category: string)
    requires Tab !in word && IsField(category)
    ensures SplitTab(RecordLine(word, correct, incorrect, category))
            == [word, NatToString(correct), NatToString(incorrect), category]
    ensures ParseInt(NatToString(correct)) == correct && ParseInt(NatToString(incorrect)) == incorrect
  {
    DigitsExclude(NatToString(correct), Tab);
    DigitsExclude(NatToString(incorrect), Tab);
    JoinFour(word, NatToString(correct), NatToString(incorrect), category, Tab);
    SplitJoin([word, NatToString(correct), NatToString(incorrect), category], Tab);
    ParseNatToString(correct);
    ParseNatToString(incorrect);
  }

  /** The marker getDateFormatForFile writes is read back as the marker of that date. */
  lemma DateLineRoundTrip(today: string)
    requires IsField(today)
    ensures SplitTab(DateLine(today)) == [DateId, today]
    ensures IsTodayMarker(DateLine(today), today)
  {
    JoinTwo(DateId, today, Tab);
    SplitJoin([DateId, today], Tab);
  }

  /** New record counts: a first outcome is recorded as (1, 0) when correct and (0, 1) otherwise. */
  lemma NewRecordCounts(word: string, correct: bool, category: string)
    requires Tab !in word && IsField(category)
    ensures var t := SplitTab(NewStatistic(word, correct, category));
      && |t| == 4 && t[0] == word && t[3] == category
      && ParseInt(t[1]) == (if correct then 1 else 0)
      && ParseInt(t[2]) == (if correct then 0 else 1)
  {
    RecordRoundTrip(word, if correct then 1 else 0, if correct then 0 else 1, category);
  }

  /** Recording into an empty store gives exactly today's marker and the new record. */
  lemma RecordIntoEmptyStore(today: string, word: string, correct: bool, category: string)
    requires IsField(today) && Tab !in word && IsField(category)
    ensures var r := Recorded([], today, word, correct, category);
      && r == Rewritten([DateLine(today), NewStatistic(word, correct, category)])
      && IsTodayMarker(r.content[0], today)
      && |SplitTab(r.content[1])| == 4
      && SplitTab(r.content[1])[0] == word && SplitTab(r.content[1])[3] == category
  {
    DateLineRoundTrip(today);
    NewRecordCounts(word, correct, category);
  }

  /** New block: without today's marker on top, a block for today is put above the old lines, all kept in order. */
  lemma NewBlockOnTop(file: seq<string>, today: string, word: string, correct: bool, category: string)
    requires |file| > 0 && !IsTodayMarker(file[0], today)
    ensures var r := Recorded(file, today, word, correct, category);
      && r.Rewritten? && |r.content| == |file| + 2
      && r.content[0] == DateLine(today) && r.content[1] == NewStatistic(word, correct, category)
      && forall j :: 0 <= j < |file| ==> r.content[j + 2] == file[j]
  {
  }

  /** The scan reaches the end of today's block when every line before it is some other line. */
  lemma {:induction false} ScanReachesBlockEnd(file: seq<string>, word: string, category: string, i: nat, e: nat)
    requires 1 <= i <= e <= |file|
    requires e < |file| ==> StartsWithDateId(file[e])
    requires forall j :: i <= j < e ==> OtherLine(file[j], word, category)
    ensures ScanToday(file, word, category, i) == BlockEnds
    decreases e - i
  {
    if i < e {
      ScanReachesBlockEnd(file, word, category, i + 1, e);
    }
  }

  /** The scan stops at a record of (word, category) when every line before it is some other line. */
  lemma {:induction false} ScanFindsMatch(file: seq<string>, word: string, category: string, i: nat, k: nat)
    requires 1 <= i <= k < |file|
    requires word != DateId && Matching(file[k], word, category)
    requires forall j :: i <= j < k ==> OtherLine(file[j], word, category)
    ensures ScanToday(file, word, category, i) == Match(k)
    decreases k - i
  {
    if i < k {
      ScanFindsMatch(file, word, category, i + 1, k);
    }
  }

  /** Conversely, the record the scan stops at is the first one: every line before it is some other line. */
  lemma {:induction false} MatchIsFirst(file: seq<string>, word: string, category: string, i: nat)
    requires 1 <= i <= |file|
    requires ScanToday(file, word, category, i).Match?
    ensures forall j :: i <= j < ScanToday(file, word, category, i).index ==> OtherLine(file[j], word, category)
    decreases |file| - i
  {
    var k := ScanToday(file, word, category, i).index;
    if k > i {
      assert OtherLine(file[i], word, category);
      assert ScanToday(file, word, category, i + 1) == Match(k);
      MatchIsFirst(file, word, category, i + 1);
    }
  }

  /** The scan throws only on a malformed line: on a store without one, recording always rewrites it. */
  lemma {:induction false} ScanDoesNotCrash(file: seq<string>, word: string, category: string, i: nat)
    requires 1 <= i <= |file|
    requires forall j :: i <= j < |file| ==> !Malformed(file[j], word)
    ensures ScanToday(file, word, category, i) != Crash
    decreases |file| - i
  {
    if i < |file| {
      ScanDoesNotCrash(file, word, category, i + 1);
    }
  }

  lemma NoCrashWithoutMalformedLine(file: seq<string>, today: string, word: string, correct: bool, category: string)
    requires forall j :: 1 <= j < |file| ==> !Malformed(file[j], word)
    ensures Recorded(file, today, word, correct, category).Rewritten?
  {
    if |file| > 0 && IsTodayMarker(file[0], today) {
      ScanDoesNotCrash(file, word, category, 1);
    }
  }

  /** First line: whatever branch is taken, the store afterwards begins with today's marker. */
  lemma FirstLineIsTodayMarker(file: seq<string>, today: string, word: string, correct: bool, category: string)
    requires IsField(today)
    ensures var r := Recorded(file, today, word, correct, category);
      r.Rewritten? ==> |r.content| >= 2 && IsTodayMarker(r.content[0], today)
  {
    DateLineRoundTrip(today);
  }

  /**
   * New word today: when today's block (ended by line `e`, a line
   * beginning with "date", or by the end of the file) holds no record of
   * (word, category), the new record goes right after the marker and
   * every later line is kept.
   */
  lemma NewWordToday(file: seq<string>, today: string, word: string, correct: bool, category: string, e: nat)
    requires |file| >= 1 && IsTodayMarker(file[0], today)
    requires 1 <= e <= |file| && (e < |file| ==> StartsWithDateId(file[e]))
    requires forall j :: 1 <= j < e ==> OtherLine(file[j], word, category)
    ensures var r := Recorded(file, today, word, correct, category);
      && r.Rewritten? && |r.content| == |file| + 1
      && r.content[0] == DateLine(today) && r.content[1] == NewStatistic(word, correct, category)
      && forall j :: 1 <= j < |file| ==> r.content[j + 1] == file[j]
  {
    ScanReachesBlockEnd(file, word, category, 1, e);
  }

  /**
   * Existing word today: the first record of (word, category) in today's
   * block gets one more correct or incorrect outcome, the other count
   * stays, and every other line is unchanged.
   */
  lemma ExistingWordToday(file: seq<string>, today: string, word: string, correct: bool, category: string, k: nat)
    requires |file| >= 1 && IsTodayMarker(file[0], today)
    requires 1 <= k < |file| && word != DateId && Matching(file[k], word, category)
    requires forall j :: 1 <= j < k ==> OtherLine(file[j], word, category)
    requires Tab !in word && IsField(category)
    ensures var r := Recorded(file, today, word, correct, category);
      && r.Rewritten? && |r.content| == |file|
      && (var t, u := SplitTab(file[k]), SplitTab(r.content[k]);
          && |u| == 4 && u[0] == word && u[3] == category
          && ParseInt(u[1]) == ParseInt(t[1]) + (if correct then 1 else 0)
          && ParseInt(u[2]) == ParseInt(t[2]) + (if correct then 0 else 1))
      && forall j :: 0 <= j < |file| && j != k ==> r.content[j] == file[j]
  {
    RecordedAtMatch(file, today, word, correct, category, k);
    ReplaceLine(file, k, UpdatedRecord(file[k], word, correct, category));
    UpdatedRecordFields(file[k], word, correct, category);
  }

  /** With today's marker on top and the scan stopping at `k`, only line `k` is rewritten. */
  lemma RecordedAtMatch(file: seq<string>, today: string, word: string, correct: bool, category: string, k: nat)
    requires |file| >= 1 && IsTodayMarker(file[0], today)
    requires 1 <= k < |file| && word != DateId && Matching(file[k], word, category)
    requires forall j :: 1 <= j < k ==> OtherLine(file[j], word, category)
    ensures Recorded(file, today, word, correct, category)
            == Rewritten(file[..k] + [UpdatedRecord(file[k], word, correct, category)] + file[k + 1..])
  {
    ScanFindsMatch(file, word, category, 1, k);
  }

  /** The rewritten record keeps word and category and counts one more outcome. */
  lemma UpdatedRecordFields(line: string, word: string, correct: bool, category: string)
    requires |SplitTab(line)| >= 4 && Tab !in word && IsField(category)
    ensures var t, u := SplitTab(line), SplitTab(UpdatedRecord(line, word, correct, category));
      && |u| == 4 && u[0] == word && u[3] == category
      && ParseInt(u[1]) == ParseInt(t[1]) + (if correct then 1 else 0)
      && ParseInt(u[2]) == ParseInt(t[2]) + (if correct then 0 else 1)
  {
    var t := SplitTab(line);
    RecordRoundTrip(word, ParseInt(t[1]) + (if correct then 1 else 0),
                    ParseInt(t[2]) + (if correct then 0 else 1), category);
  }

  /** Replacing line `k` changes that line and no other. */
  lemma ReplaceLine(file: seq<string>, k: nat, u: string)
    requires k < |file|
    ensures var c := file[..k] + [u] + file[k + 1..];
      |c| == |file| && c[k] == u && forall j :: 0 <= j < |file| && j != k ==> c[j] == file[j]
  {
  }

  /**
   * The inner loop of writeStatistic over today's block: it stops at the
   * first line that throws, ends the block, or records (word, category).
   */
  method ScanTodaysBlock(file: seq<string>, word: string, category: string) returns (step: Step)
    requires |file| >= 1
    ensures step == ScanToday(file, word, category, 1)
  {
    var p := 1;
    while p < |file|
      invariant 1 <= p <= |file|
      invariant ScanToday(file, word, category, p) == ScanToday(file, word, category, 1)
    {
      var tk := SplitTab(file[p]);
      if |tk| == 0 {
        return Crash;
      }
      if tk[0] == DateId {
        // end of today's block
        return BlockEnds;
      }
      if tk[0] == word {
        if |tk| < 4 {
          return Crash;
        }
        if tk[3] == category {
          return Match(p);
        }
      }
      p := p + 1;
    }
    // end of file without finding the word
    return BlockEnds;
  }

  /** StatisticsFileHandler: the store's lines and the date statistics are recorded under. */
  class StatisticsFileHandler {
    /** The lines of the hidden statistics file. */
    var lines: seq<string>
    /** todaysDate; the source reads it from the system clock, here it is given. */
    var todaysDate: string

    /** Opens the store with the lines it already holds (none for a freshly created file). */
    constructor (existing: seq<string>, today: string)
      ensures lines == existing && todaysDate == today
    {
      lines := existing;
      todaysDate := today;
    }

    /** setDate: changes the date statistics are recorded under. */
    method SetDate(date: string)
      modifies this
      ensures todaysDate == date && lines == old(lines)
    {
      todaysDate := date;
    }

    /**
     * writeStatistic: records one outcome. `crashed` stands for the
     * out-of-range field access the source makes on a line of today's block
     * with no field, or on a short line whose first field is the word; the
     * exception leaves the store as it was.
     *
     * In the source the scan is a do/while over the lines, but every branch
     * of its body hands the reader to a writer that reads it to the end, so
     * the body runs exactly once.
     */
    method WriteStatistic(word: string, correct: bool, category: string) returns (crashed: bool)
      modifies this
      ensures todaysDate == old(todaysDate)
      ensures Recorded(old(lines), todaysDate, word, correct, category)
              == if crashed then Crashed else Rewritten(lines)
      ensures crashed ==> lines == old(lines)
    {
      var file := lines;
      var temp: seq<string>;
      crashed := false;
      if |file| == 0 {
        // the statistics file has just been created
        temp := RecordNewStatForToday(file, todaysDate, word, correct, category);
      } else {
        var t := SplitTab(file[0]);
        if |t| == 2 && t[0] == DateId && t[1] == todaysDate {
          var step := ScanTodaysBlock(file, word, category);
          match step {
            case Crash =>
              crashed := true;
              return;
            case BlockEnds =>
              // the word has not been recorded today
              temp := RecordNewWordForToday(file, todaysDate, word, correct, category);
            case Match(_) =>
              temp := UpdateStatistic(file, word, correct, category);
          }
        } else {
          // no block for today, or the file does not begin with a date
          temp := RecordNewStatForToday(file, todaysDate, word, correct, category);
        }
      }
      // the temp file replaces the store
      lines := temp;
    }
  }
}
