# VoxSpell statistics store, modelled in Dafny

VoxSpell keeps its spelling statistics in one hidden text file, the
statistics store. The store is a sequence of lines made of date blocks,
newest first. A block opens with a date marker `date<TAB>yyyy-MM-dd`,
followed by one record `word<TAB>correct<TAB>incorrect<TAB>category` per
word and category tested that day.

The project models the two classes that work on the store.

- **The recorder**, `StatisticsFileHandler.writeStatistic`, records one
  outcome by rewriting the whole store. There are four cases:
  - the store is empty;
  - the store has no block for today, so a new block goes on top;
  - today's block has no record of (word, category), so a new record goes
    right after today's marker;
  - the first such record exists, and one of its counts goes up by one.

  The private writers (`recordNewStatForToday`, `recordNewWordForToday`,
  `updateStatistic`, `writeNewStatisticAndRestOfFile`, `writeRestOfFile`)
  are methods that build the new line sequence in loops. The line formats
  (`getDateFormatForFile`, `getNewStatistic`, `getStatisticFileFormat`)
  are functions.
- **The aggregator**, `StatisticsRetriever`:
  - `getStatsForCategory` and `getLifeTimeStats` total the counts of
    four-field lines;
  - `getPrevDayStats` builds a per-day series, today first, with empty
    days for dates without a block, padded by `addEmptyStats`;
  - `getPrevDate` and `formatCalendarDate` step a date back one day.

Files and modules:

- `tokens.dfy` (`Tokens`): Java's `String.split` with one separator, which
  drops trailing empty fields; the decimal text of a non-negative int
  (`n + ""`); the reader's `parseInt`; zero padding.
- `dates.dfy` (`Dates`): a proleptic Gregorian calendar and its
  previous-day step, which stands in for the calendar library's
  `addDays(-1)`. It holds both text forms of a date, the store's
  `yyyy-MM-dd` and `formatCalendarDate`'s form, and `getPrevDate`.
- `file_handler.dfy` (`FileHandler`): the recorder. `Recorded` is its
  specification as a function. The class `StatisticsFileHandler` holds the
  store's lines and today's date, and its `WriteStatistic` method is
  proved against `Recorded`. Lemmas state what each case does to the
  store.
- `retriever.dfy` (`Retriever`): the two totals, their loops proved
  against sum functions, and lemmas about the totals:
  - order independence;
  - lifetime total equals the sum of the category totals;
  - effect of one recorded outcome on every total.
- `daily_stats.dfy` (`DailyStats`): `getPrevDayStats` and `addEmptyStats`
  as loops, proved against the function `PrevDayStats`. Lemmas state the
  series' length, its dates, its crash cases, and where its counts come
  from.

The store is a `seq<string>` of lines without their terminators. The
temp-file write followed by the rename is one assignment of the new
sequence. Today's date is a field of the class, which the program reads
from the system clock and `setDate` overwrites.

The previous-day step of `getPrevDayStats` is a parameter
`prev: string -> string`. The program's step is `Dates.PrevDate`.
`Dates.PrevIsoDate` is the corrected step; see Findings.

## Model

| member | source | states |
|---|---|---|
| Tokens.Split | src/voxspell/statistics/StatisticsFileHandler.java:97 | `split("\\t")`: a text without the separator is one field, and no field contains the separator |
| Tokens.FieldsFree | src/voxspell/statistics/StatisticsFileHandler.java:97 | no field of a split contains the separator |
| Tokens.DropTrailingEmptyPrefix | src/voxspell/statistics/StatisticsFileHandler.java:97 | the limit-0 split keeps a prefix of the fields ending in a non-empty field, and drops only empty fields |
| Tokens.JoinFields | src/voxspell/statistics/StatisticsFileHandler.java:97 | joining the fields of a text with the separator gives the text back |
| Tokens.FieldsJoin | src/voxspell/statistics/StatisticsFileHandler.java:97 | the fields of a join of separator-free texts are those texts |
| Tokens.SplitJoin | src/voxspell/statistics/StatisticsFileHandler.java:231-233 | splitting a line written field by field, with a non-empty last field, gives the fields back |
| Tokens.NatToString | src/voxspell/statistics/StatisticsFileHandler.java:232 | `n + ""` is a digit string; it starts with '0' only for 0; it has one digit exactly below 10 |
| Tokens.ParseInt | src/voxspell/statistics/StatisticsRetriever.java:29-30 | definition: a count field's value, the decimal value of a digit string and 0 for any other text |
| Tokens.ParseNatToString | src/voxspell/statistics/StatisticsFileHandler.java:159-160 | `parseInt` reads back the count `n + ""` wrote |
| Tokens.PadLeft | src/voxspell/statistics/StatisticsFileHandler.java:73 | zero padding to a width gives that width, or the text itself when already as wide |
| Tokens.ParsePadded | src/voxspell/statistics/StatisticsFileHandler.java:73 | a zero-padded count reads back as the count |
| Tokens.LeadingZero | src/voxspell/statistics/StatisticsRetriever.java:148 | a leading zero does not change a digit string's value |
| Dates.DaysInMonth | src/voxspell/statistics/StatisticsRetriever.java:141 | a month has 28 to 31 days, and 29 exactly for February of a leap year |
| Dates.NextDay | src/voxspell/statistics/StatisticsRetriever.java:141 | the next day is a later valid day that has a predecessor |
| Dates.PrevDay | src/voxspell/statistics/StatisticsRetriever.java:141 | `addDays(-1)`: an earlier valid day whose next day is the given day |
| Dates.PrevOfNext | src/voxspell/statistics/StatisticsRetriever.java:141 | one day forward and one back returns to the same day |
| Dates.PrevDayIsLatestEarlier | src/voxspell/statistics/StatisticsRetriever.java:141 | every valid day before `d` is `PrevDay(d)` or earlier: the previous day is the latest earlier day |
| Dates.BeforeTransitive | src/voxspell/statistics/StatisticsRetriever.java:141 | chronological order is transitive |
| Dates.FormatCalendarDate | src/voxspell/statistics/StatisticsRetriever.java:145-150 | definition: year and month as plain decimals, the day padded to two digits, joined by dashes |
| Dates.IsoFormat | src/voxspell/statistics/StatisticsFileHandler.java:73 | definition: the `yyyy-MM-dd` text of a day, year of at least four digits, month and day of two |
| Dates.ParseDate | src/voxspell/statistics/StatisticsRetriever.java:135-138 | definition: the three dash-separated fields of a date text read as year, month and day |
| Dates.PrevDate | src/voxspell/statistics/StatisticsRetriever.java:134-143 | definition: the day before the date a text denotes, written by `formatCalendarDate`; any other text unchanged |
| Dates.PrevIsoDate | src/voxspell/statistics/StatisticsRetriever.java:134-143 | definition: the corrected step, the day before written in the `yyyy-MM-dd` form |
| Dates.SplitThree | src/voxspell/statistics/StatisticsRetriever.java:135 | `split("-")` of three dash-joined digit strings gives the three back |
| Dates.DayTextValue | src/voxspell/statistics/StatisticsRetriever.java:148 | the day field of `formatCalendarDate` is digits that read back as the day |
| Dates.ParseFormattedDate | src/voxspell/statistics/StatisticsRetriever.java:145-150 | `getPrevDate` reads back exactly the date `formatCalendarDate` wrote |
| Dates.ParseIsoDate | src/voxspell/statistics/StatisticsRetriever.java:134-138 | `getPrevDate` reads back exactly the date a `yyyy-MM-dd` text denotes |
| Dates.PrevDateSteps | src/voxspell/statistics/StatisticsRetriever.java:134-143 | `getPrevDate` steps back exactly one Gregorian day from either text form, and writes the unpadded form |
| Dates.PrevIsoDateSteps | src/voxspell/statistics/StatisticsRetriever.java:134-143 | the corrected step maps the `yyyy-MM-dd` text of a day to that of the previous day |
| Dates.IsoFormatInjective | src/voxspell/statistics/StatisticsFileHandler.java:73 | different days have different `yyyy-MM-dd` texts |
| Dates.CalendarTextIsNotStoreText | src/voxspell/statistics/StatisticsRetriever.java:147 | no text `formatCalendarDate` produces equals the store's text of a day in January to September |
| Dates.PrevDateOfCalendarText | src/voxspell/statistics/StatisticsRetriever.java:134-150 | `getPrevDate` on its own output steps back one day, or stays on the first day of the calendar |
| Dates.PrevDateOfIsoText | src/voxspell/statistics/StatisticsRetriever.java:134-150 | `getPrevDate` on a stored date gives the previous day in the unpadded form |
| Dates.PrevIsoDateOfIsoText | src/voxspell/statistics/StatisticsRetriever.java:134-143 | the corrected step on a stored date gives the previous day in the stored form |
| Dates.ExampleDates | src/voxspell/statistics/StatisticsRetriever.java:134-150 | the texts of 2016-10-01 and 2016-09-30 in both forms, and the first is the day after the second |
| Dates.PrevDateExample | src/voxspell/statistics/StatisticsRetriever.java:145-150 | "2016-10-01" steps back to "2016-9-30" as written and to "2016-09-30" corrected |
| FileHandler.DateLine | src/voxspell/statistics/StatisticsFileHandler.java:221-223 | definition: a date marker, "date", a tab and the date |
| FileHandler.RecordLine | src/voxspell/statistics/StatisticsFileHandler.java:231-233 | definition: a record, word, both counts in decimal and category, tab-separated |
| FileHandler.NewStatistic | src/voxspell/statistics/StatisticsFileHandler.java:225-229 | definition: the record of a first outcome, counted (1, 0) when correct and (0, 1) otherwise |
| FileHandler.Recorded | src/voxspell/statistics/StatisticsFileHandler.java:83-129 | definition: the store after one outcome in each of the four cases, or the crash of the scan of today's block |
| FileHandler.UpdatedRecord | src/voxspell/statistics/StatisticsFileHandler.java:159-168 | definition: the matched record rewritten with one more correct or incorrect count, under its word and category |
| FileHandler.ScanToday | src/voxspell/statistics/StatisticsFileHandler.java:103-116 | a record the scan of today's block stops at lies in the store, matches (word, category), and the word is not "date" |
| FileHandler.ScanTodaysBlock | src/voxspell/statistics/StatisticsFileHandler.java:103-116 | the inner loop stops where `ScanToday` says: at the first line that throws, at the block's end, or at the first matching record |
| FileHandler.WriteRestOfFile | src/voxspell/statistics/StatisticsFileHandler.java:238-247 | the output is what was written so far followed by every remaining line, in order |
| FileHandler.WriteNewStatisticAndRestOfFile | src/voxspell/statistics/StatisticsFileHandler.java:213-219 | today's marker, the new record, then the rest of the store from the reader's position |
| FileHandler.RecordNewStatForToday | src/voxspell/statistics/StatisticsFileHandler.java:134-144 | today's marker and the new record above the whole old store |
| FileHandler.RecordNewWordForToday | src/voxspell/statistics/StatisticsFileHandler.java:198-211 | today's marker and the new record in place of the old first line, then every later line |
| FileHandler.UpdateStatistic | src/voxspell/statistics/StatisticsFileHandler.java:149-181 | the lines before the first matching record, that record with one more outcome, then the rest |
| FileHandler.RecordRoundTrip | src/voxspell/statistics/StatisticsFileHandler.java:231-233 | a written record splits back into word, both counts and category, and both counts read back as written |
| FileHandler.DateLineRoundTrip | src/voxspell/statistics/StatisticsFileHandler.java:221-223 | the written marker splits into "date" and the date, and reads as today's marker |
| FileHandler.NewRecordCounts | src/voxspell/statistics/StatisticsFileHandler.java:225-229 | a first outcome is recorded as (1, 0) when correct and (0, 1) otherwise, under its word and category |
| FileHandler.RecordIntoEmptyStore | src/voxspell/statistics/StatisticsFileHandler.java:92-94 | recording into an empty store gives exactly today's marker and the new record |
| FileHandler.NewBlockOnTop | src/voxspell/statistics/StatisticsFileHandler.java:99-125 | without today's marker on top, the result is today's marker, the new record, then every old line in order |
| FileHandler.ScanReachesBlockEnd | src/voxspell/statistics/StatisticsFileHandler.java:103-109 | the scan reaches the block's end when every line before it is neither a match nor malformed |
| FileHandler.ScanFindsMatch | src/voxspell/statistics/StatisticsFileHandler.java:103-114 | the scan stops at a matching record when every line before it in the block is some other line |
| FileHandler.MatchIsFirst | src/voxspell/statistics/StatisticsFileHandler.java:103-115 | conversely, every line before the record the scan stops at is some other line |
| FileHandler.ScanDoesNotCrash | src/voxspell/statistics/StatisticsFileHandler.java:104-112 | the scan throws only on a line with no field, or on a short line whose first field is the word |
| FileHandler.NoCrashWithoutMalformedLine | src/voxspell/statistics/StatisticsFileHandler.java:83-129 | on a store without such a line, recording always rewrites the store |
| FileHandler.FirstLineIsTodayMarker | src/voxspell/statistics/StatisticsFileHandler.java:134-140 | in every case that rewrites the store, its first line afterwards is today's marker |
| FileHandler.NewWordToday | src/voxspell/statistics/StatisticsFileHandler.java:103-118 | today's block without the record: the new record goes at index 1, later lines are kept, and the store grows by one |
| FileHandler.ExistingWordToday | src/voxspell/statistics/StatisticsFileHandler.java:154-176 | the first matching record gets one more correct or incorrect outcome, the other count stays, every other line and the length are unchanged |
| FileHandler.RecordedAtMatch | src/voxspell/statistics/StatisticsFileHandler.java:149-181 | when the scan stops at record k of today's block, recording rewrites that line and keeps the others in place |
| FileHandler.UpdatedRecordFields | src/voxspell/statistics/StatisticsFileHandler.java:159-168 | the rewritten record keeps word and category and counts one more correct or incorrect outcome |
| FileHandler.StatisticsFileHandler.constructor | src/voxspell/statistics/StatisticsFileHandler.java:41-47 | the handler opens on the store's lines and today's date |
| FileHandler.StatisticsFileHandler.SetDate | src/voxspell/statistics/StatisticsFileHandler.java:68-70 | the date changes and the store does not |
| FileHandler.StatisticsFileHandler.WriteStatistic | src/voxspell/statistics/StatisticsFileHandler.java:83-129 | the new store is `Recorded` of the old store, or the call throws exactly when `Recorded` says it crashes, leaving the store unchanged; the date is unchanged |
| Retriever.LineTally | src/voxspell/statistics/StatisticsRetriever.java:45-50 | definition: the two counts of a line of exactly four fields, nothing for any other line |
| Retriever.LifetimeTally | src/voxspell/statistics/StatisticsRetriever.java:40-53 | definition: the sum of `LineTally` over the store's lines in order |
| Retriever.CategoryTally | src/voxspell/statistics/StatisticsRetriever.java:20-34 | definition: the sum of the counts of the four-field lines whose fourth field is the category |
| Retriever.GetStatsForCategory | src/voxspell/statistics/StatisticsRetriever.java:20-34 | the loop returns the sum of both counts over every four-field line of the category, across all dates |
| Retriever.GetLifeTimeStats | src/voxspell/statistics/StatisticsRetriever.java:40-53 | the loop returns the sum of both counts over every four-field line |
| Retriever.SumToAgree | src/voxspell/statistics/StatisticsRetriever.java:25-32 | totals over two stores that agree on their first n lines agree |
| Retriever.SumToAppend | src/voxspell/statistics/StatisticsRetriever.java:25-32 | the total over a store and a prefix of another is the sum of the two totals |
| Retriever.SumOverAppend | src/voxspell/statistics/StatisticsRetriever.java:25-32 | totals add up over concatenated stretches of the store |
| Retriever.SumOverAround | src/voxspell/statistics/StatisticsRetriever.java:25-32 | the total over a, a line x, then b is the total of a, plus x, plus the total of b |
| Retriever.SumOverSkip | src/voxspell/statistics/StatisticsRetriever.java:28 | a line that adds nothing can be dropped from a total |
| Retriever.SumOverReplace | src/voxspell/statistics/StatisticsRetriever.java:25-32 | replacing a line by one worth d more raises the total by d |
| Retriever.ExcludedLine | src/voxspell/statistics/StatisticsRetriever.java:47 | a line without exactly four fields changes neither the lifetime nor any category total |
| Retriever.MultisetRemove | src/voxspell/statistics/StatisticsRetriever.java:44-51 | removing the same line from two stores with the same lines leaves stores with the same lines |
| Retriever.SumOverPermutation | src/voxspell/statistics/StatisticsRetriever.java:44-51 | a total does not depend on the order of the lines |
| Retriever.TotalsIgnoreOrder | src/voxspell/statistics/StatisticsRetriever.java:40-53 | lifetime and category totals are the same for any reordering of the store |
| Retriever.SumOverSnoc | src/voxspell/statistics/StatisticsRetriever.java:25-32 | one more line at the end adds its contribution to the total |
| Retriever.SumToPointwise | src/voxspell/statistics/StatisticsRetriever.java:25-32 | the total of a pointwise sum of contributions is the sum of the two totals |
| Retriever.SumToZero | src/voxspell/statistics/StatisticsRetriever.java:25-32 | lines that add nothing total nothing |
| Retriever.SumToSingle | src/voxspell/statistics/StatisticsRetriever.java:25-32 | a contribution w at one position and nothing elsewhere totals w past that position and nothing before it |
| Retriever.SumOverSingle | src/voxspell/statistics/StatisticsRetriever.java:25-32 | a contribution w at one position and nothing elsewhere totals w |
| Retriever.SumOverPointMass | src/voxspell/statistics/StatisticsRetriever.java:28 | over distinct categories, a contribution only to category k totals w when k is among them, nothing otherwise |
| Retriever.LineCountedOnce | src/voxspell/statistics/StatisticsRetriever.java:28 | summed over distinct categories that include its own, a line's category contributions are its lifetime contribution |
| Retriever.PrefixIsSumOfCategories | src/voxspell/statistics/StatisticsRetriever.java:40-53 | over every prefix of the store, the lifetime total is the sum of the category totals |
| Retriever.LifetimeIsSumOfCategories | src/voxspell/statistics/StatisticsRetriever.java:40-53 | `getLifeTimeStats` is the sum of `getStatsForCategory` over the distinct categories present |
| Retriever.SumOverPair | src/voxspell/statistics/StatisticsFileHandler.java:215-216 | the total over two lines is the sum of their contributions |
| Retriever.SumOverPrepend | src/voxspell/statistics/StatisticsFileHandler.java:134-140 | lines worth d put on top of the store raise its total by d |
| Retriever.SumOverReplaceFirst | src/voxspell/statistics/StatisticsFileHandler.java:198-207 | lines worth d in place of a first line worth nothing raise the total by d |
| Retriever.SumOverReplaceAt | src/voxspell/statistics/StatisticsFileHandler.java:154-176 | replacing line k by one worth d more raises the total by d |
| Retriever.RecordedSum | src/voxspell/statistics/StatisticsFileHandler.java:83-129 | in every case, recording raises a total by what the new or rewritten record adds |
| Retriever.UpdatedRecordCounts | src/voxspell/statistics/StatisticsFileHandler.java:159-168 | the rewritten record counts one more outcome, correct or not, and belongs to its own category only |
| Retriever.MarkerCountsNothing | src/voxspell/statistics/StatisticsFileHandler.java:221-223 | the date marker adds nothing to the lifetime or any category total |
| Retriever.GrandTotalsAfterRecord | src/voxspell/statistics/StatisticsFileHandler.java:159-168 | one recorded outcome raises the store's correct total by one when correct and its incorrect total otherwise; the other stays |
| Retriever.CategoryTotalsAfterRecord | src/voxspell/statistics/StatisticsFileHandler.java:159-168 | one recorded outcome moves the totals of its own category by one and leaves every other category's |
| DailyStats.IterSucc | src/voxspell/statistics/StatisticsRetriever.java:76 | one more step back is one more application of the previous-day step |
| DailyStats.IterAdd | src/voxspell/statistics/StatisticsRetriever.java:98 | a steps back then b steps back is a + b steps back |
| DailyStats.Zeros | src/voxspell/statistics/StatisticsRetriever.java:74-77 | the sync loop makes no more entries than are still wanted |
| DailyStats.ZerosEntries | src/voxspell/statistics/StatisticsRetriever.java:74-77 | entry j of the sync loop is empty and dated j days back; none is the stop date; fewer entries than wanted only when the stop date is met |
| DailyStats.EmptyStats | src/voxspell/statistics/StatisticsRetriever.java:121-129 | exactly n empty entries, dated prev(d), prev(prev(d)), … |
| DailyStats.EmptyStatsSnoc | src/voxspell/statistics/StatisticsRetriever.java:124-127 | one more padding entry is appended at the end, one more day back |
| DailyStats.AddEmptyStats | src/voxspell/statistics/StatisticsRetriever.java:121-129 | the for loop returns `EmptyStats` of the date, n entries, and none for a count below one |
| DailyStats.SyncDates | src/voxspell/statistics/StatisticsRetriever.java:96-99 | the sync loop appends the entries of `Zeros` for what is left of `days` |
| DailyStats.Consume | src/voxspell/statistics/StatisticsRetriever.java:84-99 | definition: one line of the main loop; a record adds its counts, a date marker makes the block's entry and the gap entries and opens the next block, any other line changes nothing |
| DailyStats.Scan | src/voxspell/statistics/StatisticsRetriever.java:79-106 | definition: the main loop from a line on, stopping at `days` entries and making the last block's entry on the last line |
| DailyStats.MainEntries | src/voxspell/statistics/StatisticsRetriever.java:68-106 | definition: the first sync loop's entries, then the main loop's from line 1 |
| DailyStats.PrevDayStats | src/voxspell/statistics/StatisticsRetriever.java:62-116 | definition: the crash cases, else the loops' entries padded with empty days up to `days` |
| DailyStats.ReadBlocks | src/voxspell/statistics/StatisticsRetriever.java:79-106 | the main loop returns the entries of `Scan` from line 1 |
| DailyStats.GetPrevDayStats | src/voxspell/statistics/StatisticsRetriever.java:62-116 | the method returns `PrevDayStats`: the crash or the padded series |
| DailyStats.ConsumePrefix | src/voxspell/statistics/StatisticsRetriever.java:84-99 | reading a line only appends entries |
| DailyStats.ScanPrefix | src/voxspell/statistics/StatisticsRetriever.java:79-106 | the main loop keeps every entry made before it |
| DailyStats.ConsumeLength | src/voxspell/statistics/StatisticsRetriever.java:84-99 | while entries are wanted, a line makes at most the entries still wanted, and only a date marker makes any |
| DailyStats.ScanLength | src/voxspell/statistics/StatisticsRetriever.java:79-106 | the main loop makes at most `days` entries, one more only when the last line is a date marker |
| DailyStats.ConsumeKeepsLength | src/voxspell/statistics/StatisticsRetriever.java:84-99 | reading a line never drops an entry |
| DailyStats.ScanGrows | src/voxspell/statistics/StatisticsRetriever.java:79-106 | the main loop makes at least one entry when a line is left and entries are wanted |
| DailyStats.DailyLength | src/voxspell/statistics/StatisticsRetriever.java:109-113 | the series holds exactly `days` entries, or one more when the store's last line is a date marker |
| DailyStats.ConsumeOnTrack | src/voxspell/statistics/StatisticsRetriever.java:84-99 | reading a line keeps the entries dated by their index's number of days back, and the loop's date the next one |
| DailyStats.MarkerOnTrack | src/voxspell/statistics/StatisticsRetriever.java:88-99 | a date marker dates the block's entry and each gap entry one day further back |
| DailyStats.GapDate | src/voxspell/statistics/StatisticsRetriever.java:95-99 | the gap entries after entry a - 1 are dated a, a + 1, … days back |
| DailyStats.ScanDates | src/voxspell/statistics/StatisticsRetriever.java:79-106 | every entry the main loop makes is dated its index's number of days back from today |
| DailyStats.PaddingDates | src/voxspell/statistics/StatisticsRetriever.java:109-113 | the padding continues the dates, one day further back each |
| DailyStats.DailyDates | src/voxspell/statistics/StatisticsRetriever.java:62-116 | entry j of the series is dated j steps back from today, for each of the `days` entries |
| DailyStats.DailyOfMain | src/voxspell/statistics/StatisticsRetriever.java:109-113 | padding keeps the loops' entries, and continues with the day before the last |
| DailyStats.DailyCrashes | src/voxspell/statistics/StatisticsRetriever.java:62-116 | it throws exactly on an empty store, a first line of one field, and, when entries are wanted, a first line of no field or a store of only today's marker (with a total step; see Dates.PrevDate under Left out) |
| DailyStats.BlockEndLines | src/voxspell/statistics/StatisticsRetriever.java:84-91 | a block's records run up to the next two-field line or the end of the store |
| DailyStats.RangeTallyPrefix | src/voxspell/statistics/StatisticsRetriever.java:85-87 | the accumulated counts over a stretch are the lifetime sum over it, prefix by prefix |
| DailyStats.RangeTallyIsLifetime | src/voxspell/statistics/StatisticsRetriever.java:85-87 | the accumulated counts over a stretch are its lifetime total |
| DailyStats.BlockTallyIsLifetime | src/voxspell/statistics/StatisticsRetriever.java:84-91 | a block's counts are the lifetime total of the lines between its marker and the next |
| DailyStats.InBlockStart | src/voxspell/statistics/StatisticsRetriever.java:68-70 | the main loop starts inside the first block with nothing counted |
| DailyStats.MarkerOpensBlock | src/voxspell/statistics/StatisticsRetriever.java:88-93 | a date marker ends the block being read and opens the next with the counts reset |
| DailyStats.ConsumeNonMarker | src/voxspell/statistics/StatisticsRetriever.java:85-87 | a line that is not a date marker adds its counts, if any, and makes no entry |
| DailyStats.LineExtendsBlock | src/voxspell/statistics/StatisticsRetriever.java:85-87 | any other line keeps the loop inside its block, a record adding its counts |
| DailyStats.BlockEntry | src/voxspell/statistics/StatisticsRetriever.java:89 | at a block's end, the entry carries that block's totals under its date |
| DailyStats.SoundAppend | src/voxspell/statistics/StatisticsRetriever.java:89 | entries that each count nothing or one block stay so when concatenated |
| DailyStats.ZerosSound | src/voxspell/statistics/StatisticsRetriever.java:96-99 | gap entries count nothing |
| DailyStats.ConsumeSound | src/voxspell/statistics/StatisticsRetriever.java:84-99 | reading a line keeps every entry counting nothing or exactly one block |
| DailyStats.LastEntrySound | src/voxspell/statistics/StatisticsRetriever.java:102-104 | the entry made on the last line carries the last block's totals |
| DailyStats.ScanSoundStep | src/voxspell/statistics/StatisticsRetriever.java:79-106 | one pass of the main loop keeps it inside a block with sound entries, and on the last line ends sound |
| DailyStats.ScanSound | src/voxspell/statistics/StatisticsRetriever.java:79-106 | every entry of the main loop counts nothing or exactly one block under that block's date |
| DailyStats.DailySound | src/voxspell/statistics/StatisticsRetriever.java:62-116 | every entry of the series counts nothing or exactly one block of the store, under that block's date; and every block reached while fewer than `days` entries exist has its entry, at its slot |
| DailyStats.MarkerMakesEntry | src/voxspell/statistics/StatisticsRetriever.java:88-89 | a date marker makes the entry of the block it ends next |
| DailyStats.ScanAfterMarker | src/voxspell/statistics/StatisticsRetriever.java:88-91 | at a date marker, with entries wanted, the loop's next entry is the ended block's |
| DailyStats.ScanBlockEntry | src/voxspell/statistics/StatisticsRetriever.java:84-104 | inside a block, with entries wanted, the loop's next entry carries that block's totals under its date |
| DailyStats.DailyFirstBlock | src/voxspell/statistics/StatisticsRetriever.java:68-106 | after the leading empty days, the next entry carries the first block's totals under the first stored date |
| DailyStats.DailyAllLeading | src/voxspell/statistics/StatisticsRetriever.java:73-82 | when the first sync loop already makes `days` entries, the series is exactly those empty days |
| DailyStats.InitialCursor | src/voxspell/statistics/StatisticsRetriever.java:68-77 | definition: the loop's state before line 1, the first sync loop's entries and the first stored date |
| DailyStats.StateAt | src/voxspell/statistics/StatisticsRetriever.java:79-106 | definition: the main loop's state when it reaches line p, each line read by `Consume` |
| DailyStats.StateGrows | src/voxspell/statistics/StatisticsRetriever.java:79-106 | the loop's number of entries never falls from one line to a later one |
| DailyStats.ScanFromState | src/voxspell/statistics/StatisticsRetriever.java:79-106 | while fewer than `days` entries exist, the loop from line 1 goes on as the loop from the state at line p |
| DailyStats.StateInBlock | src/voxspell/statistics/StatisticsRetriever.java:79-106 | at every line the loop is inside some block, with that block's date and the counts of its lines read so far |
| DailyStats.StepInBlock | src/voxspell/statistics/StatisticsRetriever.java:84-99 | reading one line keeps the loop inside the same block, or inside the block that line opens |
| DailyStats.AfterBlockStart | src/voxspell/statistics/StatisticsRetriever.java:88-93 | right after the line that opens a block, the loop is inside that block with nothing counted |
| DailyStats.ScanReachesBlock | src/voxspell/statistics/StatisticsRetriever.java:79-106 | a block the loop reaches with fewer than `days` entries gets its entry, at the index the entry count has there |
| DailyStats.BlockReached | src/voxspell/statistics/StatisticsRetriever.java:79-82 | definition: a block the main loop opens while fewer than `days` entries exist |
| DailyStats.BlockSlot | src/voxspell/statistics/StatisticsRetriever.java:88-89 | definition: the number of entries that exist when the loop opens a block, which is its entry's index |
| DailyStats.DailyBlockEntry | src/voxspell/statistics/StatisticsRetriever.java:62-116 | every block reached while fewer than `days` entries exist has its totals and date at its slot of the series |
| DailyStats.BlockSlotsIncrease | src/voxspell/statistics/StatisticsRetriever.java:88-91 | a later block reached gets a later slot, so no two blocks share an entry |
| DailyStats.Unclaimed | src/voxspell/statistics/StatisticsRetriever.java:88-89 | definition: no block the main loop reaches has its entry at index j |
| DailyStats.Placed | src/voxspell/statistics/StatisticsRetriever.java:79-106 | definition: every entry counts nothing or sits at the slot of a reached block |
| DailyStats.SteadyInBlock | src/voxspell/statistics/StatisticsRetriever.java:85-87 | inside a block the loop makes no entry, so the entry count stays the one it had when the block opened |
| DailyStats.PlacedStep | src/voxspell/statistics/StatisticsRetriever.java:84-99 | reading a line while fewer than `days` entries exist keeps every entry placed; a marker's entry goes to the slot of the block it ends, its gap entries are empty |
| DailyStats.LastBlock | src/voxspell/statistics/StatisticsRetriever.java:102-104 | with fewer than `days` entries at the end, the last line's block is reached and its slot is the next index |
| DailyStats.LastPlaced | src/voxspell/statistics/StatisticsRetriever.java:102-104 | the entry made on the last line is placed, or counts nothing when the budget was already full |
| DailyStats.ScanPlaced | src/voxspell/statistics/StatisticsRetriever.java:79-106 | the main loop from any line on keeps every entry placed |
| DailyStats.MainGapsBlank | src/voxspell/statistics/StatisticsRetriever.java:68-106 | an entry of the two loops at no reached block's slot counts nothing |
| DailyStats.PadKeepsGaps | src/voxspell/statistics/StatisticsRetriever.java:109-113 | empty padding after the loops' entries keeps every unclaimed entry empty |
| DailyStats.DailyGapsBlank | src/voxspell/statistics/StatisticsRetriever.java:62-116 | every entry of the series at no reached block's slot counts nothing; with DailyBlockEntry, the series holds each reached block's totals at its slot and empty days elsewhere |
| DailyStats.LeadOnTrack | src/voxspell/statistics/StatisticsRetriever.java:73-77 | the first sync loop's entries are dated by their index's number of days back, and the loop's date is the next one |
| DailyStats.IterFixed | src/voxspell/statistics/StatisticsRetriever.java:134-143 | a date the step leaves unchanged stays unchanged |
| DailyStats.CalendarSeries | src/voxspell/statistics/StatisticsRetriever.java:134-150 | j steps of `getPrevDate` from an unpadded date walk back j days in the unpadded form |
| DailyStats.IsoSeries | src/voxspell/statistics/StatisticsRetriever.java:134-143 | j corrected steps from a stored date walk back j days in the stored form |
| DailyStats.CalendarNeverMeets | src/voxspell/statistics/StatisticsRetriever.java:145-150 | from an unpadded date, `getPrevDate` never reaches the stored text of a day in January to September |
| DailyStats.AsWrittenNeverMeets | src/voxspell/statistics/StatisticsRetriever.java:74-77 | from today's stored text, `getPrevDate` never reaches the stored text of another day in January to September |
| DailyStats.FirstDayStays | src/voxspell/statistics/StatisticsRetriever.java:134-143 | on the first day of the calendar the step stays on that day |
| DailyStats.AsWrittenLosesBlocks | src/voxspell/statistics/StatisticsRetriever.java:73-77 | with the newest stored date in January to September and not today, the series has exactly `days` entries, each empty and dated j steps back from today |
| DailyStats.CorrectedKeepsBlocks | src/voxspell/statistics/StatisticsRetriever.java:73-91 | with the corrected step, k days after the newest stored date, the series has k empty days and then that block's totals |
| DailyStats.UnpaddedMonthExample | src/voxspell/statistics/StatisticsRetriever.java:145-150 | today 2016-10-01 and a first block of 2016-09-30: as written no entry counts a correct outcome; corrected, entry 0 is an empty 2016-10-01 and entry 1 carries the block's totals under 2016-09-30 |

## Left out

- File system: creating and hiding the file, `setFileName`, the
  Scanner/FileReader/BufferedWriter plumbing, `deleteOnExit` and
  `renameTo`. The new store replaces the old one in a single assignment,
  and the line terminator (`newLine()` or `"\n"`) is abstract.
- The system clock (`getCurrentDate`): today's date is a constructor
  argument.
- `printStackTrace` in the catch blocks: an I/O error has no modelled
  effect.
- The calendar library's `CalendarDate`: replaced by `Dates.PrevDay`, a
  proleptic Gregorian calendar starting at 0000-01-01.
- Dates.PrevDate: on a text that is not a date of the calendar, or on
  0000-01-01, the program throws or defers to the library. The model
  returns the text unchanged.
- `parseInt` and `scannerReadLine` belong to a reader class that is not
  part of this model. `parseInt` is modelled as the decimal value of a
  digit string and 0 for any other text. A line is read as one element of
  the sequence.
- Integer overflow: counts and totals are unbounded integers; the
  program's 32-bit `int` would wrap after 2^31 - 1 outcomes.
- A word or category containing a line break: each element of the
  sequence is one line.
- A negative `days` argument of `getPrevDayStats`: `days` is a `nat`.
  `addEmptyStats` does take any `int`, and a count below one gives no
  entries.
- writeStatistic's outer do/while: every branch of its body hands the
  reader to a writer that reads to the end of the file, so the body runs
  exactly once. The model has no outer loop.
- The scan of today's block treats the word "date" like a block end,
  because that check comes first. A record for the word "date" is
  therefore never updated.
- A reader might expect a new word to be appended at the end of today's
  block. The code writes it right after today's marker, above the day's
  older records, and the model does the same.
- DailyStats.DayStats holds its counts as integers, where the program
  stores their decimal text.
- The previous-day step of `getPrevDayStats` is a parameter. The
  as-written lemmas use `Dates.PrevDate`, the corrected ones
  `Dates.PrevIsoDate`, and the rest hold for any step.
- `getPrevDayStats` reads the second field of the first line as a date
  whatever its first field is. The model does the same and does not
  require the first line to be a date marker.
- Retriever.GrandTotalsAfterRecord: requires the record the scan of
  today's block matches, if any, to have exactly four fields. A matched
  record with extra fields counts in no total, but is rewritten as a
  four-field record that counts in full.
- Retriever.CategoryTotalsAfterRecord: requires the same of the matched
  record, for the same reason.

## Findings

| source | as written | input that shows it | evidently intended | confidence | as-written member | corrected member |
|---|---|---|---|---|---|---|
| src/voxspell/statistics/StatisticsRetriever.java:145-150 | `formatCalendarDate` writes the month without zero padding, so `getPrevDate` turns "2016-10-01" into "2016-9-30". The sync loops of `getPrevDayStats` compare that text with the stored "2016-09-30" and never meet a stored date in January to September. | today "2016-10-01", store whose first line is `date<TAB>2016-09-30` followed by records, `days` = 2 | the previous day written as `yyyy-MM-dd`, like the stored dates, so entry 1 carries the 2016-09-30 block's totals | not executed | DailyStats.AsWrittenLosesBlocks | DailyStats.CorrectedKeepsBlocks |
