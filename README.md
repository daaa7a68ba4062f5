# Kart-race logger, modelled in Dafny

This project models the logic of a kart-race logger for a small group of players.
It covers four parts of the system:

- the desktop loggers that turn a race into a row of the results log, typed by hand or read from a results screenshot by OCR;
- the analysis scripts that replay the log into Elo ratings, per-player statistics and kart tables;
- the desktop analyzer;
- the statistics web page.

Each part of the system is one module in one file:

| file | module | models |
|---|---|---|
| common.dfy | Common | option/result/cell types; ASCII text helpers (`strip`, `lower`, `split`, digit reading; Python `float()` on decimal text) |
| sorting.dfy | Sorting | the stable sort behind Python's `sorted` and JavaScript's `Array.prototype.sort` |
| elo.dfy | Elo | `src/calculations/elo_analysis.py`: the in-place Elo replay, race counts, peaks, tracker rows |
| stats.dfy | Stats | `src/calculations/analysis.py`: points, all-time, daily and together statistics, best race times |
| analyzer.dfy | Analyzer | `src/gui_analyzer.py`: per-date and all-time tallies of three players |
| karts.dfy | Karts | `src/calculations/kart_analysis.py`: the pairwise win/loss matrix, the top-5 kart leaderboard, the latest ratings |
| ocr_parse.dfy | OcrParse | the alias table, fuzzy matching, token parser and row filter of `src/gui_img_recognition_logger.py` (the same code as `tests/OCR_testing_helper.py`) |
| ocr_form.dfy | OcrForm | the token parser of `src/gui_OCR_logger.py` |
| entry_form.dfy | EntryForm | the entry validation and `save_data` checks shared by both OCR loggers, including the "DNR" fill |
| manual_log.dfy | ManualLog | `src/gui_logger.py`: input checks, time reading, best-time updates, race numbers |
| line_parser.dfy | LineParser | `src/Xgui_image_recognition_logger.py`: kart lookup and the line parser |
| site.dfy | Site | `docs/assets/js/main.js`: "races together", the sortable summary table, newest-first dates |

How code that changes state is modelled:

- A loop is a `method` proved equal to a recursive specification function.
- The facts the source promises are lemmas about that function.
- Objects with state are classes whose methods state their whole new state:
  - the manual logger's files;
  - the screenshot log;
  - a rendered sortable table.
- Python's `int()` and `float()`, JavaScript's `parseInt`, and the regular expressions are written out, including their backtracking choices.

`src/gui_OCR_logger.py:102-199` holds the same `validate_player_inputs` and `save_data` as `src/gui_img_recognition_logger.py:220-317`. `tests/OCR_testing_helper.py:19-152` holds the same alias loader, fuzzy matcher, parser and filter as `src/gui_img_recognition_logger.py:348-481`. Each of these is modelled once and cited at the image logger's lines.

## Model

| member | source | states |
|---|---|---|
| Elo.Initial | src/calculations/elo_analysis.py:87-89 | the starting state gives exactly the roster players a rating, a race count and a peak |
| Elo.ParticipantsInRoster | src/calculations/elo_analysis.py:98-102 | every participant is a roster player whose column exists and holds exactly the participant's placement |
| Elo.ParticipantsComplete | src/calculations/elo_analysis.py:99-102 | every roster player whose column holds a placement (not missing, not "DNR") takes part |
| Elo.ParticipantsDistinct | src/calculations/elo_analysis.py:99-102 | a roster without repetitions lists each participant once |
| Elo.Step | src/calculations/elo_analysis.py:92-126 | a race that can be read leaves exactly the roster players rated, counted and peaked |
| Elo.Replay | src/calculations/elo_analysis.py:92-126 | the same holds after replaying a whole log in file order |
| Elo.BumpCounts | src/calculations/elo_analysis.py:70-71 | one increment pass raises each participant's count by one and leaves everyone else's count alone |
| Elo.RowFrame | src/calculations/elo_analysis.py:59-67 | a participant's row of comparisons changes only that participant's rating |
| Elo.RoundsFrame | src/calculations/elo_analysis.py:54-73 | players who do not take part keep their rating through all the comparisons of a race |
| Elo.RowOfWinner | src/calculations/elo_analysis.py:59-67 | with expected scores in [0, 1], a player placed ahead of everyone gains or holds rating in each of its comparisons (actual score 1) |
| Elo.RowOfLoser | src/calculations/elo_analysis.py:59-67 | with expected scores in [0, 1], a player placed behind everyone loses or holds rating in each of its comparisons (actual score 0) |
| Elo.OnlyOwnRowMoves | src/calculations/elo_analysis.py:58-67 | a participant's rating is untouched before its own row of comparisons and by the other rows after it |
| Elo.WinnerNeverLoses | src/calculations/elo_analysis.py:58-67 | the outright winner of a race ends the race with at least its old rating, whatever the other in-place updates do |
| Elo.LastNeverGains | src/calculations/elo_analysis.py:58-67 | the outright last of a race ends the race with at most its old rating |
| Elo.TwoPlayerRaceInPlace | src/calculations/elo_analysis.py:58-67 | updates are in place: the second player's expected score is computed against the first player's already updated rating |
| Elo.SoloRaceKeepsRatings | src/calculations/elo_analysis.py:58-67 | a player is never compared with itself, so a one-participant race changes no rating |
| Elo.EmptyRaceSkipped | src/calculations/elo_analysis.py:105-106 | a readable race without participants changes no rating, count, peak or tracker row |
| Elo.StepTrackerAndPeaks | src/calculations/elo_analysis.py:112-126 | a race with a participant appends exactly one tracker row (date, time, map, new ratings) and sets each peak to the maximum of the old peak and the new rating |
| Elo.StepCounts | src/calculations/elo_analysis.py:99-110 | each participant's count rises by exactly 2 and its comparisons read K at the count raised once; non-participants keep rating and count |
| Elo.StepInvariants | src/calculations/elo_analysis.py:92-126 | one race keeps peak at or above rating, never lowers a peak, adds 2 to each participant's count and at most one tracker row |
| Elo.ReplayInvariants | src/calculations/elo_analysis.py:92-126 | over a whole log, each count is twice the number of races the player took part in, peaks stay at or above ratings and never decrease, and the tracker gains one row per race with a participant |
| Elo.KFactorInNthRace | src/calculations/elo_analysis.py:42-103 | in a player's n-th race of the replay, the comparisons read their count after the first raise, which is 2n-1, so K is 40 exactly when n <= 5 |
| Elo.AppearancesSnoc | src/calculations/elo_analysis.py:99-103 | a race appended to the log adds one appearance exactly when the player has a readable placement in it |
| Elo.Report | src/calculations/elo_analysis.py:136-144 | the post-analysis summary has one entry per roster player |
| Elo.ReportBounds | src/calculations/elo_analysis.py:136-144 | in the summary every peak is at least 1000 and at least the current rating, and each count is two per race taken part in |
| Elo.UpdateEloRatings | src/calculations/elo_analysis.py:46-73 | the nested comparison loop yields the in-place comparison sequence `Rounds`, then the second count increment |
| Elo.CompareWithOthers | src/calculations/elo_analysis.py:59-67 | the inner loop yields the row of comparisons of participant i against every other participant |
| Elo.RaiseCounts | src/calculations/elo_analysis.py:70-71 | the increment loop raises every participant's count once |
| Elo.CollectParticipants | src/calculations/elo_analysis.py:98-103 | the collection loop yields the participants in roster order with counts raised once, and fails exactly at a blank placement cell (where `int()` raises) |
| Elo.Enter | src/calculations/elo_analysis.py:100-103 | one roster player: joins with its placement and one more race when placed, fails on a blank cell |
| Elo.UpdatePeaks | src/calculations/elo_analysis.py:113-114 | the peak loop sets every roster player's peak to the maximum of peak and new rating |
| Elo.ReplayRace | src/calculations/elo_analysis.py:92-126 | one pass of the race loop computes exactly the state `Step` describes, and fails exactly where `Step` does |
| Elo.ProcessRaces | src/calculations/elo_analysis.py:75-144 | the run replays the log over the default roster from 1000 and reports every player's peak and current rating |
| Stats.PointsTableShape | src/calculations/analysis.py:37-39 | placements 1..8 pay strictly decreasing points from 25 down to 4; any other value pays 0 |
| Stats.ValidCount | src/calculations/analysis.py:49-50 | the valid placements are as many as the readable cells (not empty, not "DNR"), and each comes from the column |
| Stats.SumPointsBounds | src/calculations/analysis.py:51 | a points total lies between 0 and 25 per race |
| Stats.StatsOfMeaning | src/calculations/analysis.py:116-120 | Races counts the readable cells, Points lies in 0..25 per race, and a player without races has PPR 0 and no average position |
| Stats.AllReadableRaces | src/calculations/analysis.py:72-73 | a column whose every cell is readable counts every row as a race |
| Stats.StatsTable | src/calculations/analysis.py:112-127 | the stats table has one entry per listed player |
| Stats.FirstMissing | src/calculations/analysis.py:112-116 | the reported missing column is a listed player's that the file lacks |
| Stats.FirstMissingMeaning | src/calculations/analysis.py:112-116 | no column is reported missing exactly when every listed player has one |
| Stats.MissingStops | src/calculations/analysis.py:114-116 | the first player in roster order whose column is missing decides the `KeyError` |
| Stats.AllTimeStats | src/calculations/analysis.py:112-127 | a missing placement column aborts with that player (`KeyError`); otherwise the all-time loop builds the stats of every player over all rows |
| Stats.TogetherRows | src/calculations/analysis.py:66-68 | every kept row comes from the log and has a readable placement for every listed player |
| Stats.TogetherRowsComplete | src/calculations/analysis.py:66-68 | the kept rows are exactly the rows where every listed player finished, in log order |
| Stats.TogetherStats | src/calculations/analysis.py:64-83 | a missing placement column aborts (`dropna(subset=...)` raises); otherwise the together table is the stats table over the kept rows |
| Stats.TogetherStatsRAS | src/calculations/analysis.py:86-108 | the same over Raj, Azhan and Sameer only, including the abort on a missing column |
| Stats.TogetherSameRaces | src/calculations/analysis.py:70-73 | in a together table every player's Races equals the number of kept rows |
| Stats.DatesMeaning | src/calculations/analysis.py:44 | the unique dates are exactly the dates of the rows, each listed once |
| Stats.RowsOnMeaning | src/calculations/analysis.py:45 | a date's rows are exactly the log rows with that date |
| Stats.DailyStats | src/calculations/analysis.py:42-61 | a non-empty log missing a listed placement column aborts at the first date; otherwise the daily loop builds one stats table per date |
| Stats.DatesNonEmpty | src/calculations/analysis.py:44 | a non-empty log has at least one date |
| Stats.DailyTableShape | src/calculations/analysis.py:42-61 | there is one daily table per date that occurs, and each lists every player |
| Stats.DailyAddsUpToAllTime | src/calculations/analysis.py:42-61 | summing a player's daily Races (or Points) over the dates gives the player's all-time Races (or Points) |
| Stats.StatsAreTotals | src/calculations/analysis.py:49-51 | Races and Points of a column are the totals of the per-row weights |
| Stats.RowEntriesFrom | src/calculations/analysis.py:136-141 | each time entry of a row is a listed player's time (neither "DNR" nor empty) with its "time by player in kart" text |
| Stats.MapEntriesFrom | src/calculations/analysis.py:133-141 | every entry of a map's list is the time of a listed player in a row of that map |
| Stats.LexLeTotal | src/calculations/analysis.py:143 | Python's tuple order on the sort keys is total |
| Stats.LexLeTransitive | src/calculations/analysis.py:143 | and transitive |
| Stats.EntryOrder | src/calculations/analysis.py:143 | the sort key order on entries is a total preorder |
| Stats.BestTimesMeaning | src/calculations/analysis.py:130-145 | each leaderboard holds min(10, entries) texts: those of the first entries of a sorted permutation of the map's entries, each from the log, none ranked after a left-out entry |
| Stats.BestTimesAt | src/calculations/analysis.py:144 | each map's leaderboard is the top ten of that map's sorted entries |
| Stats.BestTimesStopsAtError | src/calculations/analysis.py:143 | the first map with a time `float()` cannot read decides the outcome |
| Stats.BestRaceTimes | src/calculations/analysis.py:130-145 | the map loop computes the leaderboards `BestTimes` describes |
| Stats.CollectEntries | src/calculations/analysis.py:133-141 | the row and player loops collect exactly a map's entries in order |
| Stats.DatesDistinct | src/calculations/analysis.py:44 | the unique dates list no date twice |
| Stats.DailyTotalsAddUp | src/calculations/analysis.py:44-51 | summing a player's per-date totals over all dates gives the player's total over the whole log |
| Stats.SumOverDatesIsTotal | src/calculations/analysis.py:42-61 | summing the daily tables over some dates of the log gives the total of the rows on those dates |
| Analyzer.TallyMeaning | src/gui_analyzer.py:40-45 | Races counts the cells that hold a placement 1..8 in digits, Points lies between 4 and 25 per race, the average is 0 without races and otherwise between 4 and 25 |
| Analyzer.TallyBounds | src/gui_analyzer.py:42-43 | races are the counting cells and each is worth 4 to 25 points |
| Analyzer.ValidPlacementMeaning | src/gui_analyzer.py:41 | a cell is read as a placement exactly when it is all digits with value 1..8, and then as that value |
| Analyzer.TallyStep | src/gui_analyzer.py:41-43 | one more row adds one race and its points when its cell counts, nothing otherwise |
| Analyzer.MaxDateIsLatest | src/gui_analyzer.py:37 | the maximum date is a date of the log and no date of the log is later |
| Analyzer.AnalyzeData | src/gui_analyzer.py:26-62 | an empty log clears both tables and nothing else does; a non-empty log fails exactly when an analysed player's placement column is missing (`KeyError`), naming such a player; a chosen date other than "All" is the date analysed |
| Analyzer.FailsMeaning | src/gui_analyzer.py:40-56 | a non-empty log fails exactly when the file lacks the placement column of Azhan, Raj or Sameer |
| Analyzer.AllMeansLatest | src/gui_analyzer.py:36-37 | choosing "All" analyses the latest date of the log |
| Analyzer.DayRacesWithin | src/gui_analyzer.py:48-56 | a date's races and points never exceed the all-time ones |
| Analyzer.DailyWithinTotal | src/gui_analyzer.py:47-62 | both tables list Azhan, Raj and Sameer in that order, and each day row is bounded by the all-time row |
| Karts.PairKeysMeaning | src/calculations/kart_analysis.py:67 | the counter table has exactly one entry per ordered pair of listed karts |
| Karts.ZeroPairs | src/calculations/kart_analysis.py:67 | the initial counters cover every ordered pair of listed karts |
| Karts.CountedMeaning | src/calculations/kart_analysis.py:69-87 | after all rows, the counters of (a, b) are the rows where a placed strictly better than b, and the rows where both were compared and a did not |
| Karts.CompareRowAt | src/calculations/kart_analysis.py:75-87 | the inner loop changes only the counters of kart a against a kart of its list, each by one comparison |
| Karts.CompareAllAt | src/calculations/kart_analysis.py:74-87 | both loops over one row change each listed pair's counters by exactly one comparison and nothing else |
| Karts.DiagonalStaysZero | src/calculations/kart_analysis.py:76-77 | a kart is never compared with itself, so its own counters stay at zero |
| Karts.CompareRowKeepsDiagonal | src/calculations/kart_analysis.py:76-77 | the inner loop never touches a kart's counters against itself |
| Karts.CompareAllKeepsDiagonal | src/calculations/kart_analysis.py:76-77 | one row never touches a kart's counters against itself |
| Karts.Mirror | src/calculations/kart_analysis.py:84-87 | b's losses against a are a's wins plus the ties, ties are symmetric, and every pair meets equally often in both directions |
| Karts.ScoreMeaning | src/calculations/kart_analysis.py:94-99 | a cell is "DNR" exactly when the pair never met, otherwise a rate in 0..10 whose product with the meetings is ten times the wins |
| Karts.AnyBrokenMeaning | src/calculations/kart_analysis.py:83 | the analysis fails exactly when some row compares a pair with an empty placement cell |
| Karts.AdjacencyMeaning | src/calculations/kart_analysis.py:65-101 | the matrix has a cell for every ordered pair, the diagonal is "DNR", and each cell scores that pair's wins and losses |
| Karts.CompareWith | src/calculations/kart_analysis.py:75-87 | the inner loop succeeds exactly when no compared pair reads an empty cell, and then updates the counters as specified |
| Karts.CompareRace | src/calculations/kart_analysis.py:74-87 | one row succeeds exactly when it is not broken, and then updates the counters as specified |
| Karts.NoBlankPairs | src/calculations/kart_analysis.py:83 | a row in which no compared pair reads an empty cell is not broken |
| Karts.AdjacencyMatrix | src/calculations/kart_analysis.py:65-101 | the loops compute the specified matrix, or fail exactly when the specification does |
| Karts.FillMatrix | src/calculations/kart_analysis.py:90-99 | the normalisation loop gives each counter entry its score and nothing else |
| Karts.MatrixComplete | src/calculations/kart_analysis.py:91-93 | cells for every listed pair, each scoring its counters, make the whole matrix |
| Karts.CellsCover | src/calculations/kart_analysis.py:91-93 | visiting every listed pair covers every counter entry |
| Karts.SameCells | src/calculations/kart_analysis.py:90-99 | a map scoring each counter entry, with the same keys, is the normalised matrix |
| Karts.FillRow | src/calculations/kart_analysis.py:93-99 | the inner normalisation loop adds the cells of one kart, keeps the earlier cells, and scores every cell correctly |
| Karts.CellFor | src/calculations/kart_analysis.py:94-99 | one cell is "DNR" without meetings and ten times the win rate otherwise |
| Karts.RatingOf | src/calculations/kart_analysis.py:38-44 | a row with no player column for the kart uses the default rating 1000 |
| Karts.AddKart | src/calculations/kart_analysis.py:50-51 | adding one kart's score keeps the set of karts |
| Karts.AddRace | src/calculations/kart_analysis.py:33-51 | one row keeps the set of karts |
| Karts.Totals | src/calculations/kart_analysis.py:26-51 | the statistics have exactly one entry per listed kart |
| Karts.FailsMeaning | src/calculations/kart_analysis.py:47-48 | the leaderboard fails exactly when a placed kart of a row on the map has an empty or zero placement |
| Karts.Unique | src/calculations/kart_analysis.py:26 | the dictionary's keys are the listed karts without repeats |
| Karts.Items | src/calculations/kart_analysis.py:53-59 | one item per distinct kart, in key order, each with its average score |
| Karts.AvgOrder | src/calculations/kart_analysis.py:62 | ordering by average score, highest first, is a total preorder |
| Karts.LeaderboardMeaning | src/calculations/kart_analysis.py:24-63 | the board holds min(5, karts) entries in non-increasing score, each a listed kart once with its own average; no kart left off scores more than one on it, and a kart left off with the same score as one on it comes later in the kart list |
| Karts.BoardRanked | src/calculations/kart_analysis.py:61-63 | a board is the first five of a sorted, stable reordering of the kart items |
| Karts.RankedFacts | src/calculations/kart_analysis.py:61-63 | the same facts hold for the first five of any sorted, stable reordering of the items |
| Karts.RankedTieOrder | src/calculations/kart_analysis.py:62-63 | a kart missing from the first five of a stable reordering, tied with a kart in them, comes after it in the kart list |
| Karts.TieAt | src/calculations/kart_analysis.py:62-63 | the same, for one left-off kart and one board entry |
| Karts.RankedLeftOff | src/calculations/kart_analysis.py:62-63 | a kart missing from the first five of a sorted reordering scores no more than any kart in them |
| Karts.RankedEntries | src/calculations/kart_analysis.py:62 | every entry of a reordering of the items is a listed kart with its own average |
| Karts.LeftOffBelow | src/calculations/kart_analysis.py:62-63 | an item outside the first n of a sorted reordering scores no more than any of them |
| Karts.RankedNamesDistinct | src/calculations/kart_analysis.py:62 | a reordering of one item per distinct kart names no kart twice |
| Karts.KartLeaderboard | src/calculations/kart_analysis.py:24-63 | the loops compute the specified leaderboard, or fail exactly when the specification does |
| Karts.AverageItems | src/calculations/kart_analysis.py:54-59 | the averaging loop produces the specified items |
| Karts.ScoreRace | src/calculations/kart_analysis.py:33-51 | one row succeeds exactly when no placed kart is unscorable, and then adds the specified scores |
| Karts.ScoreKart | src/calculations/kart_analysis.py:34-51 | one kart succeeds exactly when it is scorable, and then adds its score and a race |
| Karts.WriteColumns | src/calculations/kart_analysis.py:117-119 | writing a row's columns adds exactly those players |
| Karts.WriteColumnsAt | src/calculations/kart_analysis.py:117-119 | after a row, a player the row rates has the row's last value, and every other player keeps theirs |
| Karts.LastRowWins | src/calculations/kart_analysis.py:114-119 | a player has a rating exactly when some row rates them, and it is the value from the last such row |
| Karts.EloData | src/calculations/kart_analysis.py:114-119 | the loops leave each player's rating from the last tracker row that rates them |
| Sorting.SortBy | src/calculations/kart_analysis.py:62 | the sort is a permutation of its input, ordered by the key |
| Sorting.SortByStable | src/calculations/kart_analysis.py:62 | the sort is stable: two tied elements of the result stand in the same order in the input |
| Sorting.InsertSorted | src/calculations/kart_analysis.py:62 | inserting into a sorted list keeps it sorted |
| Sorting.InsertPosition | src/calculations/kart_analysis.py:62 | insertion places the new element after every element it may not precede, keeping the others in order around it |
| Sorting.TieFromTail | src/calculations/kart_analysis.py:62 | inserting the head into a stable sort of the tail keeps every tied pair in input order |
| OcrParse.Put | src/gui_img_recognition_logger.py:358-359 | assigning a key keeps the key order free of repeats and in step with the dictionary |
| OcrParse.PutAliases | src/gui_img_recognition_logger.py:357-358 | writing a player's aliases keeps the table well formed |
| OcrParse.PutEntry | src/gui_img_recognition_logger.py:356-359 | writing one file entry keeps the table well formed |
| OcrParse.LoadAliases | src/gui_img_recognition_logger.py:348-360 | the loaded table is well formed |
| OcrParse.PutAliasesAt | src/gui_img_recognition_logger.py:357-358 | after a player's aliases, each lowercased alias leads to that player and every other key keeps its owner |
| OcrParse.PutEntryAt | src/gui_img_recognition_logger.py:356-359 | after an entry, its aliases and the lowercased name lead to its player and every other key keeps its owner |
| OcrParse.AliasKeys | src/gui_img_recognition_logger.py:352-360 | the keys are exactly the lowercased aliases and player names of the file |
| OcrParse.AliasOwners | src/gui_img_recognition_logger.py:356-359 | when no key is shared between entries, each key leads to the player whose entry wrote it |
| OcrParse.LoadPlayerAliases | src/gui_img_recognition_logger.py:348-360 | the loops build the specified table |
| OcrParse.Best | src/gui_img_recognition_logger.py:379 | no alias gives no match; otherwise the chosen alias is in the list, carries its own score and no alias scores higher |
| OcrParse.FuzzyMeaning | src/gui_img_recognition_logger.py:368-384 | with an alias scoring above 80 the result is the player of a best-scoring alias; with none the detected text comes back unchanged |
| OcrParse.ThirdGroup | src/gui_img_recognition_logger.py:431 | the last group, when found, is two digits at or after the start |
| OcrParse.SecondGroup | src/gui_img_recognition_logger.py:431 | the last two groups, when found, are two digits each, in order and not overlapping |
| OcrParse.GroupsAt | src/gui_img_recognition_logger.py:431-433 | the groups are one or two minute digits and two digits each for seconds and hundredths |
| OcrParse.MatchAt | src/gui_img_recognition_logger.py:431 | a match at a position has groups of the pattern's shape |
| OcrParse.SearchFrom | src/gui_img_recognition_logger.py:431 | a search result has groups of the pattern's shape |
| OcrParse.IntText | src/gui_img_recognition_logger.py:434 | the decimal text of a number up to 99 is one or two digits that read back as the number |
| OcrParse.DigitsValueBound | src/gui_img_recognition_logger.py:434 | one or two digits read as at most 99 |
| OcrParse.NormaliseIdempotent | src/gui_img_recognition_logger.py:431-434 | a normalised race time normalises to itself |
| OcrParse.ReadBack | src/gui_img_recognition_logger.py:431-433 | the pattern finds m, ss and hh at the start of m:ss.hh |
| OcrParse.ParseOcrResults | src/gui_img_recognition_logger.py:386-450 | the loop computes the specified parse |
| OcrParse.Consume | src/gui_img_recognition_logger.py:412-448 | one pass of the loop body is one parser step |
| OcrParse.FillPending | src/gui_img_recognition_logger.py:430-441 | a table token fills the time or the name as specified |
| OcrParse.FillNormal | src/gui_img_recognition_logger.py:430-441 | filling keeps the placement and leaves any time in normalised form |
| OcrParse.EmitConsistent | src/gui_img_recognition_logger.py:444-448 | emitting a complete row keeps the numbering and row shape |
| OcrParse.StepConsistent | src/gui_img_recognition_logger.py:412-448 | every token keeps the numbering and row shape |
| OcrParse.ParsedRowsShape | src/gui_img_recognition_logger.py:407-450 | emitted rows are numbered 1, 2, ... in order, each with a non-empty name and a normalised time |
| OcrParse.FirstValuesWin | src/gui_img_recognition_logger.py:435-441 | the first time and name of a row are never replaced, and the emitted row carries them |
| OcrParse.RunAppend | src/gui_img_recognition_logger.py:412 | parsing a split input is parsing the first part and then the second from where it left off |
| OcrParse.PreambleIgnored | src/gui_img_recognition_logger.py:417-424 | tokens before the first confident "time" label change nothing |
| OcrParse.NothingBeforeLabel | src/gui_img_recognition_logger.py:417-424 | the rows come from the tokens after the label alone |
| OcrParse.LowConfidenceIgnored | src/gui_img_recognition_logger.py:414-415 | tokens below confidence 0.01 change nothing |
| OcrParse.KeptMeaning | src/gui_img_recognition_logger.py:467-475 | the kept rows are the rows naming a player, unchanged and in input order |
| OcrParse.KeptAt | src/gui_img_recognition_logger.py:467-475 | each kept row is the input row at its recorded position |
| OcrParse.KeptOrdered | src/gui_img_recognition_logger.py:467-475 | the recorded positions are in range and increasing |
| OcrParse.KeptMembers | src/gui_img_recognition_logger.py:472-475 | a row is kept exactly when it is an input row naming a player |
| OcrParse.KeptLength | src/gui_img_recognition_logger.py:467-475 | filtering never adds rows |
| OcrParse.FilterLoggedMeaning | src/gui_img_recognition_logger.py:452-477 | at most eight rows come back, exactly the rows among the first eight that name a player |
| OcrParse.FilterLoggedRows | src/gui_img_recognition_logger.py:452-477 | the loop computes the specified filter |
| OcrParse.FirstRaceExample | tests/OCR_test_cases.py:5-9 | the first image's rows keep placements 1, 3 and 4 once the non-player row is dropped |
| OcrForm.FormMatchAt | src/gui_OCR_logger.py:336 | a match at a position has groups of the pattern's shape |
| OcrForm.FormSearchFrom | src/gui_OCR_logger.py:336 | a search result has groups of the pattern's shape |
| OcrForm.FormReadBack | src/gui_OCR_logger.py:336-339 | the pattern finds m, ss and hh at the start of m:ss.hh |
| OcrForm.FormTimeIdempotent | src/gui_OCR_logger.py:336-339 | a normalised race time normalises to itself |
| OcrForm.DoubleSeparatorRejected | src/gui_OCR_logger.py:336 | "1::23.45" holds no race time for the text logger |
| OcrForm.DoubleSeparatorSkipped | src/gui_img_recognition_logger.py:431-434 | the image logger reads "1::23.45" as 1:23.45 |
| OcrForm.FirstAlias | src/gui_OCR_logger.py:344-348 | the chosen alias is in the table and occurs in the text; with none chosen no alias occurs |
| OcrForm.FirstAliasIsFirst | src/gui_OCR_logger.py:344-348 | no alias earlier in key order occurs in the text |
| OcrForm.NameChoice | src/gui_OCR_logger.py:342-350 | an empty name becomes the player of the first contained alias, or the lowercased text when none is contained |
| OcrForm.FormRowsShown | src/gui_OCR_logger.py:365-373 | the form shows the first min(8, rows) parsed rows, unchanged |
| OcrForm.FillRaceData | src/gui_OCR_logger.py:312-373 | the loops compute the specified parse and show its first eight rows |
| OcrForm.FormFillNormal | src/gui_OCR_logger.py:335-350 | filling keeps the placement and leaves any time in normalised form |
| OcrForm.FormEmitConsistent | src/gui_OCR_logger.py:353-356 | emitting a complete row keeps the numbering and row shape |
| OcrForm.FormStepConsistent | src/gui_OCR_logger.py:317-356 | every token keeps the numbering and row shape |
| OcrForm.FormRowsShape | src/gui_OCR_logger.py:312-356 | rows are numbered 1, 2, ... in order, each with a non-empty name and a normalised time |
| OcrForm.PlacementFromDigit | src/gui_OCR_logger.py:331-333 | with no placement pending, only a confident single-digit token past the label sets one, to the running counter, and no row is emitted |
| OcrForm.FormRunAppend | src/gui_OCR_logger.py:317 | parsing a split input is parsing the first part and then the second from where it left off |
| OcrForm.FormPreambleIgnored | src/gui_OCR_logger.py:322-329 | tokens before the first confident "time" label change nothing |
| OcrForm.FormNothingBeforeLabel | src/gui_OCR_logger.py:322-329 | the rows come from the tokens after the label alone |
| OcrForm.FormLowConfidenceStep | src/gui_OCR_logger.py:319-320 | a token below confidence 0.001 changes nothing |
| EntryForm.ValidateMeaning | src/gui_img_recognition_logger.py:220-231 | a line with a player passes exactly when its placement is 1..8 in digits, a kart is chosen and the time is M:SS.xx; the placement is reported before the kart |
| EntryForm.Centis | src/gui_img_recognition_logger.py:289-290 | the value of an accepted race time is below ten minutes |
| EntryForm.CentisInjective | src/gui_img_recognition_logger.py:289-290 | different accepted times have different values |
| EntryForm.Names | src/gui_img_recognition_logger.py:246-260 | the names seen are the lines' players, in form order |
| EntryForm.Collect | src/gui_img_recognition_logger.py:250-276 | a passing loop selects only valid lines |
| EntryForm.Admit | src/gui_img_recognition_logger.py:256-276 | one line either leaves the selection as it was or adds itself, valid |
| EntryForm.CollectLast | src/gui_img_recognition_logger.py:250 | the loop over a form is the loop over all but its last line, then one pass for the last |
| EntryForm.AcceptableSplit | src/gui_img_recognition_logger.py:250-276 | a form is acceptable exactly when all but its last line are and the last line passes |
| EntryForm.ChosenMembers | src/gui_img_recognition_logger.py:262-263 | the selected lines are exactly the lines that name a player |
| EntryForm.PlacementsOfChosen | src/gui_img_recognition_logger.py:271-275 | a placement is taken exactly when a line naming a player holds it |
| EntryForm.CollectMeaning | src/gui_img_recognition_logger.py:249-276 | the loop passes exactly the acceptable forms and then yields the lines naming a player, in order |
| EntryForm.CollectStep | src/gui_img_recognition_logger.py:256-276 | given the earlier lines passed, the last line passes exactly when it is acceptable after them |
| EntryForm.DuplicateStops | src/gui_img_recognition_logger.py:257-259 | a player named on an earlier line stops the loop |
| EntryForm.NamedBefore | src/gui_img_recognition_logger.py:257-259 | a player on an earlier line is among the names seen, and the repeat breaks the line |
| EntryForm.NewPlayerStep | src/gui_img_recognition_logger.py:265-276 | a line naming a new player passes exactly when it is acceptable |
| EntryForm.TakenStops | src/gui_img_recognition_logger.py:271-273 | a valid line whose placement is taken stops the loop with that placement |
| EntryForm.CollectTaken | src/gui_img_recognition_logger.py:271-273 | a taken placement yields the placement-taken error |
| EntryForm.TakenBreaksLine | src/gui_img_recognition_logger.py:271-273 | a line whose placement an earlier player holds is not acceptable |
| EntryForm.AcceptLine | src/gui_img_recognition_logger.py:275-276 | a valid new player with a free placement is selected and the line is acceptable |
| EntryForm.CollectAccepts | src/gui_img_recognition_logger.py:275-276 | a valid new player with a free placement is added to the selection |
| EntryForm.AcceptedLineOk | src/gui_img_recognition_logger.py:256-276 | a valid new player with a free placement passes |
| EntryForm.CollectStops | src/gui_img_recognition_logger.py:258-273 | once a line stops the loop, later lines change nothing |
| EntryForm.CollectSelected | src/gui_img_recognition_logger.py:245-276 | the loop computes the specified selection or error |
| EntryForm.AdmitLine | src/gui_img_recognition_logger.py:251-276 | the loop body is one pass, and the placements used stay those of the selection |
| EntryForm.NamesLast | src/gui_img_recognition_logger.py:260 | appending a line appends its player to the names seen |
| EntryForm.RaceOf | src/gui_img_recognition_logger.py:284-292 | one (placement, time) pair per selected player |
| EntryForm.FirstAgainst | src/gui_img_recognition_logger.py:296-306 | the inner loop finds the first player that player i is ahead of yet slower than, or proves there is none |
| EntryForm.FirstSlowerFrom | src/gui_img_recognition_logger.py:295-306 | the loops find the first ahead-yet-slower pair, or prove there is none |
| EntryForm.FindSlower | src/gui_img_recognition_logger.py:295-306 | the loops compute the specified first offending pair |
| EntryForm.RaceTimes | src/gui_img_recognition_logger.py:284-292 | the loop computes the specified placements and times |
| EntryForm.Lookup | src/gui_img_recognition_logger.py:310-311 | a found line belongs to the selection and names the player; none found means the player is not selected |
| EntryForm.RowMeaning | src/gui_img_recognition_logger.py:308-317 | the row has date, time and map, and three columns for every roster player and no one else, each the player's entry or "DNR" |
| EntryForm.CellForMeaning | src/gui_img_recognition_logger.py:310-317 | a selected player's column holds that player's line; an unselected one's holds "DNR" |
| EntryForm.FillRow | src/gui_img_recognition_logger.py:308-317 | the loop computes the specified row |
| EntryForm.SaveData | src/gui_img_recognition_logger.py:234-317 | the function computes the specified outcome |
| EntryForm.SaveMeaning | src/gui_img_recognition_logger.py:234-317 | a race is saved exactly when a map is chosen, the form is acceptable, someone is selected and no better-placed player is slower; the row then holds the map and the selected lines |
| ManualLog.DropUnderscores | src/gui_logger.py:53 | removing the underscores int() allows between digits leaves only digits |
| ManualLog.PlainFloat | src/gui_logger.py:66 | float() of text that starts and ends with a digit is its plain decimal value |
| ManualLog.FloatOneDigit | src/gui_logger.py:66 | float() of one digit is that digit's value |
| ManualLog.FloatTwoDecimals | src/gui_logger.py:66 | float() of SS.hh is SS plus hh hundredths |
| ManualLog.ReadingFromParts | src/gui_logger.py:65-67 | a time with one colon reads as the first part times 60 plus the second |
| ManualLog.ClockParts | src/gui_logger.py:66 | a clock time M:SS.hh splits at its colon into M and SS.hh |
| ManualLog.SplitOnOnce | src/gui_logger.py:66 | text with a single separator splits into the parts before and after it |
| ManualLog.ClockSeconds | src/gui_logger.py:65-67 | a clock time M:SS.hh reads as M minutes plus SS.hh seconds |
| ManualLog.ValidateInputsMeaning | src/gui_logger.py:49-62 | inputs pass exactly when the placement reads as 0 to 8 and, for 1 to 8, a kart is chosen and a time typed; placement 0 needs neither |
| ManualLog.InitialBests | src/gui_logger.py:43-46 | every map of the list, and no other, starts with record and personal bests of 3:00.00 |
| ManualLog.BestStepFrame | src/gui_logger.py:108-122 | one racer's time changes only the chosen map's row, and an empty or "DNR" time changes nothing |
| ManualLog.RecordOtherMaps | src/gui_logger.py:105-125 | only the chosen map's row can change, and without any typed time nothing does |
| ManualLog.BestStepRecord | src/gui_logger.py:118-122 | a typed time replaces the map record exactly when it is strictly faster, and the new-record flag records that |
| ManualLog.RecordBest | src/gui_logger.py:105-125 | the map record never rises, falls exactly when a new record is reported, and is no slower than any time of the save |
| ManualLog.BestStepPb | src/gui_logger.py:112-116 | a typed time replaces the racer's best exactly when it is strictly faster; every other racer's best stays |
| ManualLog.RecordPb | src/gui_logger.py:105-125 | a racer's best never rises, the racer is reported exactly when it fell, and it is no slower than any time they typed |
| ManualLog.RecordFails | src/gui_logger.py:114-120 | once reading a time raises, the whole update raises |
| ManualLog.CountAppend | src/gui_logger.py:150 | appending today's race adds one to today's count |
| ManualLog.RaceNumbersMeaning | src/gui_logger.py:149-151 | the new race is today's race number daily, 1 <= daily <= total, and total counts every race including the new one |
| ManualLog.LogDates | src/gui_logger.py:150 | the dates column lists each logged race's date in order |
| ManualLog.Logger.constructor | src/gui_logger.py:35-46 | a fresh logger has every map at the starting best and an empty log |
| ManualLog.Logger.SaveData | src/gui_logger.py:70-174 | each outcome holds exactly in its case: no map chosen gives MapMissing; a chosen map with a failing input gives that input's problem; then an unreadable time gives Raised; every one of these writes nothing; otherwise the bests are updated as specified, the race is appended and the race numbers reported |
| ManualLog.CheckInputs | src/gui_logger.py:86-95 | the loop reports the first racer's problem in form order |
| ManualLog.UpdateBests | src/gui_logger.py:105-122 | the loop computes the specified best-times update, or raises exactly when the specification does |
| LineParser.BaseName | src/Xgui_image_recognition_logger.py:33 | the file name has no folder separator |
| LineParser.RecognizeKart | src/Xgui_image_recognition_logger.py:31-34 | a file named in the kart database gives its kart, any other gives "Unknown Kart" |
| LineParser.KartIgnoresFolder | src/Xgui_image_recognition_logger.py:33 | the kart depends only on the file name, not on its folder |
| LineParser.BaseNamePlain | src/Xgui_image_recognition_logger.py:33 | a plain file name is its own base name |
| LineParser.RecognizePuppy | src/Xgui_image_recognition_logger.py:21-24 | Puppy_kart.png is the Puppy kart |
| LineParser.RecognizeTheKart | src/Xgui_image_recognition_logger.py:21-24 | TheKart_kart.png is The Kart |
| LineParser.RecognizeOther | src/Xgui_image_recognition_logger.py:33 | a file outside the database is an unknown kart |
| LineParser.SplitOnLast | src/Xgui_image_recognition_logger.py:33 | text ending in a separator and a separator-free part splits with that part last |
| LineParser.SplitOnWhole | src/Xgui_image_recognition_logger.py:33 | text without the separator splits into itself |
| LineParser.RunEnd | src/Xgui_image_recognition_logger.py:45 | the greedy run of a character class from a position ends at the first character outside it |
| LineParser.RunStart | src/Xgui_image_recognition_logger.py:45 | the run of a character class ending at a position starts just after the last character outside it |
| LineParser.Cuts | src/Xgui_image_recognition_logger.py:45 | the matcher's cut positions are ordered and within the line |
| LineParser.LineMatchCuts | src/Xgui_image_recognition_logger.py:45 | a reported match is the reading at the matcher's cut positions |
| LineParser.LineMatchSound | src/Xgui_image_recognition_logger.py:45 | every reported match is a reading of the line as placement, blanks, player, blanks, M:SS.hh |
| LineParser.LineMatchComplete | src/Xgui_image_recognition_logger.py:45 | any reading of the line as the pattern makes it match, with that reading's placement and time |
| LineParser.CutsOfShaped | src/Xgui_image_recognition_logger.py:45 | for a line that reads as the pattern, the cut positions are that reading's |
| LineParser.RunEndIs | src/Xgui_image_recognition_logger.py:45 | a run bounded by a character outside the class ends there |
| LineParser.RunStartIs | src/Xgui_image_recognition_logger.py:45 | a run bounded by a character outside the class starts there |
| LineParser.RaceData | src/Xgui_image_recognition_logger.py:42-61 | at most one entry per line, each on the chosen map with the unknown kart |
| LineParser.RaceDataAppend | src/Xgui_image_recognition_logger.py:44-59 | the entries of two blocks of lines are the first block's followed by the second's |
| LineParser.RaceDataOne | src/Xgui_image_recognition_logger.py:44-59 | one line yields its own entry or nothing |
| LineParser.GroupsShape | src/Xgui_image_recognition_logger.py:45 | the time group has the shape M:SS.hh and the placement group is the line's leading digits |
| LineParser.ShapedParts | src/Xgui_image_recognition_logger.py:45 | any reading of the pattern has an M:SS.hh time and an all-digit placement |
| LineParser.LineEntryShape | src/Xgui_image_recognition_logger.py:46-59 | an entry's placement is the value of the line's leading digits and its time has the M:SS.hh shape |
| LineParser.ExtractRaceData | src/Xgui_image_recognition_logger.py:37-61 | the loop yields the specified entries of the text's lines |
| LineParser.AllRaceData | src/Xgui_image_recognition_logger.py:74-77 | every entry of every screenshot is on the chosen map with the unknown kart |
| LineParser.ImageLog.ProcessAndLogImages | src/Xgui_image_recognition_logger.py:69-83 | no map is refused first; no entries leaves the log as it was; otherwise every entry of every screenshot is appended and counted |
| LineParser.ResultLineExample | src/Xgui_image_recognition_logger.py:45-59 | the line "1 Azhan 1:23.45" yields placement 1, player Azhan and time 1:23.45 |
| LineParser.ResultLineGroups | src/Xgui_image_recognition_logger.py:45 | the pattern's groups on "1 Azhan 1:23.45" are "1", "Azhan" and "1:23.45" |
| Site.Cleaned | docs/assets/js/main.js:378 | each piece is trimmed and lower-cased, in order |
| Site.Dedupe | docs/assets/js/main.js:379 | each name once, and exactly the names of the input |
| Site.DedupeDistinct | docs/assets/js/main.js:379 | a list without repeats is left as it is |
| Site.NamesMeaning | docs/assets/js/main.js:378-379 | the names are distinct and are exactly the non-empty trimmed, lower-cased pieces |
| Site.FilterComplete | docs/assets/js/main.js:378 | a kept element of the input survives the filter |
| Site.FindIn | docs/assets/js/main.js:392 | a roster player is found exactly when one lower-cases to the name, and the one found does |
| Site.Resolve | docs/assets/js/main.js:391-393 | the resolved players are roster players, at most one per name |
| Site.ResolveMeaning | docs/assets/js/main.js:391-401 | all names resolve exactly when none is unmatched; then each resolves to a player that lower-cases to it, and distinct names give distinct players |
| Site.RacesWithMeaning | docs/assets/js/main.js:404-406 | a race is counted exactly when every selected player has a placement other than "DNR" in it |
| Site.ParseIntDigits | docs/assets/js/main.js:424 | a placement of digits reads as its decimal value |
| Site.LeadingAll | docs/assets/js/main.js:424 | a run made only of blanks is skipped whole |
| Site.PointsForBounds | docs/assets/js/main.js:421-426 | a placement earns between 0 and 25 points |
| Site.PointsAgree | docs/assets/js/main.js:421-426 | the page awards the same points per placement as the analysis scripts, and 0 for an unreadable placement |
| Site.TallyStep | docs/assets/js/main.js:422-428 | one more race adds that race's placement to the player's totals |
| Site.TallyBounds | docs/assets/js/main.js:422-428 | each counted race adds one race and 0 to 25 points |
| Site.PprBounds | docs/assets/js/main.js:433 | over a non-empty set of races, points per race lie between 0 and 25 |
| Site.Select | docs/assets/js/main.js:371-401 | an accepted input names 2 to 8 distinct roster players; a rejection is one of the four input errors |
| Site.Totals | docs/assets/js/main.js:416-429 | one tally per selected player, over the given races |
| Site.SelectRejects | docs/assets/js/main.js:371-401 | the input is rejected as empty exactly when its trimmed text is empty, and the unknown names listed are exactly the unmatched ones |
| Site.SelectCounts | docs/assets/js/main.js:381-388 | fewer than 2 or more than 8 distinct names are rejected, and an accepted input keeps one player per name |
| Site.FetchTotals | docs/assets/js/main.js:404-429 | on success every selected player's race count is the number of races all of them finished, and their points are at most 25 a race |
| Site.RacesTogether | docs/assets/js/main.js:370-440 | the handler's loops compute the specified outcome |
| Site.Tabulate | docs/assets/js/main.js:416-429 | the nested loops compute each selected player's specified totals |
| Site.BeforeIsPreorder | docs/assets/js/main.js:322-343 | every column's comparator, in either direction, orders the rows consistently |
| Site.SortRows | docs/assets/js/main.js:322-343 | a sort is a permutation of the rows, ordered by the column's comparator in the chosen direction |
| Site.ToggleMeaning | docs/assets/js/main.js:49-59 | clicking the sorted column flips its direction, twice restores it, and a new column starts in default order |
| Site.SortedTable.constructor | docs/assets/js/main.js:46-97 | the first render sorts by the default column in default order |
| Site.SortedTable.SortTable | docs/assets/js/main.js:49-61 | a click updates the sort state by the toggle and re-sorts the table's rows in place by the clicked column, in the direction the new state gives |
| Site.NewestFirst | docs/assets/js/main.js:170 | the dates are a permutation of the input, newest first |

## Left out

- GUI, files and clocks:
  - Tkinter widgets, the DOM, CSV/JSON reading and writing, status messages, plots;
  - `datetime.now()`, which is passed in as date and time parameters;
  - `fetch`: the page's results and roster are parameters.
- OCR, image and detection libraries (easyocr, pytesseract, OpenCV, YOLO) are not modelled. Their output is the input: a token sequence, or the text of each screenshot. The YOLO kart detection and its 0.04 y-grouping are not part of this model.
- The rapidfuzz scorer is a parameter `score(query, alias)`, and nothing is assumed about it.
- The Elo expected score `1 / (1 + 10 ** ((b - a) / 400))` is floating-point arithmetic. It is a parameter `expected`.
- Elo.WinnerNeverLoses: stated only for an expected-score function with values between 0 and 1, which the real formula has.
- Elo.LastNeverGains: stated only for an expected-score function with values between 0 and 1.
- Elo.RowOfWinner: stated only for an expected-score function with values between 0 and 1.
- Elo.RowOfLoser: stated only for an expected-score function with values between 0 and 1.
- Elo.ParticipantsDistinct: stated for a roster without repeated names, which the fixed roster is.
- Elo.StepInvariants: stated for a roster without repeated names.
- Elo.ReplayInvariants: stated for a roster without repeated names.
- Elo.StepCounts: stated for a roster without repeated names.
- Karts.CountedMeaning: stated for a kart list without repeated names. With repeats, the code compares a pair once per repeat, and the model's counters follow the code.
- Karts.AdjacencyMeaning: the per-pair score is stated for a kart list without repeated names. The keys and the "DNR" diagonal hold for any list.
- Floating-point rounding:
  - ratings, averages and points per race are exact reals or quotients;
  - `round(x, 2)`, `toFixed(2)` and `parseFloat(x.toFixed(2))` are not modelled, and neither are the rounded values in the reports.
  - The kart score `(elo / 1000) * (1 / placement)` is exact.
- Python `float()`:
  - is modelled on plain decimal text: optional blanks, a sign, digits and one decimal point;
  - exponents, `inf`, `nan` and digit underscores are read as errors;
  - `int()` does accept single underscores between digits.
- Text is ASCII:
  - `\d`, `\w` and `\s`, `str.isdigit`, `strip`, `lower`, `trim` and `toLowerCase` are their ASCII versions;
  - Unicode digits, letters and case mapping are not modelled;
  - `localeCompare` is code-point order;
  - `new Date(b) - new Date(a)` on the `YYYY-MM-DD` keys is their text order.
- pandas is not modelled:
  - a results row is the cells the code reads;
  - the file's placement columns are a set of players, separate from the rows, in the post-analysis statistics and the desktop analyzer; a row without a key for a player holds an empty cell (NaN) there;
  - in the Elo replay, the kart analysis and the best-times table, which test for a column or read it with `get`, a row without a key for a player stands for a missing column;
  - the `Date` and `Map Name` columns are assumed present: a `KeyError` on them is not modelled;
  - a `ValueError` or `KeyError` that aborts a script, such as `int()` of an empty cell or indexing a missing placement column, is a `None` or `Err` result, with no partial output.
- Rosters, map lists, kart lists and the alias file are inputs, not files. The page's roster is the constant list of `main.js:1`.
- `Array.prototype.sort` with a comparator that is not consistent is not modelled:
  - the Avg Position column of `createAndRenderSummaryTable` (`main.js:101-145`) mixes numbers with "N/A" and is not part of this model;
  - the "races together" result table's comparators (`main.js:443-480`) sort `toFixed` strings and are not part of this model;
  - the summary table of `renderSummaryTable` (`main.js:296-346`) is modelled.
- ManualLog.ClockSeconds: the starting best "3:00.00" is not evaluated to 180 seconds by a lemma of its own. ClockSeconds, FloatOneDigit and FloatTwoDecimals together give that value for any `M:SS.hh` time.
- LineParser.BaseName: splits at `/` only, as `Path.name` does on POSIX; a Windows `\` separator is not modelled.
- The TrueSkill analysis (`src/calculations/trueskill_analysis.py`) is a wrapper over a library's floating-point code and is not part of this model. The same goes for `src/analyze_all.py`, `src/Xreorg.py` and `tests/OCR_testing.py`, which only run scripts and move files.
