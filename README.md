# Talking Bat analytics: a verified model

This project models the ball-by-ball analytics of the Talking Bat cricket app in Dafny. It covers these parts:

- **Header normaliser** (`_normalize_cols`). It strips each header, turns each run of whitespace or dashes into one `_`, drops the remaining non-word characters, lower-cases the result and applies a fixed rename table.
- **Delivery classifiers.**
  - `is_legal` rules out wides and no-balls.
  - `over_from_balls` is kept as an exact rational.
  - `phase_from_over` splits overs into Powerplay, Middle and Death.
  - `coarse_type` sorts a bowling description into Pace, Spin or Unknown by keyword.
- **Sheet preparation** (`_read_and_prepare`).
  - The numeric columns are coerced to integers: anything that is not an integer becomes 0.
  - The text columns become stripped strings: an empty cell becomes `"nan"`.
  - This is a `Frame` class whose method overwrites columns in place.
- **The analytics page** (`show_u19_analytics`). After the required-column check and the tournament/match/team selection it shows:
  - the team KPIs;
  - the phase table;
  - the batting and bowling lines;
  - the pace/spin table;
  - the bowling-action table.
- **The older analytics page.** It strips and lower-cases the headers and only warns about missing columns. Its batting and bowling aggregates count every non-empty `ball`. Only balls per boundary and balls per dismissal replace a zero divisor by one. Strike rate, Dot%, Boundary% and economy divide by the raw count, so a zero count gives infinity or NaN (`Legacy.Quotient`).
- **The fixtures and results pages.** Each lower-cases a match's status, tests it with its own predicate and builds its display rows in a `for` loop.

Modules:

| Module | File | Contents |
|---|---|---|
| `Common` | `common.dfy` | `Option` and `Result` |
| `Text` | `text.dfy` | ASCII `lower`/`upper`, Python's `strip`, `startswith`, substring search |
| `Sorting` | `sorting.dfy` | Python's string order, and a stable insertion sort used as the specification of `sort_values` |
| `Headers` | `headers.dfy` | Both header cleanups and the missing-column list |
| `Sheet` | `sheet.dfy` | Cell coercion, and the `Frame` class with `Prepare` |
| `Classify` | `classify.dfy` | The four classifiers |
| `Deliveries` | `deliveries.dfy` | The delivery record, the per-row aggregates (`Tally`, a monoid) and a generic group-by with its conservation law |
| `Tables` | `tables.dfy` | Every table of the page, and the lemmas relating them to the KPIs |
| `Analytics` | `analytics.dfy` | The page from the uploaded sheet to its report or its error |
| `Legacy` | `legacy.dfy` | The older page |
| `Listings` | `listings.dfy` | The fixtures and results pages |

`groupby` lists its groups in ascending key order, and a multi-key `sort_values` is stable. The model therefore breaks ties in the batting and bowling tables by name, in Python's code-point order. The tables of the current page come with these proofs:

- The batting, bowling and action tables are sorted permutations of their groups.
- The phase and style tables are not sorted: they follow the fixed key order Powerplay, Middle, Death and Pace, Spin, Other.
- The phase, style and action tables' runs and the bowling table's balls, runs and wickets add up to the team KPIs. The batting table's runs add up to the total of `batsman_runs`, which is not one of the KPIs.
- The older page's batting and bowling tables are proved sorted and complete, but no totals are proved for them.

Some consequences of the code as written, proved below:

- The pace key `"rm"` occurs inside "arm". So a description such as "Right arm googly" that holds no spin key is classed as Pace (`Classify.ArmReadsAsPace`).
- The pace regex fallback of `coarse_type` can never fire (`Classify.PaceFallbackUnreachable`).
- A batter's Dot% counts every row without bat runs, but divides by legal balls only, so it can exceed 100 (`Tables.BatterDotShareCanExceedHundred`).
- The bowler's wicket count is taken from `player_dismissed`, so run-outs count too.
- The older page rounds overs to a tenth before it divides. One ball for one run therefore shows an economy of 5, not 6 (`Legacy.RoundedOversSkewEconomy`).

## Model

| member | source | states |
|---|---|---|
| Text.Lower | v2/app/U19_Analytics.py:44 | lower-casing keeps the length, leaves no capital and moves each capital up by 32 (ASCII) |
| Text.Strip | v2/app/U19_Analytics.py:41 | the stripped header neither starts nor ends with whitespace |
| Text.StripIdempotent | v2/app/U19_Analytics.py:41 | stripping twice equals stripping once |
| Text.ContainsAt | v2/app/U19_Analytics.py:113 | a key occurring at some position makes `k in s` true |
| Text.ContainsOnlyChars | v2/app/U19_Analytics.py:113 | a character that is absent from `s` rules out every key holding it |
| Text.ContainsNoLonger | v2/app/U19_Analytics.py:113 | only a key no longer than `s` can occur in `s` |
| Headers.CollapseSeparators | v2/app/U19_Analytics.py:42 | after the collapse, no whitespace or dash remains, and the result is no longer than the input |
| Headers.KeepWordChars | v2/app/U19_Analytics.py:43 | only word characters remain |
| Headers.CleanHeader | v2/app/U19_Analytics.py:39-45 | the four string steps yield only small letters, digits and underscores |
| Headers.NormalizeColumns | v2/app/U19_Analytics.py:33-77 | one header per column, same count, same order, each normalised |
| Headers.NormalizedIsCanonical | v2/app/U19_Analytics.py:39-76 | every normalised header (renames included) is made of small letters, digits and `_` |
| Headers.RenameValuesSettled | v2/app/U19_Analytics.py:47-75 | every rename value is canonical, and renaming it again changes nothing |
| Headers.CleanKeepsCanonical | v2/app/U19_Analytics.py:39-45 | a canonical header passes the string steps unchanged |
| Headers.NormalizeHeaderIdempotent | v2/app/U19_Analytics.py:33-77 | normalising twice equals normalising once |
| Headers.NormalizeColumnsIdempotent | v2/app/U19_Analytics.py:33-77 | `_normalize_cols` applied twice equals applied once |
| Headers.CollapseRun | v2/app/U19_Analytics.py:42 | a run of separators becomes exactly one `_` |
| Headers.CleanTwoWords | v2/app/U19_Analytics.py:39-45 | two words joined by a separator run become the lower-cased words joined by `_` |
| Headers.CleanOneWord | v2/app/U19_Analytics.py:39-45 | a header of word characters only loses nothing but its capitals |
| Headers.MatchIdSpellings | v2/app/U19_Analytics.py:35 | "Match ID", "match-id", "match id", "Match.ID" and "MatchId" all become `match_id` |
| Headers.LegacyHeader | v2/app/v2/app/U19_Analytics.py:20 | the older cleanup is no longer than its input and leaves no capital |
| Headers.LegacyKeepsInnerSpace | v2/app/v2/app/U19_Analytics.py:20 | the older cleanup maps "Match ID" to "match id", unlike the newer one |
| Headers.Missing | v2/app/U19_Analytics.py:173 | exactly the expected names absent from the columns are listed |
| Sheet.IntegerTextRoundTrip | v2/app/U19_Analytics.py:134 | integer coercion reads back every integer `str` wrote |
| Sheet.CoercionExamples | v2/app/U19_Analytics.py:134 | empty cells and non-integer text coerce to 0, and integer text is read |
| Sheet.ConvertCellIdempotent | v2/app/U19_Analytics.py:134-140 | converting a converted cell again changes nothing |
| Sheet.ConvertColumnIdempotent | v2/app/U19_Analytics.py:134-140 | the same holds for a whole column |
| Sheet.IndexOf | v2/app/U19_Analytics.py:133 | the first column with the name, present iff the name is a header |
| Sheet.ConvertAll | v2/app/U19_Analytics.py:132-140 | the column loop keeps the frame's shape |
| Sheet.ConvertAllAt | v2/app/U19_Analytics.py:132-140 | a column is converted iff it is the first column with a listed name, and is otherwise untouched |
| Sheet.PreparedAt | v2/app/U19_Analytics.py:128-141 | numeric columns coerced, text columns stringified and stripped, other columns kept |
| Sheet.PrepareIdempotent | v2/app/U19_Analytics.py:128-141 | preparing a prepared frame changes nothing |
| Sheet.PreparedCellsTyped | v2/app/U19_Analytics.py:132-140 | after preparation, numeric columns hold integers and text columns hold stripped text |
| Sheet.Frame.Prepare | v2/app/U19_Analytics.py:128-141 | the in-place loops leave normalised headers and exactly the prepared cells |
| Sheet.Frame.ConvertColumns | v2/app/U19_Analytics.py:132-140 | one column loop overwrites exactly the listed columns, as `ConvertAll` says |
| Sheet.Frame.ConvertBoth | v2/app/U19_Analytics.py:132-140 | the numeric loop runs first and the text loop then runs on its output; every column keeps the frame height |
| Classify.IsLegalIgnoresCaseAndPadding | v2/app/U19_Analytics.py:84-88 | legality does not depend on capitals or surrounding whitespace |
| Classify.LowerStripCommute | v2/app/U19_Analytics.py:87 | stripping and lower-casing commute |
| Classify.MissingTypeIsLegal | v2/app/U19_Analytics.py:85-86 | a missing or empty ball type is legal |
| Classify.WdIsIllegal | v2/app/U19_Analytics.py:82-88 | "wd" is illegal |
| Classify.CapitalWideIsIllegal | v2/app/U19_Analytics.py:82-88 | "WIDE" is illegal |
| Classify.PaddedNbIsIllegal | v2/app/U19_Analytics.py:82-88 | " Nb " is illegal |
| Classify.SpacedNoBallIsLegal | v2/app/U19_Analytics.py:82-88 | "no ball" with a space is legal |
| Classify.NanTextIsLegal | v2/app/U19_Analytics.py:82-88 | the text "nan" is legal |
| Classify.OverFromBalls | v2/app/U19_Analytics.py:90-91 | overs equal balls/6 exactly; zero iff no balls; never negative for a count |
| Classify.OversParts | v2/app/U19_Analytics.py:90-91 | the whole part is `balls // 6`; the fraction is `(balls % 6)/6`, below one |
| Classify.PhasePartition | v2/app/U19_Analytics.py:93-101 | at most 5 is Powerplay, 6 to 14 is Middle, at least 15 is Death |
| Classify.PhaseMonotone | v2/app/U19_Analytics.py:93-101 | a later over never falls in an earlier phase |
| Classify.PhaseLabelsDistinct | v2/app/U19_Analytics.py:96-101 | the three labels are distinct |
| Classify.StyleLabelsDistinct | v2/app/U19_Analytics.py:315 | after "Unknown" becomes "Other", the shown labels are still distinct |
| Classify.AnyInMember | v2/app/U19_Analytics.py:113 | a key that occurs makes the any-key test true |
| Classify.PacePatternCovered | v2/app/U19_Analytics.py:120 | each alternative of the pace regex is a pace key |
| Classify.SpinPatternBeyondKeys | v2/app/U19_Analytics.py:118 | without a spin key, the spin regex matches only through "break" |
| Classify.CoarseTypeDecision | v2/app/U19_Analytics.py:111-122 | spin key gives Spin, else pace key gives Pace, else "break" gives Spin, else Unknown |
| Classify.PaceFallbackUnreachable | v2/app/U19_Analytics.py:120-121 | the pace fallback never fires |
| Classify.ArmReadsAsPace | v2/app/U19_Analytics.py:104-116 | any text with "arm" and no spin key is Pace |
| Classify.NoDescriptionIsUnknown | v2/app/U19_Analytics.py:111-122 | two empty descriptions give Unknown |
| Classify.ShortTextIsUnknown | v2/app/U19_Analytics.py:111-122 | a text of at most one character is Unknown |
| Classify.NoLongKeyIn | v2/app/U19_Analytics.py:113 | keys longer than the text never occur in it |
| Classify.SpinKeyWins | v2/app/U19_Analytics.py:113-114 | any spin key decides Spin whatever pace words are present |
| Deliveries.Annotate | v2/app/U19_Analytics.py:199-200 | the delivery is kept; `is_legal` is the legality of its ball type, `phase` the phase of its over, and `coarse` (added at lines 301-302) the coarse type of its bowling action and bowler type |
| Deliveries.Annotated | v2/app/U19_Analytics.py:199-200 | one annotated row per delivery, in order |
| Deliveries.TallyOf | v2/app/U19_Analytics.py:203-207 | the aggregates count every row and are consistent (faced ≤ legal ≤ rows, dots bounded) |
| Deliveries.TallyOfAppend | v2/app/U19_Analytics.py:203-207 | aggregates add up over concatenation |
| Deliveries.PlusAssociative | v2/app/U19_Analytics.py:218-223 | adding aggregates is associative |
| Deliveries.PlusCommutative | v2/app/U19_Analytics.py:218-223 | adding aggregates is commutative |
| Deliveries.PlusZero | v2/app/U19_Analytics.py:218-223 | the empty aggregate is neutral |
| Deliveries.Select | v2/app/U19_Analytics.py:219 | a group holds exactly the rows with its key |
| Deliveries.Reject | v2/app/U19_Analytics.py:219 | the rest holds exactly the rows with other keys |
| Deliveries.TallySplit | v2/app/U19_Analytics.py:219 | a group plus the rest has the aggregates of all rows |
| Deliveries.SelectAfterReject | v2/app/U19_Analytics.py:219 | removing one key leaves the other groups unchanged |
| Deliveries.Groups | v2/app/U19_Analytics.py:219-223 | each group is non-empty and consistent, and carries the aggregates of its key's rows |
| Deliveries.GroupsComplete | v2/app/U19_Analytics.py:219-223 | every key that has rows gets a group |
| Deliveries.GroupsOrdered | v2/app/U19_Analytics.py:219-228 | groups follow the order of the keys |
| Deliveries.GroupsIgnoreRejected | v2/app/U19_Analytics.py:219 | rows of keys not listed do not affect the groups |
| Deliveries.GroupsConserve | v2/app/U19_Analytics.py:219-223 | with distinct covering keys, the groups' aggregates sum to all rows' aggregates |
| Deliveries.SumTalliesAppend | v2/app/U19_Analytics.py:219-223 | summing groups distributes over concatenation |
| Deliveries.SumTalliesRemove | v2/app/U19_Analytics.py:219-223 | removing one group removes its aggregates from the sum |
| Deliveries.SumTalliesPermutation | v2/app/U19_Analytics.py:228 | rearranging groups keeps their sum |
| Sorting.LexLeIsTotalOrder | v2/app/U19_Analytics.py:255 | Python's string order is total, antisymmetric and transitive |
| Sorting.Insert | v2/app/U19_Analytics.py:265 | insertion adds exactly the one element |
| Sorting.SortBy | v2/app/U19_Analytics.py:265 | the sorted table is a permutation of its input |
| Sorting.InsertSorted | v2/app/U19_Analytics.py:265 | inserting into a sorted table keeps it sorted |
| Sorting.SortBySorted | v2/app/U19_Analytics.py:265 | the sort's output is sorted for a total, transitive order |
| Tables.InsertKey | v2/app/U19_Analytics.py:255 | inserting a key adds exactly that key |
| Tables.InsertKeyAscending | v2/app/U19_Analytics.py:255 | inserting keeps the key list strictly ascending |
| Tables.SortedKeys | v2/app/U19_Analytics.py:255 | the group keys are exactly the keys that occur |
| Tables.SortedKeysAscending | v2/app/U19_Analytics.py:255 | the group keys are strictly ascending and distinct |
| Tables.GroupByNameFacts | v2/app/U19_Analytics.py:255-278 | a name group-by conserves all aggregates and lists names in ascending order |
| Tables.SumOfColumn | v2/app/U19_Analytics.py:218-223 | a column copying an additive aggregate sums to that aggregate of all groups |
| Tables.Rate | v2/app/U19_Analytics.py:225 | `np.where(den > 0, num/den, 0)`: the quotient when den > 0, else 0 |
| Tables.PerOver | v2/app/U19_Analytics.py:208 | `runs / overs if overs > 0 else 0.0`: the quotient for positive overs, else 0 |
| Tables.PerOverOfBalls | v2/app/U19_Analytics.py:205-208 | dividing by the overs of a ball count is six times dividing by the balls; 0 without balls |
| Tables.RunsPerOver | v2/app/U19_Analytics.py:205-208 | runs per over of a ball count: 0 without balls, else r × balls = 6 × runs |
| Tables.KpisOf | v2/app/U19_Analytics.py:203-208 | runs are the total of `total_runs`, balls the legal rows, wickets the dismissals; balls and wickets are bounded by the rows; overs = balls/6; the run rate is the runs per over of the legal balls |
| Tables.PhaseRowOf | v2/app/U19_Analytics.py:218-225 | the row's phase is its group's key; runs, balls and bat runs are the group's `total_runs` sum, legal count and `batsman_runs` sum; SR is 0 without balls, else 100 × bat runs / balls |
| Tables.PhaseRows | v2/app/U19_Analytics.py:225 | one phase row per group |
| Tables.PhasesCover | v2/app/U19_Analytics.py:226 | every row's phase is among the three ordered categories |
| Tables.PhaseTableConserves | v2/app/U19_Analytics.py:218-228 | phase runs sum to the team's runs, and phase balls to the team's legal balls |
| Tables.PhaseTableOrdered | v2/app/U19_Analytics.py:226-228 | rows come Powerplay, Middle, Death |
| Tables.PhaseTableComplete | v2/app/U19_Analytics.py:218-228 | every occurring phase has a row, holding that phase's figures |
| Tables.SumByAppend | v2/app/U19_Analytics.py:218-223 | column sums distribute over concatenation |
| Tables.SumByRemove | v2/app/U19_Analytics.py:218-223 | removing a row removes its value from the sum |
| Tables.SumByPermutation | v2/app/U19_Analytics.py:265 | sorting a table keeps its column totals |
| Tables.SortedRowsFrom | v2/app/U19_Analytics.py:265 | every row of a sorted table is one of its input rows |
| Tables.BatLineOf | v2/app/U19_Analytics.py:253-264 | R is bat runs; B is legal balls faced (≤ rows); 4s, 6s and Dots are the batter's fours, sixes and rows without bat runs; SR and Dot% are 0 without balls, else per hundred balls |
| Tables.BatLines | v2/app/U19_Analytics.py:254-264 | one batting line per group |
| Tables.BatBeforeOrders | v2/app/U19_Analytics.py:265 | the batting order is total and transitive |
| Tables.BattingRunsConserved | v2/app/U19_Analytics.py:252-265 | the batters' runs sum to the selection's `batsman_runs` |
| Tables.BattingTableOrdered | v2/app/U19_Analytics.py:265 | R descending, then SR descending |
| Tables.BattingTableComplete | v2/app/U19_Analytics.py:253-259 | every batsman of the selection has a line |
| Tables.BattingLineMeaning | v2/app/U19_Analytics.py:254-264 | each line holds exactly that batsman's figures |
| Tables.BatterDotShareCanExceedHundred | v2/app/U19_Analytics.py:253-264 | a legal dot plus a scoreless illegal ball give a Dot% of 200 |
| Tables.BowlLineOf | v2/app/U19_Analytics.py:276-288 | B is legal balls; R is total runs; Dots is the legal dot balls, so Dots ≤ B; O = B/6; Econ is the runs per over of B; SR is balls per wicket; Dot% is the per-cent share of Dots in B |
| Tables.Percent | v2/app/U19_Analytics.py:288 | `np.where(B > 0, x * 100 / B, 0.0)`: 0 without balls, else r × B = 100 × x |
| Tables.BallsPerWicket | v2/app/U19_Analytics.py:287 | the bowling strike rate is undefined iff there is no wicket, else balls / wickets |
| Tables.BowlLines | v2/app/U19_Analytics.py:277-288 | one bowling line per group |
| Tables.BowlBeforeOrders | v2/app/U19_Analytics.py:289 | the bowling order is total and transitive |
| Tables.BowlingConserved | v2/app/U19_Analytics.py:274-289 | the bowlers' balls, runs and wickets sum to the team's |
| Tables.BowlingTableOrdered | v2/app/U19_Analytics.py:289 | W descending, then Econ ascending |
| Tables.BowlingTableComplete | v2/app/U19_Analytics.py:275-281 | every bowler of the selection has a line |
| Tables.BowlingLineMeaning | v2/app/U19_Analytics.py:277-288 | each line holds exactly that bowler's figures |
| Tables.StyleRowOf | v2/app/U19_Analytics.py:305-315 | B is legal balls; R is total runs; bat_runs and Dots (rows with `total_runs == 0`) come from the style's rows; SR = 100 × bat_runs / B and Dot% = 100 × Dots / B, both 0 without balls; the label is never "Unknown" |
| Tables.StyleRows | v2/app/U19_Analytics.py:313-315 | one style row per group |
| Tables.StylesCover | v2/app/U19_Analytics.py:306 | every row's style is Pace, Spin or Unknown |
| Tables.StyleTableConserves | v2/app/U19_Analytics.py:305-311 | style runs and balls sum to the team's |
| Tables.StyleTableOrdered | v2/app/U19_Analytics.py:305-315 | the rows' labels are strictly ordered Pace, Spin, Other, so each appears at most once |
| Tables.LabelRankOfLabel | v2/app/U19_Analytics.py:305-311 | relabelling "Unknown" as "Other" keeps the group-by's order of the raw style names |
| Tables.StyleTableLabels | v2/app/U19_Analytics.py:315 | no row is labelled "Unknown" |
| Tables.ActionRowOf | v2/app/U19_Analytics.py:331-342 | B is legal balls; R is total runs; bat_runs and Dots come from the action's rows; SR = 100 × bat_runs / B and Dot% = 100 × Dots / B, both 0 without balls |
| Tables.ActionRows | v2/app/U19_Analytics.py:341-342 | one action row per group |
| Tables.ActionBeforeOrders | v2/app/U19_Analytics.py:337 | the action order is total and transitive |
| Tables.ActionTableFacts | v2/app/U19_Analytics.py:331-337 | action runs sum to the team's runs, largest first |
| Analytics.AllDeliveries | v2/app/U19_Analytics.py:165 | one delivery per sheet row, the i-th read from the i-th row of every column |
| Analytics.Selection | v2/app/U19_Analytics.py:193 | exactly the rows of the chosen tournament, match and batting team |
| Analytics.SelectionAppend | v2/app/U19_Analytics.py:193 | the mask distributes over concatenation, so rows keep their order and duplicates are kept |
| Analytics.SelectionSingle | v2/app/U19_Analytics.py:193 | one row is kept iff its tournament, match and team are the chosen ones |
| Analytics.NothingMissing | v2/app/U19_Analytics.py:173-176 | nothing is missing iff every required name is present |
| Analytics.AnalyzeOutcome | v2/app/U19_Analytics.py:164-208 | a report appears iff no coerced column name occurs twice, no column is missing, the selection is non-empty and the dismissal and bat-runs columns exist; it is that selection's report |
| Analytics.MissingColumnsReported | v2/app/U19_Analytics.py:171-176 | a missing required column stops the page with that name listed |
| Analytics.ReportConsistent | v2/app/U19_Analytics.py:202-342 | every table of the report adds up to the KPIs |
| Legacy.LegacyColumns | v2/app/v2/app/U19_Analytics.py:20 | one stripped, lower-cased header per column |
| Legacy.OldTallyOf | v2/app/v2/app/U19_Analytics.py:32-40 | balls, wickets and the dot/four/six counts are bounded by the rows |
| Legacy.OldSelect | v2/app/v2/app/U19_Analytics.py:33 | a group holds exactly the rows with that non-empty key |
| Legacy.OldKeys | v2/app/v2/app/U19_Analytics.py:33-60 | the keys are exactly the non-empty names that occur |
| Legacy.OldKeysAscending | v2/app/v2/app/U19_Analytics.py:33-60 | the keys are strictly ascending |
| Legacy.OverZero | v2/app/v2/app/U19_Analytics.py:43-45 | a float division by zero is NaN for 0, else an infinity of the dividend's sign; never a number |
| Legacy.PerHundredBalls | v2/app/v2/app/U19_Analytics.py:43-45 | a number iff there are balls, then 100 × x / balls; otherwise `x / 0` |
| Legacy.OldBatLineOf | v2/app/v2/app/U19_Analytics.py:32-46 | Runs, Balls, Dots, Fours and Sixes as aggregated; SR, Dot% and Bnd% are those counts per hundred balls (inf or NaN without balls); BPB = Balls without boundaries, else Balls / boundaries |
| Legacy.OldBatLines | v2/app/v2/app/U19_Analytics.py:32-46 | one line per batsman, from that batsman's rows |
| Legacy.OldBattingTableOrdered | v2/app/v2/app/U19_Analytics.py:49 | the batting table is in Runs descending order |
| Legacy.OldBattingLineMeaning | v2/app/v2/app/U19_Analytics.py:32-46 | each line holds the figures of that batsman's own rows |
| Legacy.OldBattingTableComplete | v2/app/v2/app/U19_Analytics.py:32-42 | every row with a batsman puts that batsman in the table |
| Legacy.RoundedOvers | v2/app/v2/app/U19_Analytics.py:69 | overs within 1/20 of Balls/6; positive iff there are balls |
| Legacy.OldBowlLineOf | v2/app/v2/app/U19_Analytics.py:59-72 | Overs are the rounded overs; Eco is a number iff there are balls, then Runs / Overs, else `Runs / 0`; Dot% per hundred balls; BPD = Balls without wickets, else Balls / Wickets |
| Legacy.OldBowlLines | v2/app/v2/app/U19_Analytics.py:59-72 | one line per bowler, from that bowler's rows |
| Legacy.OldBowlingTableOrdered | v2/app/v2/app/U19_Analytics.py:75 | the bowling table is in Wickets descending order |
| Legacy.OldBowlingTableComplete | v2/app/v2/app/U19_Analytics.py:59-66 | every row with a bowler puts that bowler in the table |
| Legacy.OldBowlingLineMeaning | v2/app/v2/app/U19_Analytics.py:59-72 | each line holds the figures of that bowler's own rows |
| Legacy.BowlerChargedBatRunsOnly | v2/app/v2/app/U19_Analytics.py:62 | a bowler is charged bat runs only, never extras |
| Legacy.WicketCounting | v2/app/v2/app/U19_Analytics.py:64 | a row is a wicket iff its dismissal kind is not exactly "none", empty and "None" included |
| Legacy.RoundedOversSkewEconomy | v2/app/v2/app/U19_Analytics.py:69-70 | one ball for one run shows 0.2 overs and economy 5 |
| Legacy.OldAnalytics | v2/app/v2/app/U19_Analytics.py:15-84 | the page fails exactly when the bowling table is not shown, and never shows bowling without batting |
| Legacy.MissingOnlyWarns | v2/app/v2/app/U19_Analytics.py:23-28 | with the five read columns present, both tables are shown whatever else is missing |
| Listings.StatusOf | 2_Fixtures.py:12 | the status is lower-cased, and a missing one reads as "" |
| Listings.ListingOf | 2_Fixtures.py:14-22 | the row copies the match's fields; Type is the upper-cased match type or "" |
| Listings.Listed | 2_Fixtures.py:10-22 | no more rows than matches |
| Listings.ListedAppend | 3_Results.py:10-22 | rows keep the input order: listing a concatenation lists each part in turn |
| Listings.ListedExactly | v2/app/Results.py:8-20 | every accepted match has its row, and every row comes from an accepted match |
| Listings.ListedSkipsRejected | 2_Fixtures.py:13 | a rejected match adds no row |
| Listings.BuildRows | 2_Fixtures.py:10-22 | the loop's rows are exactly the listing of the matches |
| Listings.FixtureRows | 2_Fixtures.py:10-22 | fixture rows are the listing under the fixtures test |
| Listings.ResultRows | 3_Results.py:10-22 | result rows are the listing under the prefix/substring test |
| Listings.RecentResultRows | v2/app/Results.py:8-20 | result rows are the listing under the any-word test |
| Listings.NoStatusIsFixture | 2_Fixtures.py:12-13 | a missing or empty status is always a fixture, and never a result on either results page |
| Listings.StatusIgnoresCase | 2_Fixtures.py:12 | statuses that agree when lower-cased are treated alike |
| Listings.NsOnlyExact | 2_Fixtures.py:13 | "ns" counts only as the whole status: "runs" holds it and is no fixture |
| Listings.RecentAcceptsEveryResult | v2/app/Results.py:11 | the newer test accepts every status the older test accepts |
| Listings.MidStringWonRejected | 3_Results.py:13 | "india won by 5 runs" is rejected by the older test and accepted by the newer |
| Listings.RecentListsMore | v2/app/Results.py:8-20 | keeping only the rows of the newer page that the older test accepts gives exactly the older page's rows, in the same order; so the newer page lists every row the older lists, and at least as many rows |

## Left out

- The Streamlit rendering is not modelled: cards, columns, metrics, charts, the file uploader and caching.
- The file reading is not modelled. `pd.read_excel` becomes the sheet given as headers and cells, and its failure is not modelled. `ReadFailed` stands only for two columns whose normalised names coincide on a coerced column.
- The HTTP calls of the fixtures and results pages are not modelled. Their JSON is taken as a given list of matches, and an API error is not modelled.
- The selection boxes are not modelled. The chosen tournament, match and team are parameters.
- Float formatting and `.round(...)` are not modelled: rates are exact reals. The one exception is the older page's rounded overs, because its economy divides by them.
- The "Top 5" and "Top 10" truncations, the Analyst Insights text and the footer are not modelled.
- Only ASCII is handled. `\w`, `lower()` and `upper()` are modelled on ASCII only, while `\s` and `strip()` use Python's full Unicode whitespace set (`str.isspace`).
- `pd.to_numeric` is modelled on integers and integer text only. Float cells and text such as "4.0" or "+3" coerce to 0 in the model, where `pd.to_numeric` would read them. Text that `pd.to_numeric` reads as infinite, such as "inf" or "Infinity", survives `.fillna(0)` and makes `.astype(int)` raise, so the page shows "Failed to read Excel" (v2/app/U19_Analytics.py lines 134 and 164-167). The model reads such text as 0 and goes on to a report.
- Tables.ActionTableFacts: the order of actions with equal runs is left to pandas' sort and is unspecified. The model keeps them in name order and states only the runs order. The older page's single-key sorts are treated the same way.
- Legacy.OldAnalytics: two headers that become equal after `strip().lower()` make the group-bys raise, and the `except` at line 83 then shows only an error. The model does not detect such duplicates and shows both tables.
- Analytics.Analyze: when `player_dismissed` or `batsman_runs` is absent, the page has already drawn what came before the `KeyError` (the KPI metrics, when only `batsman_runs` is absent). The model returns only the failure, not that partial output.
- Sheet.Frame.Prepare: with two columns of the same coerced name, pandas raises. `Analyze` reports that as `ReadFailed`, while the frame method converts only the first such column.
- Column-by-column assembly of each table is not modelled. `bat["SR"] = ...` and similar writes are folded into one record per line.
- The older page's empty cells are treated as empty `Option`s. A non-integer value in a runs column is not modelled.
- `v2/app/Live.py` and the scorecard pages are not part of this model. They only project API records into display rows.
