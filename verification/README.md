# Play-history filter and aggregation engine

This is a Dafny model of the engine behind the board-game play-history page in `docs/app.js`. The page loads one exported dataset of plays, players, games and locations. The engine then does four things:

- It resolves each play's duration in minutes from an ordered list of optional fields. When no field yields a number the duration is *unknown*, which is different from zero.
- It selects the plays matching a filter record. The filter has a year, inclusive minute bounds, a location selection with an OR/AND combinator and a player selection with an OR/AND combinator.
- It folds the selected plays into one of three tables: plays (`renderPartidas`), players (`renderJogadores`) or games (`renderJogos`).
- It resolves display names through id indexes. A missing record falls back to `Player <id>`, `Game <id>` or the raw location id.

Modules, leaves first:

| file | module | models |
|---|---|---|
| wrappers.dfy | `Wrappers` | `Option`, standing for JavaScript's `null`/`undefined` |
| seqs.dfy | `Seqs` | order-preserving selection (`filter`), duplicate-freedom, sums over key lists |
| model.dfy | `Model` | plays, participant scores, dataset records |
| index.dfy | `Index` | `indexById`, name lookup with synthesized fallbacks, the load-time tables |
| duration.dfy | `Duration` | `durationMin` |
| filters.dfy | `Filters` | the predicate inside `applyFilters` and the selection it produces |
| playrows.dfy | `PlayRows` | the row mapping of `renderPartidas` |
| fractions.dfy | `Fractions` | hours, averages and winrates as exact ratios |
| playerrollup.dfy | `PlayerRollup` | the fold and rows of `renderJogadores` |
| gamerollup.dfy | `GameRollup` | the fold and rows of `renderJogos` |
| render.dfy | `Render` | `render()` dispatch and an end-to-end scenario |

Modelling choices:

- Both folds are left folds defined by recursion on the last element. An accumulator is a JavaScript `Map`, kept as an insertion-order key list plus a map, so table rows come out in first-seen order like `[...agg.values()]`.
- Each fold has a partner: a reference definition that computes, per player or per game, the same totals directly from the plays (`Appearances`, `WinsOf`, `MinutesOf`, `GamesOf`, `PlaysOf`, `PlayersOf`). Lemmas prove the fold equal to it.
- Player and game ids are integers. Location ids are strings, because the location filter compares `String(locationRefId ?? "")` with the option values.
- A play's year is given as a field: it is what `yearOf(playDate)` returns, the empty string when the date is missing or invalid.
- A duration field is absent (`undefined`), `null`, the empty string, a number, or something `Number()` turns into `NaN`. Numbers are integers, and `Math.round(v / 60)` on an integer is `(v + 30) / 60` with floor division.

This version of `docs/app.js` has no cooperative-game toggle, no score parser, no minimum-plays threshold, no top-performer selection, no game-by-player table and no "neutral" selection. The model has none of them either.

## Model

| member | source | states |
|---|---|---|
| Index.IndexByIdLastWins | docs/app.js:37-43 | the index holds exactly the ids some non-null record defines; on a duplicate id the last record in array order wins |
| Index.PlayerLabelFromArray | docs/app.js:235 | a player's label is the name of the last record with that id when that name is non-empty, otherwise `Player <id>`; a dangling reference never fails |
| Index.GameLabelFromArray | docs/app.js:231 | a play's game label is the name of the last game record with its id when non-empty, otherwise `Game <id>`, and `Game null` without a game reference |
| Index.LocationLabelFromArray | docs/app.js:232 | a play's location label is empty without a location reference, the name of the last location record with its id when non-empty, and otherwise the raw id |
| Index.Load | docs/app.js:451-459 | the three lookup tables contain exactly the ids defined in the players, games and locations arrays, and the plays are kept as loaded |
| Duration.DurationMin | docs/app.js:61-84 | the canonical field wins when it parses; otherwise the first parseable minute key in list order; otherwise the first parseable second key, rounded to minutes; the result is unknown exactly when none of the eleven fields parses |
| Duration.SecondsToMinutes | docs/app.js:79 | the result is the nearest whole minute to `v` seconds, an exact half rounding up |
| Duration.NinetySecondsIsTwoMinutes | docs/app.js:75-81 | a play with only `durationSec` = 90 resolves to 2 minutes |
| Duration.BlankCanonicalFallsThrough | docs/app.js:63-73 | a blank `durationMin` is skipped, and the first parseable minute key in list order wins over a later one |
| Duration.NegativeSecondsRoundUp | docs/app.js:75-81 | with a non-numeric `durationMin` and `lengthSeconds` = -90, the result is -1 minute: the half rounds up |
| Duration.NoFieldsIsUnknown | docs/app.js:83 | a play without any duration field has unknown duration, not 0 |
| Filters.YearOk | docs/app.js:182 | no year accepts every play; a set year accepts exactly the plays of that year |
| Filters.DurationOk | docs/app.js:185-187 | without bounds every play passes; with a bound set an unknown duration fails; a known duration passes iff it lies within the set bounds, both inclusive |
| Filters.LocationOk | docs/app.js:190-198 | an empty selection passes; OR passes iff the play's location id is selected; AND with two or more selected fails; AND with one selected passes iff it is the play's location |
| Filters.AnySelected | docs/app.js:203-208 | the early-exit loop finds a selected id iff some selected id is a participant |
| Filters.AllSelected | docs/app.js:209-213 | the early-exit loop succeeds iff every selected id is a participant |
| Filters.PlayersOk | docs/app.js:201-214 | an empty selection passes; OR passes iff some selected player took part; AND passes iff every selected player took part |
| Model.ParticipantIds | docs/app.js:202 | the participant id set holds exactly the ids of the entries, and is no larger than the entry list |
| Filters.Filtered | docs/app.js:180-217 | a play is selected iff it is among the plays and satisfies all four dimensions; the selection is no longer than the input |
| Filters.FilteredIsOrderedSelection | docs/app.js:180-217 | the selection is an order-preserving subsequence of the plays, taken at exactly the positions whose play satisfies the predicate |
| Filters.ApplyFilters | docs/app.js:180-217 | the loop returns the selection together with the positions it took, which increase strictly and are exactly the positions of matching plays |
| Filters.YearFilterSelectsYear | docs/app.js:182 | with a year set, every selected play is from that year |
| Filters.UnknownDurationOnlyPassesUnbounded | docs/app.js:185-187 | a play of unknown duration is selected only when neither bound is set |
| Filters.LocationAndOfSeveralSelectsNothing | docs/app.js:194-196 | location AND with two or more selected locations selects no play of any dataset |
| Filters.LocationAndOfOneIsOr | docs/app.js:190-198 | with exactly one selected location, AND and OR select the same plays |
| Filters.PlayerAndNarrowsOr | docs/app.js:201-214 | with a non-empty player selection, every play selected under AND is also selected under OR |
| Filters.ClearedCriteriaSelectsAll | docs/app.js:180-217 | with no year, no bounds and no selections, the selection is the whole play list |
| PlayRows.WinnersAreOrderedSelection | docs/app.js:237-238 | the winners are exactly the participants flagged `winner`, kept in participant order, so there are never more winners than participants |
| PlayRows.Labels | docs/app.js:234-236 | one label per participant, in participant order, each falling back to `Player <id>` |
| PlayRows.PlayRows | docs/app.js:228-241 | one row per selected play, in the same order; each row carries the play's year, game and location labels, resolved duration (unknown stays unknown), each participant's label in entry order, and the labels of the winners in entry order |
| PlayRows.PlayRowWinners | docs/app.js:237-238 | a row's winner labels are an order-preserving subsequence of its participant labels, taken at exactly the positions flagged `winner` |
| PlayerRollup.AggregateMatchesReference | docs/app.js:279-304 | a player has an entry iff they appear in a selected play; the entry's plays, wins, known minutes and distinct games equal the reference totals; the plays of all entries sum to the number of participant entries |
| PlayerRollup.AppendPlay | docs/app.js:281-303 | one more play adds one play per participant entry; a known duration is added in full per entry; an unknown duration adds no minutes, but the play still counts |
| PlayerRollup.PlayersTableOrder | docs/app.js:279-306 | one row per participant of the selected plays, without repeats, ordered by each player's first entry over the plays |
| PlayerRollup.PlayersTableRow | docs/app.js:306-313 | each row's label, plays, wins, distinct games, hours and winrate are those of the reference totals: entries, winning entries, games of those plays, known minutes / 60, and 100 x wins / plays |
| PlayerRollup.PlayersTableBounds | docs/app.js:306-313 | in every row, wins and distinct games are at most the plays, and the winrate is a percentage in [0, 100] |
| PlayerRollup.PlayersTableConservation | docs/app.js:285-299 | the plays of all rows add up to the participant entries of the selected plays, so every entry is counted exactly once |
| Fractions.WinrateOf | docs/app.js:312 | no plays gives the literal 0%; otherwise the percentage is 100 x wins / plays, and it lies in [0, 100] when wins do not exceed plays |
| Fractions.Hours | docs/app.js:310 | the total in hours is the minutes divided by 60 |
| GameRollup.AggregateMatchesReference | docs/app.js:336-360 | plays without a game reference are skipped; a game has an entry iff some selected play references it; the entry's plays, known minutes and distinct players equal the reference totals; the plays of all entries sum to the plays with a game reference |
| GameRollup.DistinctPlayersAtMostEntries | docs/app.js:357-359 | a game's distinct players never exceed the player references seen in its plays |
| GameRollup.AverageMinutes | docs/app.js:366 | the average is 0 for a game without plays, and otherwise the summed minutes over the play count |
| GameRollup.GamesTableOrder | docs/app.js:336-362 | one row per game referenced by a selected play, without repeats, ordered by each game's first appearance among the plays |
| GameRollup.GamesTableRow | docs/app.js:362-368 | each row counts that game's plays; its distinct players are the participants of those plays, never more than the player references; its hours are their known minutes / 60; its average is those minutes over all of its plays |
| GameRollup.GamesTableConservation | docs/app.js:338-352 | the plays of all rows add up to the number of selected plays that carry a game reference |
| Render.ViewOf | docs/app.js:389-391 | `jogadores` selects the players table, `jogos` the games table, and anything else the plays table |
| Render.RenderView | docs/app.js:387-392 | the plays view has one row per selected play; the players view counts every participant entry of the selection once; the games view counts every selected play with a game reference once |
| Render.ScenarioSelection | docs/app.js:182 | filtering by year 2025 keeps the single 2025 play |
| Render.ScenarioRollup | docs/app.js:279-304 | that play gives player 2 one play, one win, game 10 and 45 minutes, and player 3 the same without the win, player 2 listed first |
| Render.YearScenario | docs/app.js:306-313 | the players table for that selection is player 2 with 100% (100/1) and 45/60 h, then player 3 with 0.0% (0/1), not the literal `0%` of a player without plays |

## Left out

- DOM reading and writing (`el`, `getMode`, `setRadio`, `setMultiSelect`, `setActiveTab`, `applyDefaultsToUI`, `wireUI`, `buildFilterOptions`) is page wiring. Its result is modelled as the `Criteria` record, already `|| null`-normalised, with selections in option order.
- The status line `Filtrado: n / m` is display text only.
- The DataTables construction, `destroyTable` and the column and sort settings belong to a foreign rendering library.
- `init` and the fetch/JSON load are network I/O. `Index.Load` models only the tables it builds.
- `yearOf` and `toISOish` depend on JavaScript's `Date` parser and the local time zone. The year is a field of the play, and the `data` column that `toISOish` produces is not part of `PlayRow`.
- `Number()` coercion is abstracted into `FieldValue`. The same goes for fractional, `Infinity` and `NaN` durations and minute bounds: durations and bounds are integers.
- Duration.SecondsToMinutes: rounds integer seconds only, because fractional field values are not modelled.
- Fractions.WinrateOf: gives the exact ratio, not the one-decimal `toFixed(1)` string.
- Fractions.Hours: gives the exact ratio, not the one-decimal `toFixed(1)` string.
- GameRollup.AverageMinutes: gives the exact ratio, not the `toFixed(0)` rounding.
- The `", "` join of the player and winner labels is display formatting. Rows keep the label lists.
- `localeCompare` sorting of the option lists is locale-dependent UI ordering.
- A `null` or missing `playerRefId` is not modelled, because participant ids are integers. So the `!= null` guard in `renderJogos` always holds here.
- A record whose `id` is `null` is not modelled; an absent `id` is.
- A missing `gameRefId` is always labelled `Game null`. The page prints `Game undefined` when the key is absent rather than `null`.
- Mixed number/string ids are not modelled. Ids have one type per entity, so the `String(...)` conversions in the distinct-game and distinct-player sets do not merge distinct ids.
