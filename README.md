# CGSAR_RL core, modelled in Dafny

CGSAR_RL is a search-and-rescue drift planning project. Its code contains
a set of small, deterministic components around a drift engine that is only
sketched. This project models those components and proves what they promise.
It has one Dafny module per source file:

- `AppConfig` (config.dfy): the dotted-key configuration store
  (`application/config.py`). The JSON document is a tree of sections and
  leaves, and keys such as `a.b.c` address entries in it. `Config` is a class
  over that tree. Its walk is a loop proved against a reference reading of
  the tree, and get, set and remove are proved against it.
- `LogViewer` (logview.dfy): the log viewer's row logic (`application/logview.py`):
  - which files and lines `load_logs` reads;
  - the global search and the per-column comma-token filters of `filter_table`;
  - the stable column sort of `sort_by`;
  - the projection onto the seven fixed columns.
- `DriftEnvironment` (environment.dfy) and `GeoBounds` (geo_bounds.dfy): the
  simulation environment (`simulation/Environment.py`):
  - the choice of window margin;
  - the lat/lon bounds rectangle;
  - date replacement in `Update`;
  - the bounds guard in front of `Query`.
- `LocalGebco` (local_gebco.dfy): the GEBCO test tool (`tests/LocalGebco.py`):
  - the grounding test;
  - the safety-line painter over a pixel surface;
  - the water/land surface.
- `ObstacleWorld` (obstacles.dfy): the obstacle grid (`simulation/environment.py`).
- `ArchiveEnvironment` (archive_environment.dfy) and `ArchiveShip` (ship.dfy):
  the archived coastline environment and ship.
- `JsonLogging` (logger.dfy): the JSON record formatter and the two handler
  filters (`application/logger.py`).
- `Wrappers` and `Text` hold shared helpers:
  - `Option`, `Result` and `Outcome`;
  - Python's `split`, `strip` and `lower`;
  - substring search;
  - string order.

Things the code receives from outside become parameters:
- the loaded configuration tree;
- `int()` and `float()` on strings;
- `json.loads` on a log line;
- the cosine of the centre latitude;
- the random start date;
- the data fetchers;
- scipy's interpolators;
- the directory listing with each file's lines;
- the coastlines fetched over the network.

Python floats are modelled as Dafny `real`.

`Environment.Update` only re-fetches the datasets. The interpolators built
at construction stay in use afterwards, so the model keeps them as constant
fields (`DriftEnvironment.Environment.Update`).

## Model

| member | source | states |
|---|---|---|
| AppConfig.Config.NavigateToKey | application/config.py:39-55 | The walk loop over all but the last segment ends at the reference walk `WalkTo`: the section reached, `None` for a missing segment, or a non-dictionary value. |
| AppConfig.Config.GetValue | application/config.py:57-67 | Returns the stored value exactly when the reference reading `At` finds one under the dotted key. It fails with `InvalidSetting` when nothing is stored there, and with `NotASection` when the path runs through a leaf. It never returns a default. |
| AppConfig.LookupMeansAt | application/config.py:63-67 | `get_value` succeeds iff every intermediate segment names a section and the last is present, and then returns that value. It fails with the non-section error iff the path runs through a leaf. |
| AppConfig.SingleSegmentAddressesRoot | application/config.py:48-55 | A key without dots reads, sets and removes directly in the root map. |
| AppConfig.Config.SetValue | application/config.py:69-80 | The new tree is `Put` of the old one. When the path runs through a leaf, set fails and the tree is unchanged. |
| AppConfig.PutFailsOnlyThroughLeaf | application/config.py:48-54 | `set_value` fails exactly when some proper prefix of the path reaches a non-section value. |
| AppConfig.PutThenAt | application/config.py:77-79 | After a successful set, reading the same key returns the value just stored. |
| AppConfig.PutMakesSections | application/config.py:48-54 | After a set, every intermediate prefix is a section. One that was missing before holds exactly the next segment. |
| AppConfig.PutKeepsOthers | application/config.py:77-79 | A set leaves the value under every path that diverges from the set path unchanged. |
| AppConfig.PutKeys | application/config.py:79 | A set adds at most the first segment to the root's keys. |
| AppConfig.PutIdempotent | application/config.py:79 | Setting the same key to the same value twice equals setting it once. |
| AppConfig.PutOverwrites | application/config.py:79 | Setting a key twice equals setting it only to the second value. |
| AppConfig.Config.RemoveKey | application/config.py:82-92 | The new tree is `Remove` of the old one. It is unchanged when the path runs through a leaf. |
| AppConfig.Config.RemoveSection | application/config.py:94-104 | Behaves exactly as `RemoveKey`. |
| AppConfig.RemoveFailsOnlyThroughLeaf | application/config.py:88-91 | Remove fails exactly when the path runs through a non-section value. |
| AppConfig.RemoveThenAt | application/config.py:90-91 | After a remove, nothing is stored under the removed key. |
| AppConfig.RemoveThenLookup | application/config.py:88-91 | After a remove, `get_value` of the same key raises `InvalidSetting`. |
| AppConfig.RemoveAbsentIsNoop | application/config.py:88-92 | Removing an absent key that does not run through a leaf leaves the tree unchanged. |
| AppConfig.RemoveKeepsOthers | application/config.py:88-92 | A remove leaves every path that diverges from the removed one unchanged. |
| AppConfig.RemoveKeepsParents | application/config.py:88-92 | A remove deletes exactly the last segment from its parent. Every existing section on the path stays a section with the same keys. The parent keeps all its other entries, even when it is left empty. |
| AppConfig.Config.constructor | application/config.py:5-13 | The configuration holds exactly the tree that loading produced. |
| AppConfig.RemoveKeepsLeafFreedom | application/config.py:88-92 | A successful remove creates no leaf on the removed path. |
| AppConfig.RemoveFollowsWalk | application/config.py:89-91 | Remove fails iff the walk hits a leaf. It is a no-op when the walk finds the section missing, or finds the last segment absent. |
| LogViewer.Row | application/logview.py:89-93 | A table row has exactly one value per fixed column, in column order. It holds the entry's value, or "" where the entry lacks the key. |
| LogViewer.Rows | application/logview.py:91-93 | There is one row per entry, in entry order. |
| LogViewer.Logview.constructor | application/logview.py:6-38 | A new viewer has no logs, no filtered logs, no column filters, an empty search box and an empty table. |
| LogViewer.Logview.PopulateTable | application/logview.py:89-93 | The table shows exactly `Rows` of the given entries. |
| LogViewer.IsLogFileName | application/logview.py:49-51 | The file-name test. `LogFileNameMatchesPattern` ties it to the regular expression. |
| LogViewer.LogFileNameMatchesPattern | application/logview.py:49-51 | The file-name test accepts a name iff it ends in `.log`, or in `.log.` followed by a run of digits. |
| LogViewer.TrailingDigits | application/logview.py:49 | The length of the digit run that closes a name: all digits, and preceded by a non-digit or the start. |
| LogViewer.ReadLines | application/logview.py:54-62 | The line loop yields `ParsedLines`: every stripped, non-blank line that parses, in order. |
| LogViewer.ParsedLinesExactly | application/logview.py:55-62 | An entry is read from a file iff some line of it, stripped, is non-blank and parses to that entry. |
| LogViewer.CollectEntries | application/logview.py:50-62 | The file loop yields `Collected`: the entries of the matching files, in listing order. |
| LogViewer.CollectedExactly | application/logview.py:50-62 | An entry is loaded iff some listed file with a matching name yields it. |
| LogViewer.Logview.LoadLogs | application/logview.py:46-66 | `logs` becomes the collected entries. The column filters are reset to empty. `filtered_logs` is a copy of `logs`, and the table shows it. |
| LogViewer.Selected | application/logview.py:104-121 | Every kept entry comes from `logs` and passes both the global query and every column filter. |
| LogViewer.SelectedExactly | application/logview.py:106-120 | The selection keeps each passing entry as often as it occurs in `logs`, and no other entry. Selecting from a concatenation is concatenating the selections, so order is kept. |
| LogViewer.SelectEntries | application/logview.py:106-120 | The filter loop, with `continue` and `break`, computes exactly `Selected`. |
| LogViewer.CheckFilters | application/logview.py:110-117 | The per-column loop with early `break` passes iff every non-empty column filter has a token occurring in the lower-cased field. |
| LogViewer.NoFiltersKeepAll | application/logview.py:107-112 | With an empty query and all column filters empty, every entry is kept in order. |
| LogViewer.TokensOf | application/logview.py:113 | No filter token is empty. |
| LogViewer.TokensOfPieces | application/logview.py:113 | The tokens are exactly the stripped, lower-cased, non-blank comma pieces of the filter. |
| LogViewer.BlankFilterRejects | application/logview.py:112-117 | A non-empty filter made only of commas and whitespace yields no tokens and rejects every entry. |
| LogViewer.Logview.FilterTable | application/logview.py:104-121 | `filtered_logs` becomes the selection from `logs`, under the lower-cased search text and the column filters. The table shows it. |
| LogViewer.Logview.Search | application/logview.py:104-105 | Typing into the search box stores the text and re-filters. |
| LogViewer.Logview.SetFilter | application/logview.py:144-150 | A cancelled dialog changes nothing. An answer is stored stripped under the column, and the table is re-filtered. |
| LogViewer.Logview.ClearFilter | application/logview.py:152-155 | An existing filter becomes "" and is not deleted, then the table is re-filtered. A column without a filter changes nothing. |
| LogViewer.ClearedFilterIgnored | application/logview.py:152-155 | An emptied column filter selects exactly as if the column had no filter. |
| LogViewer.PrecedesTransitive | application/logview.py:97 | The sort order on `entry.get(col, "")` is transitive in both directions. |
| LogViewer.PrecedesIrreflexive | application/logview.py:97 | Entries with equal keys never have to be reordered. |
| LogViewer.InsertionPoint | application/logview.py:97 | The insertion point is after every entry the new one need not precede, and before the first one it must precede. |
| LogViewer.StableSortCorrect | application/logview.py:97 | The sorted list is ordered by the column value (missing = ""), ascending or descending. It is a permutation of the input. For each key, the entries with that key keep their original relative order (stability, also under `reverse=True`). |
| LogViewer.SortEntries | application/logview.py:97 | The insertion-sort loop computes `StableSorted`. |
| LogViewer.Logview.SortBy | application/logview.py:95-100 | `filtered_logs` becomes its stable sort by the column, and the table shows it. |
| LogViewer.FilterConcat | application/logview.py:106-119 | Appending-while-testing distributes over concatenation. |
| LogViewer.FilterCount | application/logview.py:106-119 | Appending-while-testing keeps each passing element's multiplicity and drops the rest. |
| DriftEnvironment.ChooseMargin | simulation/Environment.py:39 | A non-zero margin argument is kept. Zero reads the configured default window margin as an int. That fails when the setting is missing or not an integer. |
| DriftEnvironment.CalculateBounds | simulation/Environment.py:50-78 | It succeeds iff the degrees-per-mile setting exists, is non-empty and parses to a non-zero number. The result is then `lat ± m/f`, `lon ± m/(f·cos lat)`. A missing key fails inside `get_value`, and an empty value fails as missing. |
| GeoBounds.Around | simulation/Environment.py:69-78 | The rectangle is symmetric about the centre. Its height times f, and its width times f·cos lat, are both twice the margin. |
| GeoBounds.CentreInside | simulation/Environment.py:69-75 | For m, f > 0 and 0 < cos lat ≤ 1, the centre lies strictly inside. The longitude span is at least the latitude span. |
| GeoBounds.GrowsWithMargin | simulation/Environment.py:69-75 | A larger margin gives bounds strictly wider on every side. |
| DriftEnvironment.Environment.Create | simulation/Environment.py:26-48 | Construction fails with the margin error or the bounds error. On success it stores the chosen margin, the computed bounds and the given or random date. It fetches once for those bounds and date, and builds the wind and current interpolators from that fetch. |
| DriftEnvironment.Environment.Update | simulation/Environment.py:138-147 | The date is replaced only when one is given. The datasets are re-fetched for the bounds and that date. |
| DriftEnvironment.Environment.Query | simulation/Environment.py:149-165 | It succeeds iff the point lies in the closed rectangle, edges included. Otherwise it reports `OutOfBounds` without consulting an interpolator. A result has exactly the keys `net_wind` and `net_current`. |
| DriftEnvironment.CentreAndCornersQueryable | simulation/Environment.py:157-165 | With a positive margin and factor, queries succeed at the centre and at all four corners of the bounds. |
| LocalGebco.CheckCollision | tests/LocalGebco.py:43-55 | As written: grounded iff 0 ≤ x < columns, 0 < y < rows and elevation ≥ −draft. Out-of-range indices give False without indexing. |
| LocalGebco.RowZeroMissed | tests/LocalGebco.py:52 | A dry cell in row 0 is reported by the corrected check but missed by the check as written. |
| LocalGebco.CheckGrounding | tests/LocalGebco.py:43-55 | Corrected: grounded iff the cell is inside the grid, row 0 included, and elevation ≥ −draft. |
| LocalGebco.ChecksAgreeOffRowZero | tests/LocalGebco.py:52-55 | Off row 0, the check as written and the corrected check agree. |
| LocalGebco.GroundingMonotone | tests/LocalGebco.py:52-54 | For both the check as written and the corrected one, grounded at draft d implies grounded at every d' ≥ d. |
| LocalGebco.HasWetNeighbour | tests/LocalGebco.py:69-77 | The neighbour loop with `break` finds a neighbour iff one of the four neighbours inside the surface is deeper than the draft. |
| LocalGebco.DrawNavDraft | tests/LocalGebco.py:57-77 | Paints exactly the pixels that are dry and have a wet in-surface 4-neighbour. Every other pixel is left as it was. The elevation grid must cover the surface. |
| LocalGebco.CreateSurface | tests/LocalGebco.py:90-107 | A new surface of the transposed shape. A pixel is water iff its transposed elevation is ≤ 0, and land otherwise. |
| ObstacleWorld.Environment.constructor | simulation/environment.py:7-11 | A new environment has the given size and no obstacles, so no cell collides. |
| ObstacleWorld.Environment.IsCollision | simulation/environment.py:17-19 | Collision is exact equality with some recorded obstacle. It reads nothing but the obstacle list. |
| ObstacleWorld.Environment.AddObstacle | simulation/environment.py:13-15 | Appends (x, y) at the end, keeping duplicates. Afterwards (x, y) collides, and the colliding cells are the old ones plus (x, y). |
| ObstacleWorld.AppendAddsCell | simulation/environment.py:13-19 | Appending an obstacle adds exactly its cell to the colliding cells. |
| ArchiveEnvironment.CalculateBounds | ARCHIVE-simulation/environment.py:27-39 | Symmetric about the centre: `lat ± margin/69` and `lon ± margin/(69·cos lat)`. |
| ArchiveEnvironment.CentreInsideArchiveBounds | ARCHIVE-simulation/environment.py:32-38 | With a positive margin the centre is strictly inside, and a larger margin widens every side. |
| ArchiveEnvironment.Environment.constructor | ARCHIVE-simulation/environment.py:9-25 | Stores the size and margin (default 5) and the coastlines, and computes the bounds from the margin. |
| ArchiveEnvironment.Environment.IsCollision | ARCHIVE-simulation/environment.py:48-54 | The nested loop with early return is true iff some coastline point is strictly less than 5 units away on both axes. With no points it is false. |
| ArchiveEnvironment.FiveUnitsIsClear | ARCHIVE-simulation/environment.py:52 | A point exactly 5 units away on either axis is not a collision. |
| ArchiveShip.Turned | ARCHIVE-simulation/ship.py:28 | The new heading lies in [0, 360) and is congruent to heading + angle modulo 360. |
| ArchiveShip.TurnedUnique | ARCHIVE-simulation/ship.py:28 | That heading is the only value in [0, 360) congruent to heading + angle. |
| ArchiveShip.TurnUndo | ARCHIVE-simulation/ship.py:28 | `turn(a)` then `turn(-a)` restores a normalised heading. |
| ArchiveShip.TurnCompose | ARCHIVE-simulation/ship.py:28 | Turning by a then b equals turning by a + b. |
| ArchiveShip.Ship.constructor | ARCHIVE-simulation/ship.py:9-14 | Stores position, heading (unnormalised) and speed, with defaults 0. |
| ArchiveShip.Ship.Turn | ARCHIVE-simulation/ship.py:26-28 | The heading becomes the normalised sum, within [0, 360). Nothing else changes. |
| ArchiveShip.Ship.SetSpeed | ARCHIVE-simulation/ship.py:30-32 | The speed becomes the argument. Nothing else changes. |
| JsonLogging.Format | application/logger.py:9-18 | The record always has the four fixed keys with the record's values, the timestamp suffixed with "Z". For a dict message, exactly its whitelisted keys are added, with their values unchanged. |
| JsonLogging.PlainMessageOnlyFixed | application/logger.py:16-57 | A non-dict message adds nothing beyond the fixed keys and is rejected by both handlers. |
| JsonLogging.FileRecordsCarryEvent | application/logger.py:17-51 | Every record the file handler accepts is written with its `event` value. |
| JsonLogging.FileAccepts | application/logger.py:51 | The file handler accepts a record iff its message is a dictionary with an `event` key. |
| JsonLogging.ConsoleAccepts | application/logger.py:57 | The console handler accepts a record iff its message is a dictionary with a `message` key. |
| JsonLogging.MessageNeverFormatted | application/logger.py:17-57 | The `message` key the console handler filters on never reaches the JSON record. |
| Text.JoinSplit | application/config.py:63 | Joining the pieces of `split` with the separator gives back the string. |
| Text.SplitJoin | application/config.py:63 | Splitting a join of separator-free pieces gives back the pieces. |
| Text.StripEnds | application/logview.py:113 | The result of `strip()` starts and ends with non-whitespace. It is empty iff the input is all whitespace. |
| Text.Lower | application/logview.py:114 | Lower-casing preserves the length and maps each character on its own. |
| Text.LessTransitive | application/logview.py:97 | String order is transitive. |
| Text.LessTotal | application/logview.py:97 | Any two different strings are ordered. |

## Left out

- File I/O: `Config.load_config` and `save_config`, the directory listing and file reads of `load_logs`, and the rotating file handler setup are left out. Each save is an unobservable side effect of the modelled update.
- AppConfig.Config.GetValue: returns the stored tree value rather than its `str()` rendering. `str()` of a number or a nested dictionary is not modelled.
- AppConfig: a path through a value that is not a dictionary gives one error, `NotASection`, and leaves the tree unchanged. The kind of that value (null, number, boolean, string, list) is not modelled. Python also leaves the tree unchanged, but what it reports depends on the value:
  - a falsy final parent (`None`, `0`, `""`, `False`, `[]`) stops the `if data and …` tests at application/config.py:65, 90 and 102, so `get_value` raises ValueError (`InvalidSetting` here) and `remove_key` and `remove_section` silently do nothing;
  - a string or list that does not contain the next segment (`in` tests substrings or members) also makes `get_value` raise ValueError and the removals do nothing;
  - `set_value` with a `None` final parent silently does nothing (`if data is not None`, application/config.py:78);
  - every other case raises TypeError.
- LogViewer: entries have string values only. `json.loads` lines that give non-dictionaries, and sort errors between mixed value types (caught and printed by `sort_by`), are left out.
- LogViewer: lower-casing is ASCII only, and `\d` is an ASCII digit. Unicode case mapping and Unicode digits are left out. The file-name test matches at the very end of the name; the regular expression's `$` also matching before a final newline is left out.
- LogViewer: the table widget, its headings, column set-up, the right-click menu and the sort-order toggle are Tk plumbing and are left out. The sort is specified by its result, not by timsort's steps.
- JsonLogging: `json.dumps` key order and text, the `utcfromtimestamp` rendering, `MessageFormatter` and the handler levels are left out.
- DriftEnvironment: the random date (`_get_random_date`), the data fetchers, scipy's interpolation and `cos(radians(lat))` are parameters. The logging calls are left out.
- Float arithmetic is modelled on exact reals: no rounding, NaN or infinity.
- ArchiveEnvironment: `load_coastlines` (network fetch via `map_data`) is replaced by a constructor parameter.
- ArchiveShip: `update_position` (trigonometry on floats) is left out. The heading is modelled as an integer number of degrees.
- LocalGebco: `normalize_data`, the pygame display loops and the top-level rasterio reads are left out. A pygame surface is modelled as a 2-D array of colours.
- Simulation.py, Victim.py, Visualizer.py, the fetchers, wrapper.py and map_data.py are not part of this model: they are empty, float-only, rendering or network code.

## Findings

| source | as written | input that shows it | evidently intended | confidence | as-written member | corrected member |
|---|---|---|---|---|---|---|
| tests/LocalGebco.py:52 | the row guard is `0 < ship_y`, while the column guard is `0 <= ship_x` | a grid whose row 0 is dry at column x: `check_collision(x, 0, grid)` returns False | every in-grid cell is tested, `0 <= ship_y` | not executed | LocalGebco.CheckCollision, LocalGebco.RowZeroMissed | LocalGebco.CheckGrounding |
