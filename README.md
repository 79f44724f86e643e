# WGTCalc shot calculator core, in Dafny

WGTCalc is a small desktop calculator for the WGT golf game. It has two
pieces of logic:

- **Shot adjuster** (`ShotAdjuster.dfy`, `calculate_adjusted_shot`). It
  corrects a base carry distance for the elevation change to the target and
  for the wind. Each correction is scaled by the chosen club's sensitivity
  factors from the per-club factor table (`CLUB_FACTORS`). It returns the
  adjusted carry and the sideways drift.
- **Club selector** (`ClubSelector.dfy`, `suggest_club_and_percentage`). It
  sorts the club distance table (`CLUB_DISTANCES`) by full-swing carry
  ("baseline") and scans it from the shortest club upward. It recommends the
  first club whose baseline reaches the adjusted distance, together with the
  percentage of a full swing needed. When no club reaches, it recommends the
  longest club at over 100 percent.

Both are pure computations and are modelled as Dafny functions with lemmas.
Python floats are modelled as exact `real`s. The wind angle enters only through the
cosine and the sine of its radian value, which the model takes as inputs
`windCos` and `windSin`.

The two tables are modelled as follows:

- The factor table is a `map<string, Factors>`.
- The distance table is both a `map<string, real>`, for lookups, and a
  `seq<Entry>` of its items in the order the table is written, for the sort.
- Python's stable `sorted` is modelled by a stable insertion sort, `SortByBaseline`.
- The selector scans `ClubsByDistance`, the table in ascending order.
  `SortedTable` proves that this list is exactly what the sort produces from
  the table's items.

A club missing from the factor table is a `KeyError` in the source. The model
returns the explicit outcome `UnknownClub`, never a default.

On the selector's lookahead (main.py:56-59): the branch reads as a move up
one club when the percentage exceeds 100. It only runs after
`distance <= baseline` has held, and with positive baselines the percentage
is then at most 100, so it never fires. The model keeps the branch as
written, and `ScanChoosesFirstReaching` proves that it is never taken. A
percentage over 100 comes only from the fallback to the longest club.

## Model

| member | source | states |
|---|---|---|
| ShotAdjuster.CalculateAdjustedShot | main.py:75-110 | An adjusted shot is produced exactly when the club is in the factor table; otherwise the result is the error `UnknownClub` naming that club |
| ShotAdjuster.FactorsAreFractions | main.py:6-22 | Every elevation and wind factor in the table lies strictly between 0 and 1 |
| ShotAdjuster.CalmFlatShotIsUnchanged | main.py:94-110 | With no elevation change and no wind, every known club gives back the base distance with zero drift, whatever the angle |
| ShotAdjuster.CorrectionsSuperpose | main.py:90-108 | The carry is the base distance plus the elevation-only correction plus the wind-only correction; the drift depends on the wind alone |
| ShotAdjuster.CorrectionsScale | main.py:90-108 | Scaling elevation and wind speed by k scales both corrections by k (both are linear in the inputs) |
| ShotAdjuster.ElevationCorrectionIsBounded | main.py:93-94 | Uphill adds carry and downhill removes it, always by less than the elevation in yards (0.33 per foot) |
| ShotAdjuster.WindCorrectionSigns | main.py:96-108 | A tailwind component lengthens the shot and a headwind shortens it; the drift has the sign of the crosswind component |
| ShotAdjuster.WindDisplacementIsRotationInvariant | main.py:96-108 | For a genuine direction (cos² + sin² = 1), the squared wind displacement is (speed·wind factor)², whatever the angle, and so less than the speed squared |
| ShotAdjuster.DriverTailwindExample | main.py:75-110 | Driver, 100 yards, 10 mph straight tailwind gives 100.8 yards and no drift |
| ShotAdjuster.DriverCrosswindExample | main.py:75-110 | Driver, 100 yards, 10 mph pure crosswind gives 100 yards and 0.8 yards of drift |
| ShotAdjuster.SevenIronUphillExample | main.py:90-104 | 7-Iron, 150 yards, 30 feet uphill gives 154.752 yards |
| ShotAdjuster.UnknownClubExample | main.py:90-91 | A club not in the factor table ("Putter") is reported as unknown |
| ClubSelector.SuggestClubAndPercentage | main.py:23-63 | The recommended club is always a key of the distance table, and the percentage is the distance over that club's baseline times 100 |
| ClubSelector.ScanFrom | main.py:53-63 | The scan returns one of the scanned clubs, with the distance as a percentage of that club's baseline |
| ShotAdjuster.ClubFactors | main.py:6-22 | The per-club factor table: the fifteen clubs with their elevation and wind factors, value for value |
| ClubSelector.ClubDistances | main.py:34-48 | The distance table as a lookup: the thirteen clubs with their full-swing carries in yards |
| ClubSelector.ClubDistanceItems | main.py:34-48 | The same table's items, in the order the table is written (the order `items()` yields them) |
| ClubSelector.InsertByBaseline | main.py:51 | Inserts an item ahead of the first item whose baseline is not smaller (so it stays ahead of equal items); the result is one item longer |
| ClubSelector.SortByBaseline | main.py:51 | The sort of the items by baseline, as an insertion sort that puts each item ahead of later items with an equal baseline; the result has the input's length (order and permutation: `SortSorts`) |
| ClubSelector.EqualBaselinesKeepOrder | main.py:51 | Any two items with equal baselines come out in the order they went in |
| ClubSelector.InsertKeepsOrder | main.py:51 | Inserting into an ascending list keeps it ascending and adds exactly the inserted item |
| ClubSelector.SortSorts | main.py:51 | The sort's result is ascending by baseline and is a permutation of its input |
| ClubSelector.SortedTable | main.py:34-51 | Sorting the table's items by baseline gives exactly `ClubsByDistance`: Lob Wedge, ..., 4-Iron, Hybrid, 3-Iron, 3-Wood, Driver |
| ClubSelector.ClubsByDistanceOrdersTable | main.py:34-51 | The scanned order holds exactly the table's items and strictly ascends by baseline |
| ClubSelector.SortedTablePositive | main.py:34-51 | The scanned order has thirteen clubs, all with positive baselines |
| ClubSelector.SortedTableAscends | main.py:34-51 | The scanned order's baselines strictly increase |
| ClubSelector.SortedTableEntries | main.py:34-51 | Every club of the scanned order is in the table with its baseline, from the Lob Wedge (80) up to the Driver (280) |
| ClubSelector.SortedClubIndex | main.py:34-51 | Every club of the table has a place in the scanned order |
| ClubSelector.ItemsAreEntries | main.py:34-48 | Each of the table's thirteen items is a key of the table with its baseline |
| ClubSelector.EntriesAreItems | main.py:34-48 | Every key of the table, with its baseline, is one of the table's items |
| ClubSelector.TableExtremes | main.py:34-48 | All baselines lie between 80 and 280; only the Lob Wedge has 80 and only the Driver has 280 |
| ClubSelector.DescendingSortsToReversed | main.py:51 | Items given in strictly descending order are sorted into their reverse |
| ClubSelector.SortOfTable | main.py:34-51 | Any list in the table's shape (longest first, but with the Hybrid ahead of the 3-Iron) sorts into ascending order |
| ClubSelector.ScanChoosesFirstReaching | main.py:53-60 | When some club from the scan position on reaches the distance, the scan returns the first club that reaches it, at a percentage of at most 100: the lookahead never fires |
| ClubSelector.ScanPicksShortestReaching | main.py:51-60 | On any ascending table whose longest club reaches the distance, the scan returns a club that reaches it with the smallest baseline of all clubs that do |
| ClubSelector.ScanFallsBackToLast | main.py:53-63 | When no remaining club reaches the distance, the scan returns the last club (the longest on an ascending table) |
| ClubSelector.ScanReturnsEntry | main.py:53-63 | Scanning the items of a table returns one of its keys, with the distance over that key's baseline times 100 |
| ClubSelector.ShortestClubThatReaches | main.py:51-60 | Up to 280 yards the recommended club reaches the distance and has the smallest baseline among all clubs that do; its percentage is at most 100 |
| ClubSelector.NonPositiveDistanceUsesLobWedge | main.py:54-60 | A distance of zero or less gets the Lob Wedge at zero percent or less |
| ClubSelector.BeyondLongestUsesDriver | main.py:62-63 | Beyond 280 yards the result is the Driver at distance/280·100, which is over 100 percent |
| ClubSelector.LongerDistanceNeverShorterClub | main.py:51-63 | A longer distance never gets a club with a shorter baseline |
| ClubSelector.SuggestedClubHasFactors | main.py:6-22 | Every recommended club has an entry in the factor table, so its shot can be adjusted |
| ClubSelector.LobWedgeFullSwingExample | main.py:47-60 | 80 yards gives exactly the Lob Wedge at 100 percent |
| ClubSelector.ZeroDistanceExample | main.py:47-60 | 0 yards gives the Lob Wedge at 0 percent |
| ClubSelector.HybridBeforeThreeIronExample | main.py:37-60 | 226 yards is past the Hybrid (225), so it gives the 3-Iron (228) at 226/228 of a full swing |
| ClubSelector.BeyondDriverExample | main.py:62-63 | 300 yards gives the Driver at 300/280·100 percent (about 107.14) |

## Left out

- The tkinter interface (`clear_fields`, widget construction, the main loop; main.py:65-73, 137-176): presentation and widget state only.
- `calculate_and_display` (main.py:113-135): parsing input text into floats, catching `ValueError` and formatting the result label are input/output glue around the two modelled functions.
- `math.radians`, `math.cos` and `math.sin`: the model takes the cosine and the sine of the wind angle as inputs. So it does not prove that they come from one angle, except where a lemma requires cos² + sin² = 1.
- Floating point: all arithmetic is exact over `real`, so IEEE-754 rounding, NaN and infinities are not modelled. The worked values (100.8, 154.752) are exact, not the printed float results.
- ClubSelector.SortByBaseline: its own contract states only the length; that the result is ascending and a permutation is `SortSorts`. Stability is not proved for every input, only for two-item inputs (`EqualBaselinesKeepOrder`). It does not affect the distance table, whose thirteen baselines are distinct (`ClubsByDistanceOrdersTable`: strictly ascending).
- ClubSelector.SuggestClubAndPercentage: scans the pre-sorted constant `ClubsByDistance` rather than sorting on every call. `SortedTable` proves the two orders are the same list.
- The 5-Wood and the Gap Wedge have factors but no distance-table entry, so the selector never recommends them. This is the source's behaviour, not something the model changes.
