# POTAScan spot pipeline and scan cursor, in Dafny

POTAScan polls the Parks on the Air spot service, lists the stations that
are on the air, and lets the operator step a highlight through the list
with a Scan button. This project models the parts of it that hold logic.

- **`PotaSpotController`** (pota.py) holds the current snapshot of spots.
  - `refresh` sorts the fetched records by `spotId` (a stable sort). It then
    walks them once, keeping the first record seen for each activator.
  - `getSpots(mode, band)` returns the stored records that pass an optional
    exact mode match and an optional inclusive kHz band range. The order is
    kept.
- **`MainAppFrame`** (main.py):
  - the table from band combo box labels to bands;
  - the redraw, which re-fetches only for the Reload tool and always asks
    for SSB spots of the selected band;
  - `nextSpot`, which moves the highlight to the next widget and wraps
    around at the end.

Files:

- `wrappers.dfy`: `Option`, `Result` and `Outcome`, used where the program
  raises.
- `spots.dfy`: the spot record, the `Mode` and `Band` tables, and the
  predicates on spot lists.
- `dedup.dfy`: the sort and the first-seen walk, with their lemmas.
- `spot_filter.dfy`: the `getSpots` filter, with its lemmas.
- `pota.dfy`: the `PotaSpotController` class.
- `main_frame.dfy`: the label table, the widgets, the scan cursor and the
  `MainAppFrame` class.

Two behaviours of the code are modelled as written, not as its comments
or a reader might expect:

- **Which record survives.** The comment at pota.py:59-60 says only the
  most recent spot of each station is wanted. The code sorts ascending and
  keeps the first occurrence, so it keeps the spot with the lowest `spotId`.
  When several spots share that `spotId`, the stable sort makes it the
  earliest of them in fetch order. `RetainedIsEarliestLowest`,
  `DedupKeepsOldest` and `OlderSpotWins` state this literal behaviour.
- **When a frequency is parsed.** A frequency is parsed only when a band is
  requested, and only for records that already passed the mode filter,
  because Python's `and` short-circuits. So an unparseable frequency fails
  `getSpots` only in that case, not on every query.

The redraw does not clear `current_spot` (see the "Stop Scan" TODO at
main.py:182). The widgets it builds are new objects. After a redraw during
a scan, `current_spot` is therefore not in the widget list, and the next
Scan press fails in `list.index`.

- The model keeps `current_spot` as an object reference, so this failure is
  modelled.
- On a non-empty widget list, `NextSpot` returns `Fail(CurrentNotInList)`
  exactly in that case and changes nothing. On an empty list it returns
  before `list.index` (main.py:199-200), as the program does.
- `OnSpotRedraw` and `SelectBand` promise that when the query succeeds, a
  scan in progress becomes `Stale`. When the query fails, the old widgets
  stay and the cursor is unchanged.
- `NextSpot` promises that a stale cursor is still stale after the press,
  so no number of further presses recovers the scan.

## Model

| member | source | states |
|---|---|---|
| `Spots.ModeValue` | pota.py:27-30 | the mode token of a `Mode` is "SSB" or "CW" |
| `Spots.ModeValueInjective` | pota.py:27-29 | the two modes have different tokens |
| `Spots.Limits` | pota.py:32-45 | each band's range has a positive lower limit strictly below its upper limit |
| `Spots.BandsDisjoint` | pota.py:37-45 | no frequency lies in two bands |
| `Spots.InBand` | pota.py:87-88 | the band lambda: a frequency is in a band when it lies between the band's two limits, both included |
| `Dedup.SortById` | pota.py:70 | the sort returns a permutation of the fetched records, in ascending `spotId` order |
| `Dedup.SortIsStable` | pota.py:70 | records with the same `spotId` keep their fetch order |
| `Dedup.SortOfSorted` | pota.py:70 | sorting a list already in `spotId` order returns it unchanged |
| `Dedup.KeepFirst` | pota.py:71-76 | the walk never returns more records than it was given |
| `Dedup.KeepFirstUnique` | pota.py:71-76 | no two kept records share an activator |
| `Dedup.KeepFirstActivators` | pota.py:73-76 | the kept records have exactly the walked list's set of activators |
| `Dedup.KeepFirstCount` | pota.py:73-76 | the walk keeps exactly one record per distinct activator |
| `Dedup.KeepFirstOfUnique` | pota.py:73-76 | a list without repeated activators comes back unchanged |
| `Dedup.KeepFirstIdempotent` | pota.py:73-76 | walking the walk's output again returns that output |
| `Dedup.KeepFirstSorted` | pota.py:70-76 | walking a `spotId`-ordered list keeps `spotId` order |
| `Dedup.KeepFirstIsSubsequence` | pota.py:73-76 | the kept records are the walked list with some records dropped, in the same order |
| `Dedup.KeepFirstRetainsFirst` | pota.py:73-76 | each kept record is the first record of its activator in the walked list |
| `Dedup.FirstLowest` | pota.py:69-70 | a reference definition: for an activator, the index of its record with the smallest `spotId`, the earliest one among equals; None exactly when the activator does not occur |
| `Dedup.SortFirstWith` | pota.py:70 | after the stable sort, an activator's first record is its `FirstLowest` record |
| `Dedup.RetainedIsEarliestLowest` | pota.py:59-76 | the record refresh keeps for an activator is that activator's fetched record with the smallest `spotId`, the earliest in fetch order among equals; it is not the most recent one the comment asks for |
| `Dedup.DedupKeepsOldest` | pota.py:59-76 | no fetched record of an activator has a lower `spotId` than the one kept |
| `Dedup.OlderSpotWins` | pota.py:59-76 | with K1ABC spotted as spotId 1 and again as spotId 5, refresh keeps spotId 1 and drops spotId 5 |
| `Dedup.Deduplicate` | pota.py:70-76 | the list `refresh` stores: the stable `spotId` sort followed by the first-per-activator walk; its meaning is stated by the lemmas in the rows around it |
| `Dedup.DeduplicateProperties` | pota.py:70-77 | the stored list has unique activators, is in `spotId` order, has the fetched set of activators, is a subsequence of the sorted fetch, and has one record per distinct activator and no more records than were fetched |
| `Dedup.DeduplicateIdempotent` | pota.py:70-77 | deduplicating the stored list again changes nothing |
| `SpotFilter.ModeAccepts` | pota.py:85-86 | the mode lambda: with no mode every record passes; otherwise the record's mode text must equal the mode's token |
| `SpotFilter.Accepts` | pota.py:85-90 | the two filters joined by Python's short-circuit `and`: a record the mode rejects is dropped without its frequency being looked at; with no band it is kept; otherwise an unparseable frequency is the query's error and a parsed one is kept when it is in the band |
| `SpotFilter.FilterSpots` | pota.py:85-90 | the filter fails exactly when some record that passes the mode filter has an unparseable frequency and a band is requested; otherwise every returned record passes both filters |
| `SpotFilter.FilterCounts` | pota.py:85-90 | every copy of an accepted record is returned, and no copy of a rejected one |
| `SpotFilter.FilterIsSubsequence` | pota.py:90 | the result keeps the stored order |
| `SpotFilter.FilterWithoutCriteria` | pota.py:85-90 | with no mode and no band, every stored record is returned in order |
| `SpotFilter.FilterWithoutBandSucceeds` | pota.py:87-88 | without a band filter no frequency is parsed, so the query cannot fail |
| `SpotFilter.BandLimitsInclusive` | pota.py:87-88 | a record of the requested mode whose frequency equals either band limit is returned |
| `Pota.PotaSpotController.constructor` | pota.py:50-51 | a new controller holds no spots |
| `Pota.PotaSpotController.Refresh` | pota.py:53-77 | the snapshot becomes the sorted, first-per-activator list of the fetched records: unique activators, `spotId` order, the fetched set of activators, no more records than fetched |
| `Pota.PotaSpotController.GetSpots` | pota.py:80-90 | the query reads the snapshot without changing it; it returns [] before any refresh, every stored record in order without criteria, and a subsequence of the snapshot otherwise |
| `MainFrame.BandLabels` | main.py:9-20 | the combo box label table: "ALL" maps to no band filter and each of the nine band labels to its band |
| `MainFrame.AllMeansNoBand` | main.py:9-20 | "ALL" is the one label that selects no band filter |
| `MainFrame.LabelSelectsBand` | main.py:11-19 | every band is selected by its own label |
| `MainFrame.OnlyLabelOfBand` | main.py:11-19 | no other label selects that band |
| `MainFrame.SpotWidget.constructor` | main.py:24-30 | a new widget shows the record's call, park and frequency and is not highlighted |
| `MainFrame.SpotWidget.MakeActive` | main.py:32-34 | the widget becomes highlighted |
| `MainFrame.SpotWidget.Reset` | main.py:36-37 | the widget stops being highlighted |
| `MainFrame.MakeWidgets` | main.py:187-188 | one new, distinct, unhighlighted widget per record, widget i showing record i |
| `MainFrame.IndexOf` | main.py:202 | `list.index`: the first position of the element, or None (ValueError) exactly when it is absent |
| `MainFrame.Advance` | main.py:199-213 | one Scan press on a non-empty list moves a running or idle scan to a valid index; a stale cursor stays stale |
| `MainFrame.AdvanceFrom` | main.py:201-203 | k presses from index i reach index (i + k) mod n |
| `MainFrame.ScanVisitsInOrder` | main.py:201-213 | starting idle, press k + 1 highlights widget k mod n, so every widget is visited in list order |
| `MainFrame.ScanReturnsAfterFullCycle` | main.py:201-203 | n presses return the highlight to where it started |
| `MainFrame.MainAppFrame.Shown` | main.py:184-188 | the query every redraw makes: SSB spots of the band the combo box's label selects, read from the controller's snapshot |
| `MainFrame.MainAppFrame.constructor` | main.py:88-95 | start-up refreshes with the fetched records, draws the SSB spots of band "ALL" (a query that cannot fail), and starts with no scan |
| `MainFrame.MainAppFrame.OnSpotRedraw` | main.py:178-192 | re-fetches only for the Reload tool; always queries SSB with the combo box's band; fails exactly when that query fails; on success shows one new unhighlighted widget per returned record, on a parse failure keeps the old widgets; never clears the current spot, so after a successful query a running scan becomes stale |
| `MainFrame.MainAppFrame.SelectBand` | main.py:175-192 | a band combo box change stores the new label and re-filters the snapshot without fetching; it fails exactly when the query fails and then keeps the old widgets; on success it shows one new unhighlighted widget per returned record; the current spot is not cleared, so after a successful query a running scan becomes stale |
| `MainFrame.MainAppFrame.NextSpot` | main.py:196-213 | on an empty list nothing changes; otherwise the cursor advances as `Advance` says (idle to 0, i to (i + 1) mod n), and only the new current widget is highlighted; a single widget stays current and highlighted; on a non-empty list the call fails and changes nothing exactly when the current widget is not in the list; a stale cursor stays stale after the press |
| `MainFrame.AtMostOneActive` | main.py:198-213 | a frame in a valid state highlights at most one widget |

## Left out

- The HTTP GET and the JSON decoding in `refresh` (pota.py:54-55) are network
  I/O. `Refresh` takes the decoded records as a parameter. Transport and
  decoding errors are therefore not modelled.
- `float(x['frequency'])` (pota.py:88) is not modelled as text parsing. The
  frequency arrives as an exact `real`, or as None for text `float()`
  rejects. Text `float()` accepts but that is not a finite number ("nan",
  "inf") is not modelled: such a record fails every band comparison and is
  left out of a band query, not an error. Binary floating-point rounding of the text is not modelled.
- A record that lacks one of its fields raises KeyError in the program:
  `spotId` or `activator` in `refresh`, `mode` or `frequency` in `getSpots`,
  `reference` in the redraw. The model takes records carrying all five
  fields.
- Python's `sorted` is Timsort, and `SortById` is an insertion sort. Both
  are stable sorts by `spotId`. Sortedness, permutation and stability fix
  the output of a stable sort. The model proves these three properties of
  `SortById` but does not prove that they fix the output.
- All wxPython plumbing is left out: the window, sizers, the scrolled panel,
  menus, the toolbar, colours, message boxes and the event loop
  (main.py:22-41, 48-176, 216-241).
  - A widget is reduced to what it shows and a highlight flag.
  - `sizer_spots.Clear(delete_windows=True)` (main.py:183) runs before the
    query in the program. A failed query therefore leaves `self.spots`
    holding destroyed widgets. The model keeps the old widgets usable
    instead.
- The interval spin control (main.py:106) drives no logic and is not
  modelled.
- Rig control, the scan timer and threading do not appear in these files
  and are not modelled.
- The `self.spots is None` test (main.py:199) cannot be true in the model.
  The model's widget list always exists.
- An exception in a wx event handler ends that handler. The model returns
  `Fail(...)` instead, with the state the program has at the point where it
  raises.
