# Cosmo state-history reconstruction, in Dafny

This project models the AppDaemon apps that keep track of the Cosmo robot vacuum, and proves
properties of that model. Its core comes in two revisions:

- the current one, `apps/cosmo/cosmo_monitor.py`;
- the earlier one, `apps/cosmo_monitor/cosmo_monitor.py`.

Both revisions work the same way:

1. They fetch the raw Home Assistant records of an entity: a state, `last_changed` and
   `last_updated`.
2. They sort the records by `last_updated`.
3. They replay the records newest first into contiguous, merged intervals (`_History.from_state_history`).
4. They reason over those intervals:
   - a backward scan of the task status finds the last cleaning run;
   - the vacuum state refines the end of that run;
   - the cleaned area is attributed to the room the vacuum was in;
   - each room that reaches its minimum area has its "last cleaned" time recorded.

Three smaller pieces of the same repository are modelled as well:

- the Monzo auto-saver, `apps/monzo/auto_saver.py`: transaction windowing, the fetch cursor,
  the round-ups, the percentage savings, the published total and the deposit guard;
- the credit-card pot manager, `apps/monzo/credit_card_pot_manager.py`: the nightly top-up
  decision, the action text and its parsing, and the auth-code guard;
- the WebP image type of `apps/cosmo/cosmo_image_downloader.py`: the filename rewrite, the
  centre-square crop box and the lazily cached local path.

## Layout

| module (file) | models |
|---|---|
| `Wrappers` (wrappers.dfy), `Time` (time.dfy), `Seqs` (seqs.dfy) | Option/Result, the microsecond clock, reversal and first/last searches |
| `History` (history.dfy) | `_History` of the current revision: indexing, `len`, `state_at`, the computed limits |
| `Reconstruction` (reconstruction.dfy) | the sort, `_get_previous_state`, the replay loop of both revisions, `from_state_history` |
| `EarlierHistory` (earlier_history.dfy) | the earlier `_History` with stored limits and its `from_state_history` |
| `CosmoStates` (cosmo_states.dfy) | `CosmoState`, `TaskStatus`, `Room` and their properties |
| `Filters` (filters.dfy) | the two `filter_current_state_out` hooks |
| `CleaningPeriod` (cleaning_period.dfy) | `_get_cleaning_period` of both revisions: the scan and the two refinements |
| `Attribution` (attribution.dfy) | `_get_area_cleaned_by_room` and the threshold loop |
| `Monitor` (monitor.dfy) | `log_cleaning_time` and the two trigger guards |
| `Scenarios` (scenarios.dfy) | concrete runs: the doorway debounce, the counter reset, a paused run, attribution, revision divergence |
| `Text` (text.dfy) | `str.split`/`join`, `str(n)`, decimal reading, `round`, `int()` |
| `AuthCode`, `PotManager`, `AutoSaving`, `ImageDownloader` | the secondary apps |

Modelling conventions:

- Timestamps are integers in microseconds. `Time.SECOND` is 1 000 000.
- A record is `Sample(state, changed, updated)`. An emitted interval is `Interval(state, start, end)`.
- A reconstruction is a `Query`. It holds:
  - the revision;
  - the lower and upper limits; a missing upper limit is replaced by "now";
  - `remove_unavailable_states`;
  - the unavailable sentinel of the state type;
  - the filter hook.
- `Replay` is the loop's reference definition. It is shared by both revisions. The revisions differ in the skip bound and in whether the hook is consulted.
- Areas are `real` square metres. Money is integer pence. A numeric area state keeps its text beside its value, because the source compares states as text when it merges records.
- Where the source works on floats, the model uses exact reals, truncated as Python's `int()` does.

## Model

| member | source | states |
|---|---|---|
| History.Length | apps/cosmo/cosmo_monitor.py:357-358 | `len(history)` is the number of intervals |
| History.Get | apps/cosmo/cosmo_monitor.py:354-355 | indexing succeeds exactly for `-len <= i < len`, counts negative indices from the end, and otherwise raises an IndexError for that index |
| History.LowerLimit | apps/cosmo/cosmo_monitor.py:160-164 | `lower_limit` is the start of `states[0]`; it raises exactly when the history is empty |
| History.UpperLimit | apps/cosmo/cosmo_monitor.py:166-170 | `upper_limit` is the end of `states[-1]`; it raises exactly when the history is empty |
| History.Duration | apps/cosmo/cosmo_monitor.py:154-158 | `duration` is the last end minus the first start, and fails on an empty history |
| History.StateAt | apps/cosmo/cosmo_monitor.py:344-352 | `state_at(t)` returns the first interval of the history, in its order, that contains `t` (start inclusive, end exclusive); no earlier interval contains `t`; it raises exactly when no interval contains `t` |
| History.StateAtCoversWindow | apps/cosmo/cosmo_monitor.py:344-352 | on a chained, ordered history, `state_at` succeeds for every instant from the first start up to the last end |
| History.ChainedIntervalsDisjoint | apps/cosmo/cosmo_monitor.py:344-352 | on a chained, ordered history no instant lies in two intervals, so the first match of `state_at` is the only one |
| Reconstruction.SortByUpdated | apps/cosmo/cosmo_monitor.py:200-203 | the sort by `last_updated` returns a sorted permutation of the records |
| Reconstruction.SortIsStable | apps/cosmo/cosmo_monitor.py:200-203 | the sort is stable: for every `last_updated` value, the records carrying it come out in their input order |
| Reconstruction.InsertKeepsKeyOrder | apps/cosmo/cosmo_monitor.py:200-203 | one insertion step places the new record after every record with the same `last_updated` |
| Reconstruction.SortSortedIsIdentity | apps/cosmo/cosmo_monitor.py:200-203 | sorting records already in `last_updated` order leaves them unchanged |
| Reconstruction.PreviousSample | apps/cosmo/cosmo_monitor.py:224-236 | `_get_previous_state`: None exactly when nothing remains; without removal, the newest remaining record; with removal, the newest record that is not unavailable, else the newest record when all are unavailable |
| Reconstruction.Newest | apps/cosmo/cosmo_monitor.py:273 | `next_state` is None exactly when nothing has been emitted, else the last emitted interval |
| Reconstruction.KeepAllSkipsOnlyLateOrUnavailable | apps/cosmo/cosmo_monitor.py:333-342 | the base hook never drops a record; under it a record is skipped exactly when it changed after the bound or is an unavailable record being removed |
| Reconstruction.SkippedSampleContributesNothing | apps/cosmo/cosmo_monitor.py:275-295 | a record that is late, unavailable under removal, or vetoed by the hook leaves the emitted intervals as they are |
| Reconstruction.SameStateSampleMerges | apps/cosmo/cosmo_monitor.py:298-306 | a record with the newest interval's state only moves that interval's start to `max(lower_limit, last_changed)`, and the loop continues, even below the lower limit |
| Reconstruction.NewStateSampleEmitted | apps/cosmo/cosmo_monitor.py:298-317 | a record with a new state at or after the lower limit appends an interval from its `last_changed` to the previous interval's start, or to the upper limit when it is the first |
| Reconstruction.SampleBeforeLowerLimitEndsReplay | apps/cosmo/cosmo_monitor.py:298-322 | a record with a new state before the lower limit appends an interval clamped to the lower limit, and the loop stops right after it |
| Reconstruction.ReplayOnlyGrows | apps/cosmo/cosmo_monitor.py:298-317 | the loop only appends intervals, at most one per record, and changes only the start of the interval that was newest |
| Reconstruction.ReplayWellFormed | apps/cosmo/cosmo_monitor.py:270-322 | newest first, for both revisions: the first interval ends at the upper limit; each later one ends where the one before it starts; consecutive states differ; every start is at least the lower limit; no interval is unavailable when removal is on |
| Reconstruction.ReplayStatesFromSamples | apps/cosmo/cosmo_monitor.py:311-317 | every emitted state is the state of one of the records |
| Reconstruction.SortedFollowsChanged | apps/cosmo/cosmo_monitor.py:200-203 | when `last_changed` follows `last_updated`, the sorted records are in `last_changed` order as well |
| Reconstruction.ReplayOrdered | apps/cosmo/cosmo_monitor.py:298-322 | for records in `last_changed` order and `lower <= upper`, every emitted interval has `start <= end` (zero length allowed) and ends by the upper limit |
| Reconstruction.RevisionsAgreeOnOrderedInput | apps/cosmo/cosmo_monitor.py:275-295 | with a hook that never drops and records in `last_changed` order, the moving bound of the current revision and the fixed bound of the earlier one give the same intervals |
| Reconstruction.ReverseIsChained | apps/cosmo/cosmo_monitor.py:324-331 | flipping a contiguous newest-first list gives an oldest-first list whose intervals chain and whose last interval ends at the upper limit |
| Reconstruction.ReversedIsWellFormed | apps/cosmo/cosmo_monitor.py:324-331 | the flipped list of a well-formed replay is chained, ends at the upper limit, starts at or after the lower limit, alternates states and avoids the sentinel under removal |
| Reconstruction.ReversedCoversWindow | apps/cosmo/cosmo_monitor.py:324-331 | for a contiguous, ordered replay, `state_at` on the flipped history succeeds at every instant from its first start up to the upper limit |
| Reconstruction.ReconstructionCoversWindow | apps/cosmo/cosmo_monitor.py:239-331 | for every input, the reconstructed oldest-first history is chained, ends at the upper limit, starts at or after the lower limit, alternates and avoids the sentinel; for well-ordered records `state_at` succeeds throughout the covered window |
| Reconstruction.OlderEndsBeforeNewestStart | apps/cosmo/cosmo_monitor.py:309-317 | in a contiguous, ordered newest-first list every older interval ends no later than the newest one starts |
| Reconstruction.ReversedLimitsWrongEnded | apps/cosmo/cosmo_monitor.py:160-170 | with `reverse=True`, `lower_limit` is the newest interval's start and `upper_limit` the oldest interval's end, so with two or more intervals `duration` is not positive |
| Reconstruction.Replay | apps/cosmo/cosmo_monitor.py:270-322 | reference definition of the replay loop, oldest pending record last: a skipped record contributes nothing, a record with the newest state moves that interval's start, a new state is emitted ending where the newest interval starts, and a record changed before `lower_limit` ends the loop |
| Reconstruction.Reconstruct | apps/cosmo/cosmo_monitor.py:200-322 | reference definition of the whole reconstruction: the records sorted by `last_updated`, then replayed from an empty list, newest first |
| Reconstruction.FromStateHistory | apps/cosmo/cosmo_monitor.py:239-331 | the current `from_state_history` loop: a ValueError unless there is exactly one result set, else the sorted and replayed intervals, flipped unless `reverse` |
| EarlierHistory.FromStateHistory | apps/cosmo_monitor/cosmo_monitor.py:135-251 | the earlier loop, which writes `start_time`/`end_time` into each record: the count check, then the replay with the fixed end time and no hook; the requested limits are stored |
| EarlierHistory.StoredLimitsFrameIntervals | apps/cosmo_monitor/cosmo_monitor.py:120-132 | the earlier history keeps the requested limits, so `duration` is `upper - lower` even with no states; the intervals lie inside and span no more than that |
| CosmoStates.IsRoomCleaning | apps/cosmo/cosmo_monitor.py:51-57 | `is_room_cleaning`: the three cleaning task statuses |
| CosmoStates.IsPaused | apps/cosmo/cosmo_monitor.py:60-67 | `is_paused`: the four paused task statuses |
| CosmoStates.ClassificationDisjoint | apps/cosmo/cosmo_monitor.py:49-67 | no task status is both cleaning and paused; `completed` and `unavailable` are neither |
| CosmoStates.MinimumCleanArea | apps/cosmo/cosmo_monitor.py:87-101 | every real room has a minimum between 2 and 8 m²; the unavailable room has none (the lookup raises a KeyError) |
| CosmoStates.InputDatetimeName | apps/cosmo/cosmo_monitor.py:82-86 | each room's helper entity is an `input_datetime.cosmo_last_…` name |
| CosmoStates.InputDatetimeNamesDistinct | apps/cosmo/cosmo_monitor.py:82-86 | distinct rooms record their clean times in distinct entities |
| Filters.AsFloat | apps/cosmo/cosmo_monitor.py:387-392 | `float(state)` fails exactly on a state that is not a number: the unavailable sentinel or other text such as `unknown`; otherwise it gives the number |
| Filters.AreaReset | apps/cosmo/cosmo_monitor.py:367-392 | the area hook as a filter: a record is dropped exactly when the check succeeds with `True`; where it raises, the record is kept and the state that is not a number reaches validation |
| Filters.AreaResetCheck | apps/cosmo/cosmo_monitor.py:373-392 | the area hook drops a record exactly when no older record remains, an interval has been emitted, the record is positive and the emitted value is 0; it raises exactly when `float()` reaches a state that is not a number, left to right |
| Filters.AreaResetDropsOnlyOldest | apps/cosmo/cosmo_monitor.py:387-392 | the area hook only ever drops the oldest record, after something was emitted, and dropping it leaves the emitted intervals as they are |
| Filters.AreaResetNeverRaises | apps/cosmo/cosmo_monitor.py:387-392 | with a numeric record and numeric intervals emitted so far, the area hook's `float()` conversions never raise |
| Filters.AreaHookFailureSurfaces | apps/cosmo/cosmo_monitor.py:275-295 | when the hook's `float()` raises for a record the loop reaches, that record is the oldest and a state that is not a number is in the replayed intervals, so validation reports it too |
| Filters.RoomDebounce | apps/cosmo/cosmo_monitor.py:407-433 | the room hook drops a record exactly when the records on either side exist, share a state, and the later one starts less than 20 s after the record's `last_updated` |
| Filters.RoomDebounceKeepsEnds | apps/cosmo/cosmo_monitor.py:420-433 | a debounced record always has a pending older record with the same room as the newest emitted interval |
| CleaningPeriod.CleaningRun | apps/cosmo/cosmo_monitor.py:518-527 | reference definition of the backward scan: from the newest active interval to the oldest active one before the first breaking interval; no breaking interval raises |
| CleaningPeriod.ScanCleaningRun | apps/cosmo/cosmo_monitor.py:518-527 | the backward scan loop computes the run that `CleaningRun` defines |
| CleaningPeriod.CleaningRunFound | apps/cosmo/cosmo_monitor.py:518-527 | when the newest active interval is followed by a run of active or paused intervals and then a breaking one, the scan returns that run: the oldest active start and the newest active end |
| CleaningPeriod.CleaningRunShape | apps/cosmo/cosmo_monitor.py:518-527 | conversely, every run the scan returns has that shape |
| CleaningPeriod.ExhaustedRunRaises | apps/cosmo/cosmo_monitor.py:526-527 | when no breaking interval follows the active run, `for…else` raises, even though a run was found |
| CleaningPeriod.NoActiveRaises | apps/cosmo/cosmo_monitor.py:526-527 | a history with no active interval raises |
| CleaningPeriod.CleaningRunWithinHistory | apps/cosmo/cosmo_monitor.py:518-527 | on a well-formed task history the reported run satisfies `lower <= start <= end <= upper` |
| CleaningPeriod.RefineEnd | apps/cosmo/cosmo_monitor.py:538-541 | the current refinement loop: the end of the newest `CLEANING` interval, else the tentative end |
| CleaningPeriod.TrimReturning | apps/cosmo_monitor/cosmo_monitor.py:352-358 | the earlier refinement loop: the start of the newest `RETURNING_TO_DOCK` interval, else the tentative end |
| CleaningPeriod.RefinementStaysInWindow | apps/cosmo/cosmo_monitor.py:529-543 | for well-ordered records, both refinements keep the end inside the requested window |
| CleaningPeriod.Period | apps/cosmo/cosmo_monitor.py:503-543 | reference definition of `_get_cleaning_period` for either revision: the scanned run, with its end refined against the vacuum's history |
| CleaningPeriod.GetCleaningPeriod | apps/cosmo/cosmo_monitor.py:503-543 | `_get_cleaning_period` of either revision: the task history, the scan, the vacuum history and its refinement, with each request's count check |
| CleaningPeriod.PeriodIsWindow | apps/cosmo/cosmo_monitor.py:503-543 | for well-ordered records the period lies between the task lower limit and now, with start before end |
| Attribution.ToAreaValues | apps/cosmo/cosmo_monitor.py:325-331 | validating the area history as numbers succeeds exactly when every state is a number, and keeps each interval |
| Attribution.AreaCleanedByRoom | apps/cosmo/cosmo_monitor.py:465-501 | the attribution loop, with its in-place dict updates and running `prev_value`, computes the reference fold |
| Attribution.Fold | apps/cosmo/cosmo_monitor.py:476-494 | reference definition of the attribution loop: each reading is credited to the room current at its start, whose end is recorded as that room's `end_time`, and `prev_value` advances on every reading |
| Attribution.FoldSucceedsIffLocated | apps/cosmo/cosmo_monitor.py:476-479 | attribution raises exactly when a credited reading starts where `state_at` finds no room |
| Attribution.StepKeepsKeys | apps/cosmo/cosmo_monitor.py:479-488 | one `setdefault`-and-update keeps keys unique and only appends a new key |
| Attribution.FoldKeepsKeys | apps/cosmo/cosmo_monitor.py:476-494 | the result's keys are unique, in insertion order, and extend the initial keys |
| Attribution.FoldCreditsEachRoom | apps/cosmo/cosmo_monitor.py:476-494 | a room is a key exactly when some reading is credited to it; its area is the sum of `value - (prev or 0)` over readings not 0 and unlike the previous one; its `end_time` is the end of its last credited reading; `prev` advances every step |
| Attribution.UncreditedRoomGetsNothing | apps/cosmo/cosmo_monitor.py:476-494 | a room that no reading is credited to has a contribution of 0 |
| Attribution.TotalTelescopes | apps/cosmo/cosmo_monitor.py:476-494 | with no zero reading the credited increments add up to the last reading minus the starting one |
| Attribution.AreaConserved | apps/cosmo/cosmo_monitor.py:476-494 | when every credited reading is located, the rooms' contributions add up to the total credited area |
| Attribution.NoUnavailableKey | apps/cosmo/cosmo_monitor.py:476-494 | over a room history without the sentinel, the unavailable room never becomes a key |
| Attribution.ThresholdCalls | apps/cosmo/cosmo_monitor.py:589-607 | reference definition of the threshold loop: rooms at or over their minimum have their end recorded in insertion order; reaching the unavailable sentinel raises after the rooms before it |
| Attribution.RecordCleanRooms | apps/cosmo/cosmo_monitor.py:589-607 | the threshold loop computes the reference list of `set_datetime` calls, in key order, and whether a KeyError ends it |
| Attribution.ThresholdDecides | apps/cosmo/cosmo_monitor.py:589-600 | without the unavailable key nothing raises, and `(room, end)` is recorded exactly when the room's area is at least its minimum and `end` is its `end_time` |
| Monitor.ShouldLogCleaningTime | apps/cosmo/cosmo_monitor.py:559-565 | the current guard: a change to `completed` from a cleaning or a paused status |
| Monitor.EarlierShouldGo | apps/cosmo_monitor/cosmo_monitor.py:362-388 | the earlier guard: a change to `completed` from a cleaning status only |
| Monitor.GuardsDiffer | apps/cosmo/cosmo_monitor.py:559-565 | both guards need `completed`; the current one also accepts a completion straight after a paused status, which the earlier `go` guard rejects |
| Monitor.CleaningLog | apps/cosmo/cosmo_monitor.py:545-607 | reference definition of `log_cleaning_time`: the guard, the cleaning period, the room and area histories, validation, attribution and the threshold loop, with the outcome of the first step that fails |
| Monitor.LogCleaningTime | apps/cosmo/cosmo_monitor.py:545-607 | `log_cleaning_time`: the guard, the period, the room and area histories with their hooks, attribution and the threshold loop |
| Monitor.ReconstructionAvoidsUnavailable | apps/cosmo/cosmo_monitor.py:275-295 | a history requested with unavailable states removed never holds the sentinel, in either order |
| Monitor.SortKeepsNoText | apps/cosmo/cosmo_monitor.py:200-203 | sorting by `last_updated` keeps the records themselves, so area records without text stay without text |
| Monitor.NoTextReconstructsNumeric | apps/cosmo/cosmo_monitor.py:275-331 | with the sentinel removed, area records without other text reconstruct to numbers only, in either order |
| Monitor.AttributionNeverMeetsUnavailable | apps/cosmo/cosmo_monitor.py:476-607 | over a room history without the sentinel and an area history of numbers only, area validation succeeds, the threshold loop never raises, and exactly the rooms at or over their minimum are recorded, each with its last credited end |
| Monitor.LogNeverMeetsUnavailable | apps/cosmo/cosmo_monitor.py:545-607 | when the area records carry no text other than the sentinel, every run of `log_cleaning_time` passes area validation and never reaches the KeyError of the unavailable room |
| Scenarios.DebounceAbsorbsShortVisit | apps/cosmo/cosmo_monitor.py:407-433 | a 3 s lounge visit between kitchen records is dropped, and the window is one kitchen interval |
| Scenarios.ResetArtefactDropped | apps/cosmo/cosmo_monitor.py:373-392 | the previous session's total before the counter reset is dropped, and nothing is credited from it |
| Scenarios.PausedRunWithoutBreakRaises | apps/cosmo/cosmo_monitor.py:518-527 | cleaning, paused, cleaning and then nothing older: the scan raises |
| Scenarios.PausedRunSpansBothCleanings | apps/cosmo/cosmo_monitor.py:518-527 | the same run with a breaking status before it spans both cleanings |
| Scenarios.FallingReadingSubtracts | apps/cosmo/cosmo_monitor.py:485-487 | a reading falling from 3 to 2 m² adds a negative step and leaves 2 m² |
| Scenarios.SpellingsStayApart | apps/cosmo/cosmo_monitor.py:298-317 | records `12` then `12.0` are two states, because the merge compares text: they give two intervals, and the repeated value is credited once, so the kitchen's end is the first interval's end |
| Scenarios.RepeatedValueNotCredited | apps/cosmo/cosmo_monitor.py:476-494 | a reading equal to `prev_value` is not credited and leaves the room's `end_time` where it was |
| Scenarios.KitchenCreditedPastCrossing | apps/cosmo/cosmo_monitor.py:476-494 | a room keeps being credited after it crosses its minimum, up to its last reading |
| Scenarios.ThresholdRecordsLastCreditedEnd | apps/cosmo/cosmo_monitor.py:589-600 | the kitchen (6 m²) is recorded at its last end and the office (4.9 m² < 5) is not |
| Scenarios.CurrentRevisionCanInvert | apps/cosmo/cosmo_monitor.py:275-317 | the current revision also emits an interval with `start > end` (paused from 20 to 10), because its bound only rejects changes later than the newest interval's end |
| Scenarios.RevisionsDivergeOnDisorderedInput | apps/cosmo/cosmo_monitor.py:275-309 | when `last_changed` runs against `last_updated`, the current revision skips a record that the earlier one keeps; the earlier one then emits an interval with `start > end` |
| Scenarios.SameInstantGivesEmptyInterval | apps/cosmo/cosmo_monitor.py:298-317 | two records changing at the same instant give a zero-length interval |
| Scenarios.EmptyInputHasNoLimits | apps/cosmo/cosmo_monitor.py:160-170 | with no records, the history is empty, and `lower_limit` and `duration` raise |
| Text.SplitCount | apps/monzo/credit_card_pot_manager.py:170 | `split(sep)` gives one more piece than there are separators |
| Text.JoinSplit | apps/cosmo/cosmo_image_downloader.py:27-28 | joining the pieces of a split with the separator gives the string back |
| Text.SplitJoin | apps/cosmo/cosmo_image_downloader.py:27-28 | splitting a join of separator-free pieces gives the pieces back |
| Text.FormatPenceRoundTrip | apps/monzo/credit_card_pot_manager.py:95-98 | an amount written as pounds with two decimals reads back as that many hundredths |
| Text.FormatPenceFloatRoundTrip | apps/monzo/credit_card_pot_manager.py:175 | `float()` of the written amount gives that many hundredths |
| Text.ParseFloatIgnoresSpace | apps/monzo/credit_card_pot_manager.py:175 | `float()` ignores whitespace around the literal |
| Text.StripSurrounded | apps/monzo/credit_card_pot_manager.py:175 | stripping removes exactly the whitespace around a string that has none at its own ends |
| Text.RoundHalfEven | apps/monzo/credit_card_pot_manager.py:175 | `round(x)` is within one half of `x`; it is the strictly nearest integer unless `x` lies halfway, and then it is even |
| Text.Truncate | apps/cosmo/cosmo_image_downloader.py:48-51 | `int(x)` truncates toward zero |
| AuthCode.ConsumeAuthCode | apps/monzo/credit_card_pot_manager.py:275-280 | an empty code is ignored; a one-character code only re-sends the auth link; any longer code is exchanged unchanged |
| PotManager.BuildAction | apps/monzo/credit_card_pot_manager.py:95-98 | the action text starts with the action phrase and a colon |
| PotManager.TopUpCreditCardPot | apps/monzo/credit_card_pot_manager.py:163-186 | a deposit is made only for `0 < pence < 1 000 000`; an out-of-range amount is rejected; an unpack failure means not exactly two pieces |
| PotManager.DailyProcess | apps/monzo/credit_card_pot_manager.py:54-161 | a non-positive deficit skips, with the notice only under £50; otherwise `0 <= top_up <= deficit` and `top_up <= max(balance - remainder, 0)`, equal to one of the two; automatic exactly when `top_up < max_auto_top_up` |
| PotManager.ActionRoundTrip | apps/monzo/credit_card_pot_manager.py:170-186 | the action the nightly process builds is read back by the handler as the same amount, deposited exactly when in range |
| PotManager.ActionSplitsIntoPhrase | apps/monzo/credit_card_pot_manager.py:170 | the action splits into exactly the phrase and the amount text |
| PotManager.DefaultActionIgnored | apps/monzo/credit_card_pot_manager.py:170-173 | an event without an action falls back to `"0:0"` and is ignored |
| PotManager.OtherPhraseIgnored | apps/monzo/credit_card_pot_manager.py:170-173 | any other phrase is ignored, whatever amount it carries |
| PotManager.UnpackNeedsOneColon | apps/monzo/credit_card_pot_manager.py:170 | unpacking fails exactly when the text does not hold exactly one colon |
| PotManager.AutomaticTopUpDeposits | apps/monzo/credit_card_pot_manager.py:100-110 | on the automatic path the deposit is made exactly when the amount is in range |
| PotManager.ZeroTopUpRejected | apps/monzo/credit_card_pot_manager.py:92-110 | with a deficit but no money above the remainder, the automatic top-up of 0 is rejected by the range check |
| AutoSaving.Since | apps/monzo/auto_saver.py:636-643 | the window keeps exactly the records made at or after the last auto-save, in order |
| AutoSaving.SinceAppend | apps/monzo/auto_saver.py:567-569 | windowing an extended list is windowing both parts |
| AutoSaving.SinceIdempotent | apps/monzo/auto_saver.py:636-643 | windowing twice is windowing once |
| AutoSaving.NewestStamp | apps/monzo/auto_saver.py:556-566 | `max(transactions, key=…)` is attained and bounds every record |
| AutoSaving.FetchCursor | apps/monzo/auto_saver.py:556-566 | the cursor is the last auto-save for an empty list, else exactly one second after the newest record: at least a second after every held record and exactly a second after one of them |
| AutoSaving.FetchedAreNewer | apps/monzo/auto_saver.py:556-569 | records fetched from the cursor are strictly newer than every held record |
| AutoSaving.MonzoRoundUp | apps/monzo/auto_saver.py:280 | a Monzo round-up lies in 1..100, and is 100 exactly for whole-pound amounts |
| AutoSaving.AmexRoundUp | apps/monzo/auto_saver.py:284 | an Amex round-up, on pence, lies in 1..100, and is 100 exactly for whole pounds |
| AutoSaving.RoundUpPence | apps/monzo/auto_saver.py:270-289 | the round-ups total between 1p and £1 per transaction |
| AutoSaving.WholePoundsRoundUpFully | apps/monzo/auto_saver.py:270-275 | whole-pound spending rounds up by a full pound each |
| AutoSaving.NonNegativeShare | apps/monzo/auto_saver.py:226 | a non-negative percentage of a non-negative base, truncated, is non-negative and at most the exact share |
| AutoSaving.Counted | apps/monzo/auto_saver.py:218-221 | the counted transactions are exactly the positive ones not from a pot |
| AutoSaving.DebitBaseIsCountedSum | apps/monzo/auto_saver.py:218-224 | the base is the sum over the counted transactions, has one breakdown line each, is non-negative, and is positive exactly when something is counted |
| AutoSaving.DebitTransactionsValue | apps/monzo/auto_saver.py:213-226 | the accumulation loop gives the truncated share of the counted sum and its breakdown |
| AutoSaving.NaughtyAmex | apps/monzo/auto_saver.py:240-249 | matching Amex spending is never negative |
| AutoSaving.NaughtyMonzo | apps/monzo/auto_saver.py:251-260 | matching Monzo spending is never positive |
| AutoSaving.NaughtyTransactionsValue | apps/monzo/auto_saver.py:228-268 | the loops give the share of all matching spending; with no pattern, `(0, ["No pattern set!"])`; a non-negative percentage saves a non-negative amount |
| AutoSaving.AutoSaveBounds | apps/monzo/auto_saver.py:322-348 | with non-negative percentages the total is at least the minimum plus 1p per transaction and 79p per song, and at most £1 per transaction more than the minimum, the songs and the two percentage savings |
| AutoSaving.ShouldDeposit | apps/monzo/auto_saver.py:460-461 | a deposit is considered exactly when the switch really changed and neither state is `unavailable` or `unknown` |
| AutoSaving.WholeSeconds | apps/monzo/auto_saver.py:605-610 | the stored last-save time is `now` truncated to a whole second |
| AutoSaving.AutoSaver.AmexTransactions | apps/monzo/auto_saver.py:578-592 | the property reassigns the Amex records to their window and returns it |
| AutoSaving.AutoSaver.MonzoTransactions | apps/monzo/auto_saver.py:628-643 | the property reassigns the Monzo records to their window and returns it |
| AutoSaving.AutoSaver.UpdateTransactionRecords | apps/monzo/auto_saver.py:536-575 | each list is extended in place with what is fetched from its cursor; nothing else changes |
| AutoSaving.AutoSaver.GetRoundUpPence | apps/monzo/auto_saver.py:270-289 | reads both windows and returns their round-ups |
| AutoSaving.AutoSaver.GetDebitPercentage | apps/monzo/auto_saver.py:213-226 | reads the Monzo window and returns its debit saving and breakdown |
| AutoSaving.AutoSaver.GetNaughtyPercentage | apps/monzo/auto_saver.py:228-268 | with no pattern reads nothing; otherwise reads both windows; returns the naughty saving |
| AutoSaving.AutoSaver.Calculate | apps/monzo/auto_saver.py:303-363 | does nothing unless `attribute == "state"` and the value is non-empty; otherwise fetches, windows both lists and publishes the sum of the four categories and the minimum |
| AutoSaving.AutoSaver.SaveMoney | apps/monzo/auto_saver.py:449-482 | no deposit unless the guard holds; fails when nothing numeric was published; else deposits the published amount and moves the last-save time to now |
| ImageDownloader.ValidateWebpFilename | apps/cosmo/cosmo_image_downloader.py:23-28 | the rewritten filename always ends in `webp` |
| ImageDownloader.NoDotGivesBareExtension | apps/cosmo/cosmo_image_downloader.py:27-28 | a name without a dot becomes exactly `webp` |
| ImageDownloader.ExtensionReplaced | apps/cosmo/cosmo_image_downloader.py:27-28 | `stem.ext` becomes `stem.webp`, whatever dots the stem holds |
| ImageDownloader.ValidateIdempotent | apps/cosmo/cosmo_image_downloader.py:27-28 | rewriting a rewritten name changes nothing |
| ImageDownloader.CropBox | apps/cosmo/cosmo_image_downloader.py:46-52 | the box is a square of side `min(w, h)`, lies inside the image and is centred to within one pixel |
| ImageDownloader.PathJoin | apps/cosmo/cosmo_image_downloader.py:67-70 | `directory / name` ends with the name |
| ImageDownloader.WebPImage.constructor | apps/cosmo/cosmo_image_downloader.py:23-28 | the filename is validated on construction, and no path is cached yet |
| ImageDownloader.WebPImage.LocalPath | apps/cosmo/cosmo_image_downloader.py:60-70 | the path is `PHOTOS_DIRECTORY / filename`, computed on first access and the same afterwards |
| ImageDownloader.WebPImage.Download | apps/cosmo/cosmo_image_downloader.py:30-58 | crops the centre square, resizes to 512×512 and returns the local path |

## Behaviour worth knowing

The model follows the code in each of these cases:

- **Debounce threshold.** The room hook's docstring (`apps/cosmo/cosmo_monitor.py:414`) says 10 s; the code (`:432`) uses 20 s (`Filters.DEBOUNCE`).
- **Pause scan.** A paused run that reaches the end of the task history without a breaking status raises, because `for…else` raises whenever the loop did not `break` (`Scenarios.PausedRunWithoutBreakRaises`).
- **Empty history.** With no records, `lower_limit`, `upper_limit` and `duration` of the current revision raise; they do not give back the requested limits (`Scenarios.EmptyInputHasNoLimits`). Only the earlier revision stores the limits.
- **Coverage.** The reconstructed history covers the window only from the first record on, unless some record predates the lower limit.
- **`start <= end`.** This holds only when `last_changed` follows `last_updated` order. Otherwise either revision can emit an interval with `start > end`. The current revision skips only a record that changed after the end of the newest interval emitted so far; a record that changed later than the older intervals' start but within that end is still emitted (`Scenarios.CurrentRevisionCanInvert`). On some inputs the current revision skips a record that the earlier one keeps as an inverted interval (`Scenarios.RevisionsDivergeOnDisorderedInput`).
- **Falling readings.** A reading that is lower than the previous one adds its negative difference to the room.
- **Recorded time.** A room that passes its minimum is recorded at the end of its last credited reading, not when it crossed the minimum.
- **Guards.** The earlier `go` guard accepts only a cleaning status before `completed`. The current guard also accepts a paused one.
- **End of the session.** The earlier revision ends the session at the start of the newest `RETURNING_TO_DOCK` state. The current one ends it at the end of the newest `CLEANING` state.

## Left out

- I/O and the framework:
  - the Home Assistant history request itself, logging and `listen_state`;
  - `call_service`, `notify`, `self.datetime()` and `initialize`;
  - the model takes the result sets and "now" as parameters.
- Timestamp parsing and timezone normalisation (`fromisoformat`, `astimezone`): timestamps are already integers.
- The earlier revision's `utcnow()` default for a missing upper limit is given as a parameter. Its `entity_id` is carried as a plain string.
- Pydantic validation is modelled only as the numeric check of area states (`Attribution.ToAreaValues`). Nothing else of it is modelled. The area request removes only the `unavailable` sentinel (`apps/cosmo/cosmo_monitor.py:282`); any other text, such as `unknown`, stays in the history. Where the area hook's `float()` raises a ValueError (`apps/cosmo/cosmo_monitor.py:390-391`), the model keeps the record instead and the same ValueError is reported by validation (`apps/cosmo/cosmo_monitor.py:325-331`). `Monitor.LogCleaningTime` reports both as `AreaNotNumeric`.
- `__iter__` and `__str__` of `_History` are left out. Iteration is the order of the interval sequence.
- `tmp.py` is left out. It is not part of this model: its smoothing code is unreachable and the rest sorts a fixed fixture.
- OAuth, the auth-link notification and the token exchange are left out: external HTTP. Only the input guard of the auth-code handler is modelled (`AuthCode.ConsumeAuthCode`).
- `AutoSaving.AmexRoundUp`: models an Amex amount already in pence, not the float pound amount with its `% 100` on a float. Float rounding is not modelled.
- `AutoSaving.NonNegativeShare` and the percentage savings: they are exact reals truncated as `int()` does. The float products are not modelled.
- `AutoSaving.AutoSaver.Calculate`: the published amount is kept in pence. Four steps are not modelled:
  - `round(amount / 100, 2)` rounding to pounds;
  - `save_money` reading it back with `int(float(...) * 100)`;
  - the JSON of the category attributes and the breakdown; breakdown lines are values, not formatted text;
  - collapsing runs of whitespace in transaction descriptions (`MULTISPACE_PATTERN.sub`, `apps/monzo/auto_saver.py:248` and `:259`); `Entry` keeps the raw description.
- The Spotify liked-track count is an input of `Calculate` (an external API). The naughty pattern's regular-expression search is a parameter.
- `AutoSaving.AutoSaver.SaveMoney` leaves out two things:
  - the deposit's dedupe id;
  - reading the published value from Home Assistant.
- `PotManager.DailyProcess` takes balances in pence. The float `round(…, 2)` of the deficit and the notification texts are left out.
- `PotManager.TopUpCreditCardPot`: the amount reader accepts an optional sign, digits with at most one point, and ASCII whitespace around them. Python's `float()` also accepts exponents (`1e3`), underscores between digits (`1_0`), `inf`/`nan` and non-ASCII whitespace; the model reports `AmountUnparsable` for those, where the source would deposit (exponents, underscores) or raise from `round` (`inf`, `nan`). The exact-real convention also decides ties: for `TOP_UP_CREDIT_CARD_POT:1.015` the model computes exactly 101.5 and rounds it half to even, depositing 102 pence, while Python's float product is 101.49999999999999 and rounds to 101.
- `PotManager.BuildAction` writes the amount as pounds with exactly two decimals. Python's `str()` of a float is not modelled.
- `ImageDownloader.WebPImage.Download` leaves out the image decoding, resizing and saving (PIL), and the Google Photos album loop. Path normalisation of `Path` is not modelled beyond an absolute name replacing the directory.
