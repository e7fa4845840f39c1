# FitnessShowcase: phone-side telemetry receiver, plan titles and presets

A Dafny model of the small pieces of sequential logic in the FitnessShowcase
app that sit on the phone side of the watch-to-phone link and in the shared
model types:

- **Plan titles** (`Shared/Models.swift`): the `Interval`, `WorkoutPlan` and
  `LiveSnapshot` value types, the built-in `WorkoutPlan.sample`, and the
  derived `displayTitle` with its nested `mmss` formatter. `displayTitle`
  returns a non-empty stored title as it is; otherwise, when the plan has as
  many "run" as "rest" intervals (and at least one), it renders
  `N×(m:ss run / m:ss rest) • Sport` from the FIRST run and the FIRST rest
  only; otherwise `Sport • M min` from the sum of all durations.
  `DisplayTitle` is a Dafny function without a `reads` clause, so it is a
  deterministic function of the plan and reads nothing else.
- **Live stream receiver** (`FitnessShowcase/LiveStreamViewModel.swift`): the
  view model keeps `lastSeq`, starting at -1, and accepts an inbound snapshot
  only when its sequence number is strictly greater. An accepted snapshot
  records its number and is folded into the display with "keep the previous
  value when absent" for plan title, heart rate, distance and energy; the pace
  text is recomputed every time. `LiveStreamViewModel` is a class whose
  `OnSnapshot` method does this in place; `Step`, `Fold`, `HighWater` and
  `Accepted` state the same behaviour on values, and the lemmas about them
  say what a whole stream of duplicated, reordered or lost snapshots does.
- **Pace text**: `1000 / speed` seconds per kilometre, truncated to a whole
  number and shown as `m:ss`, or `--:--` when the speed is absent or not
  positive.
- **Plan presets** (`FitnessShowcase/PlanPresets.swift`): the four presets,
  their titles and `toPlan()`, whose 4×1 case builds its intervals in a loop.

Modules: `Wrappers` (Swift optionals), `Format` (decimal rendering, the `%02d`
pad, the `"%d:%02d"` layout, capitalisation), `Models`, `LiveStream`,
`PlanPresets`.

Because `Int(1000.0 / v)` truncates, 2.7778 m/s (10 km/h, 359.99… s/km)
renders `5:59`, not `6:00` (`LiveStream.PaceAtTenKmPerHour`).

Also worth knowing: the sample plan's stored title says `2×(5:00 run / 1:00 rest)`,
but the plan has two runs and one rest, so with its title removed it would be
shown as `Running • 11 min` (`Models.SampleUntitled`).

The receiver's `lastSeq` is never reset. The watch resets its counter to 0
when a workout stops (`FitnessShowcase Watch App/WorkoutViewModel.swift`,
line 58) and numbers the next workout's snapshots from 1 again (line 105),
so on a phone that stays alive every snapshot of a second workout whose
number does not exceed the first workout's last one is dropped
(`LiveStream.RestartedCounterDropped`).

## Model

| member | source | states |
|---|---|---|
| `Format.NatToString` | Shared/Models.swift:53 | the decimal rendering of a count is a non-empty digit string without leading zeros, one digit exactly for values below 10 |
| `Format.NatToStringRoundTrip` | Shared/Models.swift:55 | reading the rendered digits back gives the original number |
| `Format.NatToStringInjective` | Shared/Models.swift:55 | different numbers never render to the same text |
| `Format.Pad2` | Shared/Models.swift:51 | `%02d` of a value below 100 is exactly two digits that read back as the value |
| `Format.MinutesSeconds` | Shared/Models.swift:49-51 | `mmss(t)` is `m:ss` with decimal minutes `m = t / 60` without leading zeros, a two-digit `ss = t % 60 < 60`, and `m * 60 + ss == t` |
| `Format.MinutesSecondsInjective` | Shared/Models.swift:49-51 | different durations never give the same `m:ss` text |
| `Format.Capitalized` | Shared/Models.swift:47 | `sport.capitalized` keeps the length, upper-cases each word's first letter and lower-cases the rest |
| `Format.CapitalizedIdempotent` | Shared/Models.swift:47 | capitalising an already capitalised sport changes nothing |
| `Models.OfKind` | Shared/Models.swift:44-45 | the `filter` by interval type keeps only intervals of that type, drawn from the plan, never more than the plan has |
| `Models.OfKindComplete` | Shared/Models.swift:44-45 | the `filter` drops no interval of the requested type |
| `Models.OfKindAppend` | Shared/Models.swift:44-45 | filtering a concatenation is concatenating the filtered parts |
| `Models.OfKindFirst` | Shared/Models.swift:48 | `runs.first` / `rests.first` is the earliest interval of that type in the plan |
| `Models.OfKindUpdate` | Shared/Models.swift:44-48 | replacing an interval by one of the same type keeps every type's count, and keeps each type's first interval unless it was the one replaced |
| `Models.TotalSeconds` | Shared/Models.swift:46 | the `reduce(0, +)` total is at least every single duration; its behaviour on concatenation is `TotalAppend` |
| `Models.TotalAppend` | Shared/Models.swift:46 | the `reduce(0, +)` total of a concatenation is the sum of the parts' totals |
| `Models.DisplayTitle` | Shared/Models.swift:42-56 | `displayTitle` is never empty; its three branches are stated by `DisplayTitleUsesTitle`, `DisplayTitlePairs` and `DisplayTitleFallback` |
| `Models.DisplayTitleUsesTitle` | Shared/Models.swift:43 | a present, non-empty title is returned unchanged |
| `Models.DisplayTitleEmptyIsAbsent` | Shared/Models.swift:43 | an empty title gives the same result as no title |
| `Models.DisplayTitlePairs` | Shared/Models.swift:44-53 | with no usable title and equal non-zero run and rest counts, the result is `N×(mmss(first run) run / mmss(first rest) rest) • Sport` |
| `Models.DisplayTitleIgnoresLaterPairs` | Shared/Models.swift:48-53 | in that form, changing the duration of any run or rest other than the first of its type does not change the title |
| `Models.DisplayTitleFallback` | Shared/Models.swift:44-55 | otherwise the result is `Sport • floor(total seconds / 60) min` |
| `Models.DisplayTitleCountsOtherKinds` | Shared/Models.swift:44-55 | an interval that is neither "run" nor "rest" does not change the chosen form; in the pair form the title stays the same, in the minutes form its duration counts toward the minutes |
| `Models.DisplayTitleNoIntervals` | Shared/Models.swift:46-55 | an untitled plan without intervals is shown as `Sport • 0 min` |
| `Models.Sample` | Shared/Models.swift:29-37 | the sample plan carries a non-empty stored title; its intervals are stated by `SampleShape` |
| `Models.SampleShape` | Shared/Models.swift:29-43 | the sample plan is run 300, rest 60, run 300, and is shown by its stored title `2×(5:00 run / 1:00 rest)` |
| `Models.SampleUntitled` | Shared/Models.swift:29-55 | without its title the sample plan falls back to `Running • 11 min` |
| `LiveStream.SecondsPerKm` | FitnessShowcase/LiveStreamViewModel.swift:44-46 | `Int(1000.0 / v)` for positive `v` is the whole number n with `n <= 1000 / v < n + 1` |
| `LiveStream.Pace` | FitnessShowcase/LiveStreamViewModel.swift:42-48 | the pace is `--:--` exactly when the speed is absent or not positive; otherwise it is `m:ss` with minutes without leading zeros, two-digit seconds below 60 and `m * 60 + ss` the truncated seconds per km |
| `LiveStream.PaceAtTenKmPerHour` | FitnessShowcase/LiveStreamViewModel.swift:43-47 | 2.7778 m/s renders `5:59` (truncation), speed 0 and no speed render `--:--` |
| `LiveStream.HighWaterIsMax` | FitnessShowcase/LiveStreamViewModel.swift:20-27 | the high-water mark is at least the start value and every arrived number, and is one of them |
| `LiveStream.AcceptedIncreasing` | FitnessShowcase/LiveStreamViewModel.swift:25-27 | the accepted snapshots come from the input, lie above the start value and below the high-water mark, and their sequence numbers strictly increase |
| `LiveStream.AcceptedKeepsFresh` | FitnessShowcase/LiveStreamViewModel.swift:26-27 | a snapshot whose number beats everything before it is accepted |
| `LiveStream.AcceptedOnlyFresh` | FitnessShowcase/LiveStreamViewModel.swift:26-27 | every accepted snapshot arrived at a point where its number beat everything before it |
| `LiveStream.Merge` | FitnessShowcase/LiveStreamViewModel.swift:27-34 | merging records the snapshot's number, and a snapshot with no title, heart rate, distance or energy leaves those display fields as they were; the per-field rules are `StepAccepts` |
| `LiveStream.Step` | FitnessShowcase/LiveStreamViewModel.swift:26-34 | one arrival never lowers `lastSeq`, and either changes nothing or raises `lastSeq` to a number strictly above the old one |
| `LiveStream.StepRejects` | FitnessShowcase/LiveStreamViewModel.swift:26 | a duplicate or older snapshot changes neither `lastSeq` nor any display field |
| `LiveStream.StepAccepts` | FitnessShowcase/LiveStreamViewModel.swift:27-34 | on acceptance `lastSeq` becomes the snapshot's number; heart rate, kcal and title take present values and keep old ones when absent; distance becomes metres / 1000 when present; the pace is recomputed |
| `LiveStream.StepPaceOverwrites` | FitnessShowcase/LiveStreamViewModel.swift:34 | the pace text after acceptance does not depend on the previous display, and is `--:--` without a speed |
| `LiveStream.StepDuplicate` | FitnessShowcase/LiveStreamViewModel.swift:25-26 | receiving the same snapshot twice has the effect of receiving it once |
| `LiveStream.FirstSnapshotAccepted` | FitnessShowcase/LiveStreamViewModel.swift:20-26 | from the initial state, the first snapshot with any non-negative number is accepted |
| `LiveStream.FoldLastSeq` | FitnessShowcase/LiveStreamViewModel.swift:20-27 | after any stream, `lastSeq` is the largest of -1 and every number that arrived |
| `LiveStream.Fold` | FitnessShowcase/LiveStreamViewModel.swift:20-35 | `lastSeq` never decreases over a stream; its exact value is `FoldLastSeq` |
| `LiveStream.FoldMergesAccepted` | FitnessShowcase/LiveStreamViewModel.swift:25-35 | the filtered display equals merging the accepted subsequence alone: rejected snapshots leave no trace |
| `LiveStream.AcceptedSingle` | FitnessShowcase/LiveStreamViewModel.swift:26-27 | a lone snapshot above the start value is accepted and becomes the high-water mark |
| `LiveStream.LostMiddleSnapshot` | FitnessShowcase/LiveStreamViewModel.swift:25-27 | with 0 and 2 arriving (1 lost), both are accepted and `lastSeq` ends at 2 |
| `LiveStream.LateAndDuplicateDropped` | FitnessShowcase/LiveStreamViewModel.swift:25-27 | after 0 and 2, a late 1 and a repeated 2 are dropped and the display is as after 0 and 2 alone |
| `LiveStream.RestartedCounterDropped` | FitnessShowcase/LiveStreamViewModel.swift:20-27 | `lastSeq` is never reset, so after a snapshot numbered n any later snapshot numbered 1..n (a restarted counter) leaves the display as it was |
| `LiveStream.LiveStreamViewModel.constructor` | FitnessShowcase/LiveStreamViewModel.swift:13-38 | initial state: `lastSeq = -1`, heart rate, distance and kcal 0, pace `--:--`, no plan title; `isConnected` is the reachability at creation |
| `LiveStream.LiveStreamViewModel.OnSnapshot` | FitnessShowcase/LiveStreamViewModel.swift:23-36 | the handler's new state is one `Step` from the old; a rejected snapshot leaves it unchanged; an accepted one sets `lastSeq` to its number |
| `LiveStream.LiveStreamViewModel.OnMessageData` | FitnessShowcase/IOSConnectivity.swift:48-51 | a payload that fails to decode changes nothing; a decoded one goes through the handler |
| `PlanPresets.ToPlan` | FitnessShowcase/PlanPresets.swift:26-55 | `toPlan()` (its 4×1 loop included) builds exactly each preset's plan |
| `PlanPresets.Id` | FitnessShowcase/PlanPresets.swift:15 | the id is the case's raw value, a non-empty name; distinctness is `IdsDistinct` |
| `PlanPresets.Title` | FitnessShowcase/PlanPresets.swift:17-24 | every preset's title is non-empty |
| `PlanPresets.IdsDistinct` | FitnessShowcase/PlanPresets.swift:10-15 | `allCases` lists every preset, the presets in it are pairwise distinct and so are their raw-value ids |
| `PlanPresets.PresetPlanShape` | FitnessShowcase/PlanPresets.swift:26-55 | every preset plan is a "running" plan titled with the preset's title, with at least one interval, each of positive duration |
| `PlanPresets.PresetTotals` | FitnessShowcase/PlanPresets.swift:28-53 | the presets last 1200, 1440, 1620 and 3600 seconds |
| `PlanPresets.PresetDisplayTitle` | FitnessShowcase/PlanPresets.swift:17-31 | every preset title is non-empty, so each preset plan is shown by its own title |
| `PlanPresets.FourByOneUntitled` | FitnessShowcase/PlanPresets.swift:33-39 | with its title removed, the 4×1 plan is shown as `4×(5:00 run / 1:00 rest) • Running` |

## Left out

- `FitnessShowcase/IOSConnectivity.swift` beyond the decode at line 49: session activation, reachability callbacks, `sendMessage`, `updateApplicationContext` and the async plan send are foreign I/O. JSON decoding itself is not modelled; its outcome is the `Option<LiveSnapshot>` input of `OnMessageData`.
- The `DispatchQueue.main.async` hop in the handler: the field updates are modelled as happening at once with the `lastSeq` update, so no interleaving between the two is captured.
- `isConnected` is only set at construction, as in the source; live reachability observation is outside the model.
- `[weak self]` and the `guard let self` check: object lifetime is not modelled.
- Doubles: speeds, distances and energy are exact `real`s, so IEEE rounding of `1000.0 / v` and `m / 1000.0` is not captured.
- LiveStream.SecondsPerKm: does not model the trap of `Int(...)` when `1000 / v` is beyond the 64-bit range (speeds below about 1e-16 m/s); integers are unbounded throughout, including `seq`, `hr` and `ts`.
- Interval durations are whole seconds (`nat`); a fractional `TimeInterval` and its truncation by `Int(t)` and `Int(total / 60)` are not modelled, and negative durations cannot be expressed.
- Format.Capitalized: `String.capitalized` is modelled for ASCII letters with words separated by spaces only; Unicode case mapping and other word separators are not captured.
- `String(format:)` is replaced by the hand-written decimal rendering and two-digit pad in `Format`.
- `WorkoutSummary` and `Date.unixMillis`: plain data and a clock conversion, with no logic to model.
- SwiftUI views (`DashboardView.swift`, `FitnessShowcaseApp.swift`) and the watch-side engine, simulated sensor and snapshot producer are not part of this model.
