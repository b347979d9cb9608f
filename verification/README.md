# Fractal.js core, modelled in Dafny

Fractal.js is a browser charting library. It asks a Fractalis backend for data
and analyses and renders the results as charts inside host-page containers.
This project models the library's sequential logic. It covers:

- the analysis task runner that chart components mix in (`runAnalysis`);
- the chart-state long-poll (`getState`, `chart2id`, `id2chart`);
- the label helpers of the chart mixins;
- `init` validation and the frontend/backend version check;
- the chart registry;
- the shared store.

HTTP, timers, the DOM and Vue are replaced by plain inputs:

- backend answers are sequences or functions of the poll index;
- waits are integers in milliseconds;
- a selector is the list of elements it matches;
- a Vue instance is its component name plus a capability flag.

Modules, one per source component:

| module | file | models |
|---|---|---|
| `Outcomes` | outcomes.dfy | `Option` and `Result`, for `undefined` and for thrown errors / rejected promises |
| `Js` | js_values.dfy | JavaScript values and truthiness, `substr`, `split`/`join`, `Math.ceil`/`Math.floor` of halves |
| `TextUtils` | text_utils.dfy | `truncate`, `truncateTextUntil`, `tweenGroup` |
| `ChartManager` | chart_manager.dfy | the chart registry, `setChart`, `getAvailableCharts` |
| `StateManager` | state_manager.dfy | the `getState` backoff loop, `chart2id` guards, `id2chart` |
| `RunAnalysis` | run_analysis.dfy | the task registry, the status poll loop, cancellation of superseded tasks |
| `Store` | store.dfy | the initial state, the mutations, the validating actions, `resetState` |
| `FractalMain` | fractal_main.dfy | `init`, the version comparison, `deleteSubsets` |

The `getState` loop in the source counts milliseconds: it keeps polling while
`timeWaited <= 900000`. `StateManager.GetState` is that loop, and it is proved
equal to `StateManager.PollFrom`, which counts polls instead. With delays of
200, 300, … ms capped at 3000 ms, the budget allows exactly 314 polls. When none
of them answers with status 200, the loop has waited exactly 901400 ms.

The source of the `runAnalysis` mixin, of the store actions and of the mutation
types is not part of this model. For those, the model follows the behaviour
that `test/runAnalysis-test.js` and `test/store-test.js` pin down.

Facts about the code and its tests that the model follows:

- A task stays in the component's registry after it settles:
  test/runAnalysis-test.js:81-86 expects one entry after a completed run, and a
  cancel when the same name runs again.
- `setSubsetLabels` does not compare the number of labels with the number of
  subsets: the tests accept three labels while the subsets list is empty.
- When the budget runs out, `getState` resolves with no value (`undefined`).
  `id2chart` then fails reading `chartName` of `undefined`;
  `StateManager.Id2Chart` reports that as `UndefinedState`.
- `setSubsets` on the library object takes a single argument; labels are set
  through their own action.

## Model

| member | source | states |
|---|---|---|
| `TextUtils.EffectiveSeparator` | src/vue/mixins/utils.js:9 | a missing or empty separator becomes `'...'`; any other separator is kept |
| `TextUtils.Truncate` | src/vue/mixins/utils.js:6-17 | text no longer than `strLen` comes back unchanged; a longer text becomes exactly `strLen` characters when `strLen` leaves room for the separator, and just the separator when it does not |
| `TextUtils.TruncateKeepsBothEnds` | src/vue/mixins/utils.js:11-16 | a truncated text is the first ceil(k/2) characters, the separator, then the last floor(k/2) characters, k = strLen − separator length; the front is at most one character longer than the back |
| `TextUtils.ShrinkStepLength` | src/vue/mixins/utils.js:35-37 | one shrinking step (default separator, `strLen = length − 5`) leaves max(length − 5, 3) characters, so the loop ends |
| `TextUtils.ShrinkToFit` | src/vue/mixins/utils.js:35-38 | the shrinking loop ends with a text that fits the width or has at most 3 characters, is never longer than the input, and is the input itself when that already fits |
| `TextUtils.TruncateTextUntil` | src/vue/mixins/utils.js:31-39 | `''` when the limit is not a number or not positive; a NaN limit returns the text unchanged; otherwise the loop's result equals the recursive definition and fits or has at most 3 characters |
| `TextUtils.TweenGroup` | src/vue/mixins/utils.js:41-51 | the mutation gets the target itself when the model is empty; otherwise a list as long as the target, holding the model's items where the model has them and the target's items beyond |
| `ChartManager.Register` | src/services/chart-manager.js:9 | registering maps the component's name to it; a component with an existing name replaces the old one and keeps its key position, and a new name goes last |
| `ChartManager.Build` | src/services/chart-manager.js:4-11 | the registry built from the discovered components is consistent, and its names are exactly the components' names |
| `ChartManager.BuildKeepsLast` | src/services/chart-manager.js:7-10 | each name maps to the last component discovered with that name |
| `ChartManager.GetAvailableCharts` | src/services/chart-manager.js:36-38 | the available names are exactly the registry's names, each listed once |
| `ChartManager.SetChart` | src/services/chart-manager.js:19-34 | an unknown name fails first, whatever the selector matches; then a selector that does not match exactly one element fails with the match count; success exactly when both hold, mounting the named component fresh and appending exactly one host to the container |
| `ChartManager.SetChartAfterBuild` | test/chart-manager-test.js:22-25 | every chart found at construction mounts by its name into a container its selector matches alone, and the mounted component is the last one found under that name |
| `StateManager.DelayRecurrence` | src/services/state-manager.js:42-47 | the first delay is 200 ms and each later one is min(previous + 100, 3000); delays never decrease |
| `StateManager.PollBudget` | src/services/state-manager.js:43-45 | the loop condition `timeWaited <= 900000` holds before exactly the first 314 polls; after 314 polls the time waited is 901400 ms |
| `StateManager.ScheduleShape` | src/services/state-manager.js:42-47 | the delays taken start at 200 ms, follow min(previous + 100, 3000), lie in [200, 3000] and are non-decreasing |
| `StateManager.ScheduleTotal` | src/services/state-manager.js:43-45 | the delays add up to the time waited, at most 901400 ms within the budget |
| `StateManager.PollFrom` | src/services/state-manager.js:43-52 | polling by count stops at the first rejected or status-200 reply and makes at most 314 polls; the budget runs out only after all 314 |
| `StateManager.PollFromObserved` | src/services/state-manager.js:43-53 | every poll before the last was not ready; a value is the state of a status-200 reply; a rejection comes from a rejected reply; no value exactly when no poll in the budget is ready or rejected |
| `StateManager.PollFromFindsFirstReady` | src/services/state-manager.js:48-51 | when poll k is the first status-200 reply, its state is returned after exactly k + 1 polls and no later poll is made |
| `StateManager.PollsObserved` | src/services/state-manager.js:43-53 | the whole loop from the first poll: between 1 and 314 polls; returns the first status-200 state within the budget; no value (undefined) exactly when none of the 314 polls is ready or rejected |
| `StateManager.GetState` | src/services/state-manager.js:36-53 | access is requested once, before any poll, and a denial makes no poll; the polls go in order 0, 1, …, each after a delay from the schedule; the time-budgeted loop settles exactly as the count-based `PollFrom` |
| `StateManager.Chart2Id` | src/services/state-manager.js:10-23 | the callback is registered exactly when the selector matches one element whose Vue component is named `chart` and whose parent accepts a state-changed callback; the element count is checked first, then the component name |
| `StateManager.Id2Chart` | src/services/state-manager.js:61-65 | a denial, a rejected poll or an exhausted budget fails, each with its own error; otherwise the chart named in the first status-200 state is mounted at the selector, or the mounting error is reported; a mounted chart without `_setState` fails with the container that already holds it, and one with `_setState` gets that state's chart state applied |
| `RunAnalysis.Settle` | test/runAnalysis-test.js:20-55 | `SUCCESS` resolves with exactly the reported result, `FAILURE` rejects as a failed analysis, any other non-`SUBMITTED` state rejects as unknown |
| `RunAnalysis.Poll` | test/runAnalysis-test.js:20-74 | polling continues through `SUBMITTED` replies and settles on the first other reply; if the replies run out, every one was `SUBMITTED` |
| `RunAnalysis.SuccessResolves` | test/runAnalysis-test.js:34-45 | a first `SUCCESS` reply resolves with exactly its result after one poll |
| `RunAnalysis.SubmittedThenSuccess` | test/runAnalysis-test.js:57-74 | k `SUBMITTED` replies followed by `SUCCESS` mean exactly k + 1 status polls and the reported result |
| `RunAnalysis.RunAnalysis` | test/runAnalysis-test.js:76-91 | a run cancels the task registered under its name, if any, before submitting; it registers the new task (which stays after settling) and then polls only the new task's status |
| `RunAnalysis.RunCounts` | test/runAnalysis-test.js:82-90 | a run issues one cancel exactly when its name is registered, and adds a registry entry exactly when it is not |
| `RunAnalysis.CancelsOnlyOwnName` | test/runAnalysis-test.js:88-90 | a run leaves other names' entries untouched, and its only cancel targets the task under its own name |
| `RunAnalysis.CancelScenario` | test/runAnalysis-test.js:76-91 | same name twice then another name: registry sizes 1, 1, 2, cancel counts 0, 1, 1, each run resolving with its result |
| `Store.ResetState` | src/store/store.js:9-39 | reset gives the initial state: empty data, tasks and subsets, null managers, a control panel neither locked nor expanded, no id filters, control panel on the left, labels undefined |
| `Store.ResetUndoesMutations` | src/store/store.js:35-39 | reset after any sequence of mutations restores the initial state, and resetting twice equals resetting once |
| `Store.SetData` | src/store/mutations.js:4-6 | `SET_DATA` sets `data` to the given value and changes no other field |
| `Store.SetRequestManager` | src/store/mutations.js:7-9 | `SET_REQUEST_MANAGER` sets `requestManager` to the given value and changes no other field |
| `Store.SetSubsets` | src/store/mutations.js:10-12 | `SET_SUBSETS` sets `subsets` to the given value and changes no other field |
| `Store.MutationsIdempotent` | src/store/mutations.js:4-12 | applying a mutation twice equals applying it once; of two mutations of one field the last wins |
| `Store.MutationsOfDifferentFieldsCommute` | src/store/mutations.js:4-12 | mutations of different fields can be applied in either order |
| `Store.DispatchSetSubsets` | test/store-test.js:5-23 | subsets are accepted exactly when they are an array of arrays of ids, and are then read back unchanged with nothing else changed; anything else is rejected |
| `Store.DispatchSetSubsetLabels` | test/store-test.js:26-48 | labels are accepted exactly when they are an array of non-blank strings (duplicates allowed), and are then read back unchanged |
| `Store.OneBadLabelRejects` | test/store-test.js:39-48 | a single empty, whitespace-only, null or non-string label rejects the whole list |
| `Store.DispatchSetRequestManager` | test/store-test.js:51-67 | only a `RequestManager` instance is accepted, and it is then stored |
| `Store.StoreTestCases` | test/store-test.js:6-67 | the store tests' accepted and rejected values |
| `FractalMain.InitAsWritten` | src/main.js:118-131 | `init` as written: every error message names the `handler` property |
| `FractalMain.Init` | src/main.js:118-131 | `init` succeeds exactly when handler, dataSource, fractalisNode and getAuth are all truthy, and builds the instance from them (options may be absent); otherwise it throws for the first falsy one, in that order |
| `FractalMain.InitDiffersOnlyInMessage` | src/main.js:119-130 | the written and the corrected `init` throw for the same arguments, with the same value, and build the same instance |
| `FractalMain.InitAsWrittenBlamesHandler` | src/main.js:122-124 | with an empty dataSource the written message blames `handler` |
| `FractalMain.InitTestCases` | test/main-test.js:4-17 | each initializer test call that misses a property throws |
| `FractalMain.VersionMismatch` | src/main.js:25-31 | identical versions never warn |
| `FractalMain.VersionMismatchSymmetric` | src/main.js:31 | the warning decision is the same with frontend and backend swapped |
| `FractalMain.VersionWarnsIffMajorOrMinorDiffers` | src/main.js:25-34 | for dot-separated versions it warns exactly when the majors or minors differ; patch and later parts are ignored |
| `FractalMain.MissingMinorWarns` | src/main.js:25-31 | a version without a minor part mismatches one with the same major and a minor |
| `FractalMain.DeleteSubsets` | src/main.js:68-70 | `deleteSubsets` is dispatching `setSubsets` with the empty list: accepted, subsets become empty, nothing else changes |

## Left out

- src/services/request-manager.js: the axios HTTP wrapper. Backend answers are inputs to the poll loops: the analysis status replies, the `getState` replies, whether access is granted, and the submitted task id.
- Timers and promises: waits are recorded as integers (`delays`), not waited. A rejected promise is an `Err` or `Rejected` value.
- DOM querying, Vue mounting and `__vue__` introspection. A selector is the list of elements it matches. A Vue instance is its component name plus whether its parent accepts a state-changed callback.
- `getTextWidth`: canvas measurement. The font and the measurement together are an uninterpreted `width` function.
- The GSAP tweens in `tweenGroup`. Only the list passed to the mutation is modelled.
- `getPolygonPointsForSubset`: floating-point numbers formatted into SVG strings.
- The font `require`s in src/main.js and webpack.config.js: build configuration.
- `_versionCheck`'s backend fetch and `console.warn`. Only the warn-or-not decision is modelled.
- src/store/getters.js: plain projections. They are read as record fields in the set-then-read statements.
- The FractalJS constructor's dispatches of `setChartManager`, `setStateManager`, `updateData` and `setOptions`, whose actions are not part of this model.
- The class methods `loadData`, `removeAllCharts`, `clearCache`, `getChartParameterDescription` and `setChartParameter`. They only forward to HTTP calls or chart-manager code that is not part of this model. `setChart`, `getAvailableCharts` and `setSubsets` forward to `ChartManager.SetChart`, `ChartManager.GetAvailableCharts` and `Store.DispatchSetSubsets`.
- The `chart2id` callback's `saveState` request and the state id it returns. `StateManager.StoredState` is the saved record; `StateManager.Id2Chart` states the matching restore.
- RunAnalysis.RunAnalysis: a failed submission and a rejected status request are not modelled, because the mixin's handling of them is not pinned down by its tests.
- RunAnalysis.RunAnalysis: the poll delay, and interleaving of two pending runs, are not modelled. Runs are sequential, as in the tests. A run whose replies end while still `SUBMITTED` is `StillPolling`, and re-running its name cancels it like a settled task.
- RunAnalysis.Poll: an endless stream of `SUBMITTED` replies is represented by a finite prefix that ends in `StillPolling`.
- Store.DispatchSetSubsets: the rule for the ids inside a subset (booleans, numbers or strings) is this model's choice. The tests only fix that every subset must be an array.
- `resetState`'s JSON deep copy: values in this model are immutable, so the snapshot is the initial record itself. The initial record holds only JSON data, which a JSON round trip reproduces unchanged.
- TextUtils.Truncate: `strLen` is an integer, and a separator is a string or absent. Fractional lengths and non-string separators are not modelled.
- TextUtils.TruncateTextUntil: numbers are reals plus NaN. Infinite limits are not modelled.
- TextUtils.Truncate: lengths and `substr` count Unicode characters, where JavaScript counts UTF-16 code units, so a text with characters outside the Basic Multilingual Plane (an emoji, say) is cut at different places and never split inside a surrogate pair.
- TextUtils.ShrinkToFit: the `length > 3` test and each shrinking step count Unicode characters, not UTF-16 code units, with the same consequence for characters outside the Basic Multilingual Plane.
- TextUtils.TruncateTextUntil: inherits the Unicode-character count of `TextUtils.Truncate` and `TextUtils.ShrinkToFit` in place of UTF-16 code units.
- Store.DispatchSetSubsetLabels: the label rule (an array whose every element is a string that is not blank after trimming the whitespace set of `String.prototype.trim`) is this model's choice. The tests only fix that `''`, `'  '`, `null` and `2` are rejected and that strings, duplicates and the empty list are accepted.

## Findings

| source | as written | input that shows it | evidently intended | confidence | as-written member | corrected member |
|---|---|---|---|---|---|---|
| src/main.js:122-130 | the errors for a missing `dataSource`, `fractalisNode` or `getAuth` all say "handler property must not be …" | `init({handler: 'foo', dataSource: '', fractalisNode: 'foo', getAuth})` throws "handler property must not be " | the message names the property that failed its check | high; not executed | `FractalMain.InitAsWrittenBlamesHandler` | `FractalMain.Init` |
