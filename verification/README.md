# ExterminateGlobals.JS, modelled in Dafny

ExterminateGlobals.JS finds "unwanted globals": keys that code added to a monitored object (usually `window`) between two points. A `GlobalsCollector` takes a baseline snapshot of the object's own keys in `startCollecting`. Later, `collect` takes a second snapshot and returns the keys the baseline lacks. Both snapshots leave out an ignore list. That list always holds the tool's own global, `ExterminateGlobals`. A module-level facade (`ExterminateGlobals.startCollecting` / `ExterminateGlobals.collect`) holds at most one collector in a slot. An older root script (`app.start` / `app.stop`) does the same diff with module-level variables.

The model is functional:

- `wrappers.dfy` (`Wrappers`): `Option`, which stands for `null`/`undefined`, and `Result`, which stands for return-or-throw.
- `keys.dfy` (`Keys`): key lists are `seq<string>` in `Object.keys` order. `Without(keys, exclude)` is the `filter(k => exclude.indexOf(k) === -1)` that both the snapshot and the diff use. `CollectMembers` is the loop form of that filter. The file also holds the order, count and cardinality facts about the filter.
- `collector.dfy` (`Collector`): the collector is an immutable record. Its operations are pure transitions. Every operation that enumerates the object receives that moment's key list as a parameter. The `localStorage` entry `GlobalsCollector_unwanted_globals` is one `Option<string>` cell, passed in and returned.
- `facade.dfy` (`Facade`): the slot is a state machine over `Option<Collector>`. Its two misuse errors are `AlreadyActive` and `NotActive`.
- `legacy.dfy` (`Legacy`): the root script's start/stop figures, and their agreement with the collector.

The equal-length shortcut of `collect` is modelled as written. When the second snapshot has as many keys as the baseline, `collect` returns `[]` and changes nothing, even if one key was swapped for another. So "every added key is reported" is proved only when no baseline key has vanished (`Collector.CollectReportsAddedKeys`). `Collector.SwappedKeyGoesUnreported` shows a concrete swapped key going unreported. The root script has the same shortcut.

Two further facts about the JavaScript that the model keeps:

- `monitoredObject || window` means a missing monitored object falls back to `window` (src/ExterminateGlobals.js:42).
- On the equal-length path, `collect` leaves `_unwantedGlobals` and the stored entry alone (src/ExterminateGlobals.js:115-117).

## Model

| member | source | states |
|---|---|---|
| Keys.Without | src/ExterminateGlobals.js:236-248 | The snapshot keeps exactly the keys that are not ignored. It is never longer than the key list. A key list without repeats gives a snapshot without repeats. |
| Keys.WithoutIsSubsequence | src/ExterminateGlobals.js:239-245 | The snapshot keeps the host's enumeration order: it is a subsequence of the key list. |
| Keys.WithoutCounts | src/ExterminateGlobals.js:239-245 | Each non-ignored key keeps all its occurrences. Each ignored key loses all of them. |
| Keys.CollectMembers | src/ExterminateGlobals.js:236-248 | The one-pass scan that appends each non-ignored key builds exactly the filtered list. |
| Keys.WithoutAppend | src/ExterminateGlobals.js:239-245 | Filtering a concatenation is the concatenation of the filtered parts. This is why a left-to-right scan is correct. |
| Keys.WithoutWithout | src/ExterminateGlobals.js:112-125 | Removing the ignored keys and then the baseline keys is one filter by both lists. |
| Keys.WithoutLength | src/ExterminateGlobals.js:113-117 | Suppose neither list repeats a key and every baseline key is still present. Then the diff is exactly as long as the difference of the snapshot lengths. |
| Keys.DistinctCardinality | src/ExterminateGlobals.js:237 | A key list without repeats has as many distinct keys as entries. |
| Collector.IgnoreList | src/ExterminateGlobals.js:36-46 | The ignore list starts with the caller's list in the caller's order (empty for null). It always contains the sentinel. It is one longer than the caller's list exactly when the caller's list lacked the sentinel. |
| Collector.New | src/ExterminateGlobals.js:35-52 | A new collector has the ignore list above and the given object, or the window. Its baseline and report are empty, saving is off, and the collector invariant holds. |
| Collector.SaveUnwantedGlobals | src/ExterminateGlobals.js:61-63 | Only the save flag changes. The invariant is kept. |
| Collector.ClearSavedUnwantedGlobals | src/ExterminateGlobals.js:69-71 | The storage cell is emptied whatever the save flag says. |
| Collector.StartCollecting | src/ExterminateGlobals.js:78-85 | The baseline is the set of current keys that are not ignored, in host order, without repeats when the keys have none. The report is reset to empty. The ignore list, object and flag are unchanged, and the invariant is kept. |
| Collector.Collect | src/ExterminateGlobals.js:111-139 | Neither the baseline nor the ignore list changes. On equal snapshot lengths it returns `[]` and changes neither the collector nor the cell. Otherwise it returns and records the non-ignored keys absent from the baseline, in host order, each once when the key list has no repeats (`Object.keys` never repeats). The cell is overwritten with the comma-joined list only when saving is on. |
| Collector.StoreUnwantedGlobals | src/ExterminateGlobals.js:133-139 | The cell becomes `Some(Join(report, ","))` exactly when saving is on; a one-key report is stored as that key. Otherwise the cell is unchanged. |
| Collector.GetMonitoredObject | src/ExterminateGlobals.js:141-147 | Returns the object the collector watches. |
| Collector.MonitoredObjectFixed | src/ExterminateGlobals.js:42 | No step of a session changes the watched object: after a save toggle, a start and a collect, the getter still returns the constructor's object, or the window when none was given. |
| Collector.GetIgnoredKeys | src/ExterminateGlobals.js:149-156 | The returned ignore list always holds `ExterminateGlobals`. |
| Collector.GetUnwantedGlobals | src/ExterminateGlobals.js:158-164 | The returned report never holds an ignored key. |
| Collector.CollectReportsAddedKeys | src/ExterminateGlobals.js:111-130 | Suppose no baseline key vanished and keys are distinct. Then `collect` after `startCollecting` returns exactly the added non-ignored keys, once each, in host order. The shortcut does no harm here. |
| Collector.SwappedKeyGoesUnreported | src/ExterminateGlobals.js:112-117 | Take baseline `[a]` and end state `[b]`. Key `b` is new and not ignored, yet `collect` returns `[]`. |
| Collector.CollectTwiceSameResult | src/ExterminateGlobals.js:111-130 | A second `collect` on an unchanged object returns the same list and leaves the same collector and cell. |
| Collector.NothingAddedNothingReported | src/ExterminateGlobals.js:78-117 | `collect` straight after `startCollecting` on an unchanged object returns `[]` and leaves the cell alone. |
| Collector.ConstructorExamples | spec/ExterminateGlobals.js:17-63 | The constructor cases the repository's own specs expect: `[ExterminateGlobals]` for no list, `['foo','bar','ExterminateGlobals']`, a list that already has the sentinel kept as given, and an empty report. |
| Collector.GettersAfterNew | src/ExterminateGlobals.js:145-164 | After construction the getters return the given object (or the window), the ignore list with the caller's keys first and the sentinel present, and an empty report. |
| Collector.SaveAndClearExample | src/ExterminateGlobals.js:133-139 | With saving on, `{foo}` gaining `bla` reports `['bla']` and stores `"bla"`. Clearing empties the cell. |
| Facade.StartCollecting | src/ExterminateGlobals.js:208-217 | It fails with `AlreadyActive` exactly when the slot is occupied. Otherwise the slot holds a freshly started collector with saving off, and the cell is untouched. |
| Facade.Collect | src/ExterminateGlobals.js:224-233 | It fails with `NotActive` exactly when the slot is empty. Otherwise it runs the held collector's `collect` and empties the slot. |
| Facade.StartTwiceFails | src/ExterminateGlobals.js:208-213 | From idle, a start succeeds and a second start fails with `AlreadyActive`. |
| Facade.SessionCycle | src/ExterminateGlobals.js:208-233 | Start, collect and start again all succeed, and the collect leaves the slot empty. |
| Facade.FacadeLeavesStoreAlone | src/ExterminateGlobals.js:215-232 | In any state the facade can reach, its `collect` leaves the storage cell unchanged, because its collectors never save. |
| Legacy.IgnoreList | ExterminateGlobals.js:21-26 | No list gives `['ExterminateGlobals']`. Otherwise the caller's list gets the sentinel appended when missing. The result always equals the newer constructor's list. |
| Legacy.Start | ExterminateGlobals.js:20-29 | The baseline is the current keys minus the ignored ones, in host order, without repeats when the keys have none. The ignore list holds the sentinel. |
| Legacy.Stop | ExterminateGlobals.js:34-62 | It fails before any start. It reports nothing found exactly when the snapshot lengths are equal. Otherwise the count is the length difference, and the list holds the end keys absent from the baseline, in end order. |
| Legacy.CountMatchesList | ExterminateGlobals.js:35-56 | Suppose no non-ignored baseline key vanished and keys are distinct. Then a reported count is positive and equals the length of the reported list. |
| Legacy.AgreesWithCollector | ExterminateGlobals.js:50-56 | The root script and the collector build the same ignore list, object and baseline. When `stop` finds something, its list is what `collect` returns. When it finds nothing, `collect` returns `[]`. |

## Left out

- `print` (src/ExterminateGlobals.js:171-199) and the console output of `app.stop`: they are output only. `print` reads the collector and changes none of its state. So the facade's `collect` takes no print mode.
- The print-mode constants `PRINT_FULL` / `PRINT_COMPACT`: they are labels used only by `print`.
- `_insertBreakPoints` (src/ExterminateGlobals.js:88-105): it installs `Object.defineProperty` setters with `debugger`. That is host-level property interception. `startCollecting` therefore does not read the storage cell, and splitting the saved string is not modelled.
- `TEST_MODE` and the test-only slot accessors (src/ExterminateGlobals.js:14-16, 252-264): test plumbing. The model exposes the slot directly.
- Aliasing: the model has value semantics. "The collector copies the caller's list" and "getters return copies" hold by construction, and no member states them. The model also cannot express that `collect` returns the live `_unwantedGlobals` array rather than a copy (src/ExterminateGlobals.js:129), so a caller who mutates that result changes what `getUnwantedGlobals` and `print` see later. For the same reason the root script's push into the caller's array is not modelled.
- Facade.Collect: `print` is assumed to return. `egjs.collect` sets the slot to `null` only after `print` returns (src/ExterminateGlobals.js:230-232). If `print` throws, the source keeps the slot occupied, and the next start fails with "already in progress". `print` throws when `console.group` is missing (line 174) or when full mode reads a throwing getter (line 192).
- Collector.StartCollecting: `_insertBreakPoints` is not modelled, so neither is its failure. Its `Object.defineProperty` call can throw a `TypeError` (src/ExterminateGlobals.js:95). An example is a second start in the same page once a key is saved, because the first start left that key non-configurable. The throw comes after the baseline is taken (lines 82-84), so the collector keeps the new baseline even though the call fails.
- Facade.StartCollecting: the same `TypeError` escapes from the facade after the slot is already filled (src/ExterminateGlobals.js:215-216). The source then holds an active session although the call threw. The model's start always succeeds on an empty slot.
- Collector.SaveUnwantedGlobals: the flag is a `bool`. In the source, any value other than the literal `false` enables saving, because of the `=== false` test. That case is not modelled.
- The monitored object's values: only its keys matter to the diff. The object's identity is a `HostObject` token.
- Gruntfile.js: build configuration.
