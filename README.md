# FreeRCT game level and file reading, modelled in Dafny

This project models the core of FreeRCT's game flow in three parts.

- **The RCD file reader** (`RcdFileReader`). It reads little-endian
  integers, NUL-terminated texts and blobs from a data file. It also checks
  file headers, block headers and block versions, and the length checks that
  loaders use to report short, missing or trailing bytes.
- **The game level** (`gamelevel.cpp`):
  - the scenario settings and their `SCNO` save pattern in versions 0 to 3;
  - the objective tree (a container of guest-count, park-rating and empty
    objectives), its `OJAO`/`OJCN`/`OJ00`/`OJGU`/`OJRT` save patterns and its
    daily evaluation with the drop policy;
  - the spawn-probability interpolation;
  - loading a mission block: the accounting of its length and the rule that
    decides how many solved scenarios unlock each scenario.
- **The game control** (`gamecontrol.cpp`):
  - the speed setting and its tick factor;
  - the pending game action (new, load, save, quit) and how it is run;
  - the gate that refuses build or remove actions while paused or short of cash;
  - the rule that picks the more important of two refusal reasons.

The modules are:

- **`LoadErrors`**: the loading errors, and the `Result`/`Outcome` wrappers
  that stand for a thrown `LoadingError`.
- **`RcdReader`**: the class `RcdFileReader` over the file's bytes.
- **`PatternStream`**: the save game as a sequence of tokens. It holds:
  - a pattern start (tag and version), a pattern end, and a byte, word, long
    or text;
  - the pure readers of one token each;
  - the classes `Saver` and `Loader` that append and consume tokens.
- **`Objectives`**: the objective tree as a value, with its encoding and
  decoding.
- **`ObjectiveRoundTrip`**: the lemmas that decoding undoes encoding, rejects
  newer versions and reads only what it consumes.
- **`ObjectiveStorage`**: the imperative `Save`/`Load` methods, proved equal
  to the encoding and decoding functions.
- **`ObjectiveDays`**: the daily evaluation, written both as the program has
  it and as its messages say it is meant to work.
- **`Scenarios`**: the class `Scenario`, and the `SCNO` layouts of every
  version.
- **`Missions`**: loading a mission block.
- **`GameControls`**: the speed, the reasons, the action gate, and the
  classes `GameModeManager` and `GameControl`.

A few conventions hold across the model:

- Integers are unbounded. The C++ conversions that wrap are written out: the
  16- and 32-bit truncation when saving, the signed reading of an unsigned
  32-bit length, and the unsigned subtraction in the drop policy.
- A loading error that the C++ code throws becomes an `Err` value carrying
  the same information.

## Model

| member | source | states |
|---|---|---|
| RcdReader.RcdFileReader.constructor | src/fileio.cpp:128-144 | a file that cannot be opened is treated as empty; reading starts at offset 0 |
| RcdReader.RcdFileReader.GetRemaining | src/fileio.cpp:192-195 | the bytes left are the file size minus the position, and 0 once the position is at or past the end |
| RcdReader.RcdFileReader.GetUInt8 | src/fileio.cpp:202-206 | returns the byte at the position and advances by one |
| RcdReader.RcdFileReader.GetInt8 | src/fileio.cpp:213-216 | returns the byte read as a two's complement value in [-128, 128) |
| RcdReader.RcdFileReader.GetUInt16 | src/fileio.cpp:223-227 | returns the two bytes as a little-endian value and advances by two |
| RcdReader.RcdFileReader.GetInt16 | src/fileio.cpp:234-238 | the little-endian 16-bit value read as two's complement, in [-32768, 32768) |
| RcdReader.RcdFileReader.GetUInt32 | src/fileio.cpp:245-249 | returns the four bytes as a little-endian value and advances by four |
| RcdReader.RcdFileReader.GetInt32 | src/fileio.cpp:256-260 | the little-endian 32-bit value read as two's complement |
| RcdReader.RcdFileReader.GetText | src/fileio.cpp:267-276 | returns the bytes up to the next NUL (none of them NUL) and moves past the NUL |
| RcdReader.RcdFileReader.GetBlob | src/fileio.cpp:328-332 | always advances by the length; succeeds exactly when the length is positive and fits in the file, and then yields those bytes |
| RcdReader.RcdFileReader.CheckFileHeader | src/fileio.cpp:284-295 | accepts exactly an open file with 8 bytes left, the expected 4-byte name and the expected version; the position after a name or version mismatch is as in the source |
| RcdReader.RcdFileReader.ReadBlockHeader | src/fileio.cpp:301-308 | with fewer than 12 bytes left nothing changes; otherwise it reads the name, version and size, and succeeds exactly when the block fits in the file |
| RcdReader.RcdFileReader.SkipBytes | src/fileio.cpp:315-320 | moves the position forward by the count, but never past the end of the file |
| RcdReader.RcdFileReader.CheckVersion | src/fileio.cpp:157-160 | passes exactly when the block version equals the supported version, otherwise reports both versions |
| RcdReader.CheckMinLength | src/fileio.cpp:169-172 | passes exactly when the length reaches the requirement, otherwise reports the number of missing bytes |
| RcdReader.CheckExactLength | src/fileio.cpp:181-185 | passes exactly on equality; a shorter length reports the missing bytes and a longer one the trailing bytes |
| RcdReader.CString | src/fileio.cpp:267-276 | the text is the longest NUL-free prefix, and is followed by a NUL when shorter than the input |
| RcdReader.LittleEndianSplit | src/fileio.cpp:245-249 | a 32-bit little-endian value is its low 16-bit half plus 65536 times its high half |
| PatternStream.RejectVersion | src/gamelevel.cpp:269 | a version newer than the supported one is a version-mismatch error |
| Objectives.ObjectiveTypeOf | src/gamelevel.cpp:236-260 | a type code maps to the objective type it encodes; any other code is an unknown-type error |
| Objectives.DecodeAbstract | src/gamelevel.cpp:266-274 | a successful read of the common objective part consumes at least one token and stays within the input |
| Objectives.DecodeObjective | src/gamelevel.cpp:236-260 | a successful read of a typed objective consumes tokens within the input |
| Objectives.DecodeAs | src/gamelevel.cpp:241-258 | the objective read has the requested type |
| Objectives.DecodeContainer | src/gamelevel.cpp:289-302 | the objective read is a container |
| Objectives.DecodeChildren | src/gamelevel.cpp:299 | exactly the announced number of children is read |
| Objectives.DecodeNone | src/gamelevel.cpp:320-326 | the objective read has no goal |
| Objectives.DecodeGuests | src/gamelevel.cpp:335-342 | the objective read is a guest-count objective |
| Objectives.DecodeRating | src/gamelevel.cpp:352-359 | the objective read is a park-rating objective |
| ObjectiveRoundTrip.TypeCodeAccepted | src/gamelevel.cpp:241-253 | the code written for each objective type is accepted and maps back to that type |
| ObjectiveRoundTrip.DecodeEncodedAbstract | src/gamelevel.cpp:266-287 | loading the saved `OJAO` pattern gives back the fulfilled flag and the drop policy |
| ObjectiveRoundTrip.DecodeEncodedNone | src/gamelevel.cpp:320-333 | loading a saved empty objective gives it back and ends right after it |
| ObjectiveRoundTrip.DecodeEncodedGuests | src/gamelevel.cpp:335-350 | loading a saved guest-count objective gives it back and ends right after it |
| ObjectiveRoundTrip.DecodeEncodedRating | src/gamelevel.cpp:352-367 | loading a saved park-rating objective gives it back and ends right after it |
| ObjectiveRoundTrip.DecodeEncodedContainer | src/gamelevel.cpp:289-318 | loading a saved container gives back its policy, date and every child, in order |
| ObjectiveRoundTrip.DecodeEncoded | src/gamelevel.cpp:258 | loading any well-formed saved objective by its type gives it back |
| ObjectiveRoundTrip.DecodeEncodedTyped | src/gamelevel.cpp:312-315 | loading a type byte followed by the saved objective gives the objective back |
| ObjectiveRoundTrip.DecodeEncodedChildren | src/gamelevel.cpp:299 | loading the saved children gives back the whole list |
| ObjectiveRoundTrip.RoundTrip | src/gamelevel.cpp:236-367 | a saved objective tree, on its own, loads back to the same tree and consumes the whole save |
| ObjectiveRoundTrip.NewerObjectiveRejected | src/gamelevel.cpp:291-292 | an `OJCN`/`OJ00`/`OJGU`/`OJRT` pattern newer than version 1 is rejected with a version mismatch |
| ObjectiveRoundTrip.NewerAbstractRejected | src/gamelevel.cpp:268-269 | an `OJAO` pattern newer than version 1 is rejected with a version mismatch |
| ObjectiveRoundTrip.FrameAbstract | src/gamelevel.cpp:266-274 | the common part's result depends only on the tokens it consumes |
| ObjectiveRoundTrip.FrameObjective | src/gamelevel.cpp:236-260 | an objective's result depends only on the tokens it consumes |
| ObjectiveRoundTrip.FrameAs | src/gamelevel.cpp:241-258 | as FrameObjective, for a given objective type |
| ObjectiveRoundTrip.FrameNone | src/gamelevel.cpp:320-326 | an empty objective's result depends only on the tokens it consumes |
| ObjectiveRoundTrip.FrameGuests | src/gamelevel.cpp:335-342 | a guest-count objective's result depends only on the tokens it consumes |
| ObjectiveRoundTrip.FrameRating | src/gamelevel.cpp:352-359 | a park-rating objective's result depends only on the tokens it consumes |
| ObjectiveRoundTrip.FrameContainer | src/gamelevel.cpp:289-302 | a container's result depends only on the tokens it consumes |
| ObjectiveRoundTrip.FrameChildren | src/gamelevel.cpp:299 | the children's result depends only on the tokens they consume |
| ObjectiveRoundTrip.TruncatedSaveFails | src/gamelevel.cpp:236-367 | every proper prefix of a saved objective fails to load |
| ObjectiveStorage.SaveAbstract | src/gamelevel.cpp:280-287 | appends exactly the `OJAO` encoding and leaves the pattern depth unchanged |
| ObjectiveStorage.Save | src/gamelevel.cpp:304-367 | appends exactly the encoding of the objective |
| ObjectiveStorage.SaveContainer | src/gamelevel.cpp:304-318 | appends the container pattern, with a type byte before each child |
| ObjectiveStorage.SaveChildren | src/gamelevel.cpp:312-315 | appends the typed encodings of the children in order |
| ObjectiveStorage.LoadAbstract | src/gamelevel.cpp:266-274 | returns what DecodeAbstract gives and moves the loader to its end |
| ObjectiveStorage.LoadObjective | src/gamelevel.cpp:236-260 | returns what DecodeObjective gives and moves the loader to its end |
| ObjectiveStorage.LoadContainer | src/gamelevel.cpp:289-302 | returns what DecodeContainer gives and moves the loader to its end |
| ObjectiveStorage.LoadChildren | src/gamelevel.cpp:299 | returns what DecodeChildren gives and moves the loader to its end |
| ObjectiveStorage.LoadNone | src/gamelevel.cpp:320-326 | returns what DecodeNone gives |
| ObjectiveStorage.LoadGuests | src/gamelevel.cpp:335-342 | returns what DecodeGuests gives |
| ObjectiveStorage.LoadRating | src/gamelevel.cpp:352-359 | returns what DecodeRating gives |
| ObjectiveDays.DropStepAsWritten | src/gamelevel.cpp:70-88 | the drop policy with the comparison the program has; it never changes the fulfilled flag or the grace period, and sends at most one event |
| ObjectiveDays.DropStep | src/gamelevel.cpp:70-88 | the drop policy with the comparison its message evidently intends; same frame properties |
| ObjectiveDays.Drop | src/gamelevel.cpp:70-88 | the drop policy under either comparison |
| ObjectiveDays.DropCounter | src/gamelevel.cpp:72-87 | no policy means no change; fulfilled resets the counter; otherwise the counter goes up by one, modulo 2^32 |
| ObjectiveDays.SameStateUnderBothRules | src/gamelevel.cpp:79-87 | both comparisons leave the same objective state and differ only in the events |
| ObjectiveDays.AsWrittenLosesAtOnce | src/gamelevel.cpp:79-80 | as written, an unfulfilled objective with a grace period loses while the counter is still within the period |
| ObjectiveDays.AsWrittenTwoWeeksGrace | src/gamelevel.cpp:79-84 | with a 14-day grace period and a zero counter, the program loses at once while the intended rule warns of two weeks left |
| ObjectiveDays.IntendedLoses | src/gamelevel.cpp:79-80 | under the intended rule, the game is lost exactly when the counter has reached the grace period |
| ObjectiveDays.IntendedMessage | src/gamelevel.cpp:81-84 | the bad-rating message gives the whole weeks left, and appears only on a whole number of weeks before the end |
| ObjectiveDays.UnfulfilledDays | src/gamelevel.cpp:70-88 | days of an unfulfilled objective keep it unfulfilled and keep the grace period |
| ObjectiveDays.GracePeriod | src/gamelevel.cpp:79-87 | under the intended rule, an unfulfilled objective survives exactly its grace period and then loses |
| ObjectiveDays.DayStep | src/gamelevel.cpp:133-164 | a day updates each objective's fulfilled flag from the park: guests, rating, or all children of a container |
| ObjectiveDays.ChildrenStep | src/gamelevel.cpp:148-151 | a day visits every child |
| ObjectiveDays.ChildrenStepAt | src/gamelevel.cpp:148-151 | each child is updated exactly as it would be on its own |
| ObjectiveDays.DayStepShape | src/gamelevel.cpp:133-164 | a day changes no objective's kind, goal, grace period, timeout or number of children, at any depth |
| ObjectiveDays.DayStepWellFormed | src/gamelevel.cpp:133-164 | a day keeps a well-formed objective tree well-formed |
| ObjectiveDays.WinsWhenFulfilledBefore | src/gamelevel.cpp:153-154 | a "before the date" container whose children are all fulfilled wins after the children's events |
| ObjectiveDays.DeadlinePassed | src/gamelevel.cpp:155-160 | once the date has passed, a timed container wins or loses by its fulfilled flag, and its drop counter does not move |
| ObjectiveDays.OnNewDay | src/gamelevel.cpp:145-164 | the recursive day method gives exactly what DayStep specifies |
| ObjectiveDays.DropDay | src/gamelevel.cpp:70-88 | the drop method gives exactly what Drop specifies |
| Scenarios.DefaultScenario | src/gamelevel.cpp:32-48 | the default scenario asks for 60 to 179 guests and a rating of 500 to 790 in steps of 10 by an exact date; the spawn range is ordered and the entrance fee is allowed |
| Scenarios.Scenario.SetDefaultScenario | src/gamelevel.cpp:32-48 | the settings become the default scenario |
| Scenarios.Scenario.GetSpawnProbability | src/gamelevel.cpp:55-59 | for a popularity from 0 to 1024, the result lies between the lowest and the highest spawn setting, and is the lowest at popularity 0 |
| Scenarios.TruncDiv1024 | src/gamelevel.cpp:58 | division by 1024 rounds toward zero, as C++ does |
| Scenarios.SpawnBetween | src/gamelevel.cpp:55-59 | the interpolation stays between its endpoints, in either order, and hits them at 0 and 1024 |
| Scenarios.SpawnMonotone | src/gamelevel.cpp:55-59 | a more popular park never gets a lower spawn probability |
| Scenarios.Scenario.Save | src/gamelevel.cpp:215-230 | appends exactly the version-3 `SCNO` encoding of the settings |
| Scenarios.Scenario.Load | src/gamelevel.cpp:177-209 | succeeds exactly when DecodeScenario does, and then holds its settings and moves the loader to its end |
| Scenarios.Scenario.LoadBody | src/gamelevel.cpp:188-208 | reads the version-specific body as DecodeBody specifies |
| Scenarios.LoadSettings | src/gamelevel.cpp:188-203 | returns what DecodeBody gives |
| Scenarios.SaveNumbers | src/gamelevel.cpp:222-229 | appends exactly the numeric settings and closes the pattern |
| Scenarios.LoadNumbers | src/gamelevel.cpp:193-208 | returns what DecodeNumbers gives |
| Scenarios.EncodeScenario | src/gamelevel.cpp:217 | a saved scenario starts with the `SCNO` pattern at the current version 3 |
| Scenarios.ReadDescr | src/gamelevel.cpp:189 | before version 2 the description is the default text and nothing is read |
| Scenarios.SkipLegacyLongs | src/gamelevel.cpp:196-199 | from version 3 on, no old money and loan values are read |
| Scenarios.ReadAllowFee | src/gamelevel.cpp:202 | in version 1 the entrance fee is allowed and nothing is read |
| Scenarios.DecodeNumbers | src/gamelevel.cpp:193-208 | a successful read consumes tokens within the input |
| Scenarios.DecodeBody | src/gamelevel.cpp:188-208 | a successful read consumes tokens within the input |
| Scenarios.DecodeScenario | src/gamelevel.cpp:177-209 | a successful read consumes tokens within the input |
| Scenarios.NumbersLoad | src/gamelevel.cpp:193-202 | the numeric settings of any version 1 to 3 layout load back as written |
| Scenarios.ScenarioRoundTrip | src/gamelevel.cpp:177-230 | a saved scenario loads back to the same settings and ends right after the pattern |
| Scenarios.Version2Loads | src/gamelevel.cpp:185-203 | a version-2 layout, with the old money and loan values, loads back to the same settings |
| Scenarios.Version1Loads | src/gamelevel.cpp:185-203 | a version-1 layout loads back with the default description and the entrance fee allowed |
| Scenarios.VersionZeroIsDefault | src/gamelevel.cpp:181-183 | an empty version-0 pattern loads the default scenario |
| Scenarios.VersionOneDefaults | src/gamelevel.cpp:189-202 | whatever loads from a version-1 pattern has the default description and allows the entrance fee |
| Scenarios.NewerScenarioRejected | src/gamelevel.cpp:205-206 | a pattern newer than version 3 is rejected with a version mismatch |
| Scenarios.OldLayoutLoads | src/gamelevel.cpp:185-209 | a layout of any version 1 to 3 loads, to the saved settings with the version-1 defaults where they apply |
| Scenarios.LegacyResaves | src/gamelevel.cpp:177-230 | an old layout loads to the upgraded settings, and those, once saved again as version 3, load back unchanged |
| Scenarios.FrameNumbers | src/gamelevel.cpp:193-208 | the numeric settings' result depends only on the tokens they consume |
| Scenarios.FrameBody | src/gamelevel.cpp:188-208 | the body's result depends only on the tokens it consumes |
| Scenarios.FrameScenario | src/gamelevel.cpp:177-209 | a scenario's result depends only on the tokens it consumes |
| Scenarios.TruncatedScenarioFails | src/gamelevel.cpp:177-230 | every proper prefix of a saved scenario fails to load |
| Missions.AsInt32 | src/gamelevel.cpp:406 | an unsigned 32-bit length used as `int` keeps its value below 2^31 and otherwise wraps to a negative value |
| Missions.SubUnsigned | src/gamelevel.cpp:407 | subtracting an unsigned length from the `int` length is the true difference modulo 2^32, read as a 32-bit `int` |
| Missions.NumSolved | src/gamelevel.cpp:429-440 | the number of solved scenarios is at most their count |
| Missions.Required | src/gamelevel.cpp:429-440 | a scenario never needs more solved scenarios than there are scenarios before it |
| Missions.FirstUnsolvedUnlocked | src/gamelevel.cpp:431-438 | the first unsolved scenario after only solved ones needs nothing to unlock |
| Missions.SolvingNeverRaises | src/gamelevel.cpp:431-438 | solving more scenarios never raises what any scenario requires |
| Missions.UnlockScenarios | src/gamelevel.cpp:429-440 | with an unlock limit, every scenario's requirement is the solved-balance rule; without one nothing changes; nothing but the requirement changes |
| Missions.LoadScenarios | src/gamelevel.cpp:394-418 | success means every saved game had a positive length and was read and preloaded (a zero-length blob never reads), one scenario per record with its length and solved flag; when no length reaches 2^31, success leaves the length minus the headers and saved games, and a mismatched length fails |
| Missions.LoadMission | src/gamelevel.cpp:374-443 | wrong version, too short a header and no scenarios give their errors; when no length reaches 2^31, success holds exactly for a well-formed block (every saved game non-empty, read, preloaded, and the lengths adding up); a loaded mission keeps the unlock limit and each scenario's length and flag, with its requirement from the unlock rule |
| GameControls.SpeedFactor | src/gamecontrol.cpp:55-65 | only the pause setting runs no ticks; each factor is 0, 1, 2, 4 or 8 |
| GameControls.SpeedFactorInjective | src/gamecontrol.cpp:55-65 | different settings run different numbers of ticks |
| GameControls.SpeedFactorIncreasing | src/gamecontrol.cpp:55-65 | a later setting runs more ticks, and each step from speed 1 doubles them |
| GameControls.MoreImportantReason | src/gamecontrol.cpp:312-349 | the result is one of the two reasons: a missing reason never wins; pause always wins; occupied, expensive and unremovable give way only to pause; a bad location gives way to any real reason |
| GameControls.MoreImportantIdempotent | src/gamecontrol.cpp:312-349 | offering the same other reason twice changes nothing |
| GameControls.FoldPicksOne | src/gamecontrol.cpp:306-312 | across a series of reasons, the one shown is the first or one of those offered |
| GameControls.PausedWins | src/gamecontrol.cpp:319-323 | once pause is among the reasons, pause is shown |
| GameControls.FoldFindsReason | src/gamecontrol.cpp:314-318 | some reason is shown exactly when some real reason was offered |
| GameControls.CheckActionAllowed | src/gamecontrol.cpp:286-304 | allowed exactly when not in play mode, or when not paused and the cost is free or covered by the cash; a refusal carries the action's heading and the pause or cost reason |
| GameControls.MoreCashStillAllowed | src/gamecontrol.cpp:296-300 | more cash never turns an allowed action into a refused one |
| GameControls.KindOnlyChangesHeading | src/gamecontrol.cpp:288 | build and remove get the same verdict |
| GameControls.GameModeManager.constructor | src/gamecontrol.cpp:244-247 | the program starts in no game mode |
| GameControls.GameModeManager.SetGameMode | src/gamecontrol.cpp:257-261 | the mode becomes the given one |
| GameControls.GameControl.constructor | src/gamecontrol.cpp:86-92 | normal speed, not running, no pending action, no file name |
| GameControls.GameControl.Initialize | src/gamecontrol.cpp:99-111 | the game runs in play mode at normal speed, loaded from the file when one is given and it loads, otherwise as a new level |
| GameControls.GameControl.RunAction | src/gamecontrol.cpp:123-151 | runs the pending action and clears it; only quit stops the game; new and load start a level in play mode at normal speed, with a failed load starting a new level; save and quit leave speed and mode alone |
| GameControls.GameControl.StartNewOrLoaded | src/gamecontrol.cpp:128-135 | loads the file or sets up a new level, then starts in play mode at normal speed |
| GameControls.GameControl.NewGame | src/gamecontrol.cpp:154-157 | the pending action becomes a new game |
| GameControls.GameControl.LoadGame | src/gamecontrol.cpp:163-167 | remembers the file and makes loading it the pending action |
| GameControls.GameControl.SaveGame | src/gamecontrol.cpp:173-177 | remembers the file and makes saving to it the pending action |
| GameControls.GameControl.QuitGame | src/gamecontrol.cpp:180-183 | the pending action becomes quitting |

## Left out

- The file system is not modelled: opening files, directories, home and save
  directories, and copying files. The file's contents and whether it opened
  are constructor parameters of `RcdFileReader`.
- `RcdFileReader` destructor: closing the file has no effect in the model.
- RcdReader.RcdFileReader.GetText: the source has no end-of-file check in its loop; with
  no NUL left in the file it would read the end-of-file marker for ever and
  never return. The model requires a NUL after the position and does not
  describe that non-terminating read.
- The save game's own `Loader` and `Saver` (the byte format of patterns and
  values) are not part of this model. `PatternStream` stands in for them with
  a sequence of typed tokens, and a token of the wrong kind is a load error.
- Language texts are not modelled: `LoadTextFromFile`, string registration,
  `ToString` of objectives and the default description text. The default
  description is a parameter (`ScenarioDefaults`).
- `Random` in `SetDefaultScenario` is not modelled. The two draws are
  parameters (`ScenarioDefaults`), limited to the ranges `Uniform` gives.
- The calendar is not modelled. A date is held in its compressed 32-bit form
  and compared as a number; the default deadline is a parameter.
- Preloading a scenario's saved game is not modelled. Its outcome is an input
  per scenario (`ScenarioRecord.preloadOk`), as is the outcome of reading the
  bytes.
- The solved-scenario data: the source sets a placeholder on the first
  scenario while solved scenarios are not yet stored. The model takes each
  scenario's solved flag as an input.
- `Missions.LoadMission`: success is tied to a well-formed block only when
  every saved-game length is below 2^31. Longer lengths wrap to negative
  values, and the model then states only the error cases and what a success
  holds.
- `Missions.UnlockScenarios`: the `int32` balance is unbounded. It cannot
  exceed the number of scenarios, which is far below 2^31.
- The default `required_to_unlock` of a mission scenario is declared in a
  header that is not part of this model. It is taken as 0.
- The numeric values of the objective types and of the timeout policies are
  declared in headers that are not part of this model. The model assumes
  container 0, none 1, guests 2 and rating 3, and for timeouts none 0,
  before 1 and exact 2.
- Objectives are values, not shared pointers, so the model does not capture
  aliasing of one objective from two containers.
- The game observer, inbox and message objects are not modelled: winning,
  losing and the bad-rating message are returned as events.
- `OnNewFrame` is not modelled: its tick loop runs the guests, staff, rides
  and scenery, which lie outside this core. `SpeedFactor` gives the number
  of ticks.
- The game control's world set-up, window handling, level shut-down and
  file loading and saving are not modelled. `NewLevel`, `StartLevel`,
  `ShutdownLevel`, `Uninitialize` and `ShowActionErrorMessage` appear only
  through their effect on the speed and game mode. Whether loading the file
  succeeded is an input.
- `GameMode` values other than "none" and "play" are merged into
  `ModeOther`.
- The "not reached" branches (an unknown speed, `RunAction` with no pending
  action) are preconditions or absent cases.

## Findings

| source | as written | input that shows it | evidently intended | confidence | as-written member | corrected member |
|---|---|---|---|---|---|---|
| src/gamelevel.cpp:79 | the objective loses when `days_after_drop >= drop_counter`, that is at once on the first unfulfilled day | `days_after_drop` = 14, `drop_counter` = 0, objective not fulfilled: the game is lost on that day | lose once `drop_counter` has reached `days_after_drop`, and until then send the weeks-left message (2 weeks here) | high (not executed) | ObjectiveDays.AsWrittenTwoWeeksGrace | ObjectiveDays.GracePeriod |
