# Consequence — a verified model of the narrative engine and its scene normaliser

Consequence is a branching-narrative game written twice. The browser edition is
`ConsequenceGame` in script_5MB_FIXED.js. The console edition is
`NarrativeEngine` with `GameState` in Consequence.java. A third file,
FINAL_STORY.js, normalises a scene collection before it is exported.

In both editions the story state is a day/hour clock, three bounded stats and a
set of flags:

- morality lies in [-100, 100];
- trauma and stress lie in [0, 100].

The browser edition also keeps an event log. A turn picks one of at most four
offered choices. It runs in a fixed order:

1. the choice's stat deltas (clamped);
2. its `after` hook;
3. one hour on the clock;
4. a move to the target scene, which runs that scene's `onEnter` hook.

The sentinel target `THE_END` resolves an ending: the first of six, in a
declared order, whose criterion holds, or a fixed fallback. The two engines
declare that order differently and treat missing scenes differently.

The normaliser does the following to an insertion-ordered scene map:

- chooses a start scene;
- detects endings by naming convention;
- forces exactly six endings, synthesising extra ones when fewer are found;
- redirects choices that loop straight back to their own scene;
- trims or pads the map to exactly 2513 scenes, and records that count.

Modules:

- `Story` (story.dfy): what the editions share. This covers clamping, the
  stat ranges, the flag operations hooks perform, the six endings and
  first-match search, the clock's roll-over, and the four-choice cap.
- `Text` (text.dfy): decimal rendering of numbers, prefix tests, the
  case-insensitive `/ending/i` test, and the counting facts the normaliser's
  "try the next numbered id" loops need to terminate.
- `JsEngine` (js_engine.dfy): the browser edition. The class `Game` owns one
  state record, and each of its methods is proved equal to a transition
  function of the old state. Lemmas about those functions follow.
- `JavaEngine` (java_engine.dfy): the console edition. The class `GameState`
  holds the mutable fields. The class `NarrativeEngine` updates them and runs
  the console loop over a sequence of input lines.
- `Normaliser` (normaliser.dfy): the normaliser, working on a value
  `SceneMap` that holds the key order plus the table. The phases with loops
  (detection, synthesis, rewrite, trim, pad) are methods with loops; start
  selection is the function `ChooseStart`, and the total is set once in
  `Normalize`.
- `Scenarios` (scenarios.dfy): a few transcribed scenes of each edition, with
  concrete playthroughs and the difference between the two ending orders.

Where the code and its description disagree, the model follows the code. The
main case is the browser `goTo` on a missing scene. One might expect it to keep
the current scene. The code assigns `currentSceneId` before the lookup, so the
missing id becomes current (script_5MB_FIXED.js:365). `JsEngine.GoToCases`
states this.

## Model

| member | source | states |
|---|---|---|
| Story.Clamp | script_5MB_FIXED.js:11-13 | For min ≤ max the result lies in [min, max]. A value already in range is returned unchanged. Values below or above the range go to min or max. |
| Story.Nudge | script_5MB_FIXED.js:398-400 | A zero delta leaves the stat unchanged. A nonzero delta puts it in range. A sum already in range is taken exactly. |
| Story.ApplyOp | script_5MB_FIXED.js:284 | Setting a flag adds exactly that flag. The `listen_song` promotion adds `bloomChoice` exactly when `bloomInsight` is set. No flag is ever removed. |
| Story.HookOnlyAdds | Consequence.java:318 | Running a hook keeps every flag already set and adds only flags the hook names. |
| Story.FirstMatchIndex | script_5MB_FIXED.js:408-409 | The index found holds, and no earlier ending holds. No index means no ending holds. |
| Story.FirstMatchIndexIs | Consequence.java:343-346 | If ending i is the first whose criterion holds, the search returns i. |
| Story.EndingCriteria | script_5MB_FIXED.js:34-71 | The six endings and what each requires: `ending_saint` needs morality ≥ 45; `ending_tyrant` needs morality ≤ −45 and trauma < 80; `ending_ghost` needs the flag `stalker`; `ending_manipulator` needs `manipulator`; `ending_lone_survivor` needs `loneWolf`; `ending_bloomborne` needs `bloomChoice`. The Java `buildEndings` uses the same criteria (Consequence.java:64-100). |
| Story.Ids | script_5MB_FIXED.js:34-71 | The ids of an ending list, one per ending, in list order. |
| Story.Rolled | script_5MB_FIXED.js:356 | The hour-to-day loop preserves day*24+hour. It leaves the hour below 24, never lowers the day, and changes nothing when the total is below 24. |
| Story.FirstFour | script_5MB_FIXED.js:380 | The offered choices are a prefix of the declared ones. There are at most four, exactly four when at least four exist, and all of them when there are four or fewer. |
| Text.NatToStringInjective | FINAL_STORY.js:53 | Distinct numbers render as distinct decimal strings, so the numbered ids `ending_synth_${i}` here and `filler_${i}` at line 92 never repeat. |
| Text.TaggedInjective | FINAL_STORY.js:53 | `ending_synth_${i}` (and `filler_${i}`) ids for distinct i are distinct. |
| Text.TaggedIdsBound | FINAL_STORY.js:91-94 | If the first n numbered ids all lie in a set of size m, then n ≤ m. This makes the numbered-id loops terminate. |
| JsEngine.InitialState | script_5MB_FIXED.js:299-311 | Day 0, hour 8, morality 0, trauma 10, stress 10, no inventory, no flags, an empty log, scene "intro". |
| JsEngine.WithEffects | script_5MB_FIXED.js:397-403 | Effects touch only the stats and the log. Clock, inventory, flags and scene stay, and the log gains at most one entry at its end. |
| JsEngine.NonzeroEntriesMembers | script_5MB_FIXED.js:402 | An entry is kept exactly when its value is truthy (nonzero). |
| JsEngine.PartsOfNonzero | script_5MB_FIXED.js:402 | There is one text per nonzero entry, in the same order, and each reads `key ±value`. |
| JsEngine.ConsequenceParts | script_5MB_FIXED.js:401-402 | The loop that pushes onto `parts` builds exactly the list `Parts` defines. That list has one `key ±value` text per nonzero entry, stat or not, in entry order. |
| JsEngine.WithClock | script_5MB_FIXED.js:354-357 | day*24+hour grows by exactly `hours \|\| 1`. The hour stays below 24, the day never falls, and nothing else changes. |
| JsEngine.EndingFor | script_5MB_FIXED.js:406-410 | The ending concluded is one of the six. It is Alone On Purpose or one whose criterion holds. |
| JsEngine.JsEndingsOrder | script_5MB_FIXED.js:34-71 | The browser tries the endings in declaration order: saint, tyrant, ghost, manipulator, lone survivor, bloomborne. |
| JsEngine.AfterGoTo | script_5MB_FIXED.js:361-373 | A transition leaves stats, clock and inventory alone. It never removes a flag, and it appends at most one log entry. |
| JsEngine.AfterChoice | script_5MB_FIXED.js:389-395 | A choice takes exactly one hour and keeps the inventory. It never removes a flag or a log entry, and it makes any target other than `THE_END` current. |
| JsEngine.Restore | script_5MB_FIXED.js:448 | Each of the nine fields on its own: a saved field, when present, replaces the default wholesale. This covers the `inventory` and `eventLog` arrays, the flags and `currentSceneId`. When a field is absent, its default stays. |
| JsEngine.ResumeScene | script_5MB_FIXED.js:450-451 | `load` re-enters the saved scene when it is a non-empty id of an existing scene, and "intro" otherwise. |
| JsEngine.Game.constructor | script_5MB_FIXED.js:290-297 | A fresh state, then `goTo("intro")`. |
| JsEngine.Game.WriteLog | script_5MB_FIXED.js:426-427 | Appends one entry to the log and changes nothing else. |
| JsEngine.Game.ApplyEffects | script_5MB_FIXED.js:397-403 | The new state is the clamped stat update plus at most one consequence entry. |
| JsEngine.Game.AdvanceTime | script_5MB_FIXED.js:354-358 | The `while (total >= 24)` loop lands on `WithClock`. |
| JsEngine.Game.Conclude | script_5MB_FIXED.js:406-423 | Returns the first matching ending or the fallback, and logs "Reached: title". |
| JsEngine.Game.GoTo | script_5MB_FIXED.js:361-373 | The terminal sentinel concludes. Any other id becomes current. A missing scene is logged; an existing scene runs its `onEnter`. |
| JsEngine.Game.SelectChoice | script_5MB_FIXED.js:389-395 | Effects, then the after-hook, then one hour, then `goTo`. The ending is reported exactly when the target is `THE_END`. |
| JsEngine.Game.Save | script_5MB_FIXED.js:434-437 | The snapshot is the whole state before "Game saved" is logged. |
| JsEngine.Game.Load | script_5MB_FIXED.js:440-456 | No save, or an unparsable one, only logs a notice. A parsed save is merged over a fresh state, re-enters its scene or "intro", and logs "Game loaded". |
| JsEngine.Game.Restart | script_5MB_FIXED.js:459-464 | A fresh state, `goTo("intro")`, then "New run started". |
| JsEngine.DeltaOfEntry | script_5MB_FIXED.js:398 | A key listed once in the effects reads as that entry's value. |
| JsEngine.DeltaOfAbsent | script_5MB_FIXED.js:398 | An absent key reads as 0. |
| JsEngine.EffectsKeepRange | script_5MB_FIXED.js:398-400 | Stats that start in range stay in range after effects. |
| JsEngine.ZeroEffectsChangeNothing | script_5MB_FIXED.js:398-403 | Effects whose every value is 0 leave the whole state unchanged, log included. |
| JsEngine.ConsequenceLogged | script_5MB_FIXED.js:401-403 | Exactly one consequence entry, listing every nonzero entry, when some value is nonzero. No entry otherwise. |
| JsEngine.EffectsOnStats | script_5MB_FIXED.js:398-400 | For each of morality, trauma and stress whose key is listed once: a nonzero value moves the stat to the sum clamped to its range, and a zero value leaves it. Clock, flags, scene and inventory are untouched. |
| JsEngine.EffectsSkipAbsentStat | script_5MB_FIXED.js:398-400 | A stat whose key the effects do not list keeps its value. |
| JsEngine.GoToCases | script_5MB_FIXED.js:361-371 | `THE_END` keeps the scene id and its flags and logs the ending. Any other id becomes current. A missing scene logs exactly one "Missing scene" entry and runs no hook. An existing scene runs only its `onEnter`. Stats and clock are untouched. |
| JsEngine.ChoiceKeepsValid | script_5MB_FIXED.js:389-394 | One choice keeps stats in range and the hour in [0, 24). |
| JsEngine.PlayKeepsValid | script_5MB_FIXED.js:389-394 | Any sequence of choices keeps stats in range and the hour in [0, 24). |
| JsEngine.ChoiceTakesAnHour | script_5MB_FIXED.js:393 | Every choice advances day*24+hour by exactly one. |
| JsEngine.EndingIsFirstMatch | script_5MB_FIXED.js:34-71 | The ending concluded is the first, in declaration order (saint, tyrant, ghost, manipulator, lone survivor, bloomborne), whose criterion holds. |
| JsEngine.EndingFallback | script_5MB_FIXED.js:410 | With no criterion holding, the ending is Alone On Purpose. |
| JsEngine.RestoreSnapshot | script_5MB_FIXED.js:435-448 | Restoring a full snapshot gives back the state it was taken of. |
| JsEngine.RestoreNothing | script_5MB_FIXED.js:448 | A save with no fields restores the initial state. |
| JsEngine.RestoreIdempotent | script_5MB_FIXED.js:448 | Saving a restored state and restoring it again changes nothing. |
| JavaEngine.FreshView | Consequence.java:392-399 | Day 0, hour 8, morality 0, trauma 10, stress 10, scene "intro", no flags. |
| JavaEngine.GameState.constructor | Consequence.java:392-399 | A new `GameState` holds exactly those defaults. |
| JavaEngine.WithClock | Consequence.java:356-360 | day*24+hour grows by max(0, h). A negative or zero h is a no-op. The hour stays in [0, 24). |
| JavaEngine.WithEffects | Consequence.java:323-327 | Effects change only the three stats, and stats in range stay in range. |
| JavaEngine.WithGoTo | Consequence.java:329-333 | The id becomes current. Flags only grow, and they are unchanged for a missing scene. Stats and clock stay. |
| JavaEngine.AfterChoice | Consequence.java:316-321 | A choice takes exactly one hour, makes its target current, and never removes a flag. |
| JavaEngine.FindById | Consequence.java:347 | The first ending with the given id, or none when no ending has it. |
| JavaEngine.JavaEndingsOrder | Consequence.java:64-100 | The console tries the endings in `buildEndings` order: bloomborne, tyrant, manipulator, ghost, saint, lone survivor. |
| JavaEngine.Fallback | Consequence.java:347 | The fallback is an ending of the list. |
| JavaEngine.Resolve | Consequence.java:343-347 | The ending resolved is one of the list. |
| JavaEngine.SceneTable | Consequence.java:363-372 | Every built scene is in the table under its own id. Every entry is one of the built scenes. |
| JavaEngine.RunFrom | Consequence.java:30-61 | Any ending the console loop renders is one of the ending list. |
| JavaEngine.NarrativeEngine.constructor | Consequence.java:25-28 | The endings in `buildEndings` order, the table of the `put` loop, and a fresh state. |
| JavaEngine.NarrativeEngine.ApplyEffects | Consequence.java:323-327 | The new fields are the clamped stat update, and a zero delta is skipped. |
| JavaEngine.NarrativeEngine.AdvanceTime | Consequence.java:356-360 | The `while (total >= 24)` loop lands on `WithClock`. |
| JavaEngine.NarrativeEngine.GoTo | Consequence.java:329-333 | The id always becomes current. `onEnter` runs only for an existing scene. |
| JavaEngine.NarrativeEngine.SelectChoice | Consequence.java:316-321 | Effects, then the after-hook, then one hour, then `goTo`. |
| JavaEngine.NarrativeEngine.PickEnding | Consequence.java:343-348 | The loop returns the first ending whose criterion holds, else the fallback. |
| JavaEngine.NarrativeEngine.Run | Consequence.java:30-61 | The console loop's final fields and outcome are those of `RunFrom`, started after `goTo("intro")`. |
| JavaEngine.ChoiceKeepsValid | Consequence.java:316-327 | One choice keeps stats in range and the hour in [0, 24). |
| JavaEngine.ChoiceEffects | Consequence.java:316-333 | A choice takes exactly one hour and makes its target current. For each stat, a zero delta leaves it unchanged and any other delta moves it to the clamped sum. |
| JavaEngine.RunKeepsValid | Consequence.java:30-61 | Whatever the input lines, the loop keeps the fields valid. |
| JavaEngine.RunEndsWhere | Consequence.java:35-39 | An ending is rendered only on a missing current scene or on `THE_END`, and it is `pickEnding` on the final fields. |
| JavaEngine.IgnoredInputs | Consequence.java:53-55 | An unparsable line or an index outside the offered choices changes no state. |
| JavaEngine.FifthChoiceIgnored | Consequence.java:43 | Since at most four choices are offered, "5" is always ignored. |
| JavaEngine.ResolveFirstMatch | Consequence.java:64-100 | `pickEnding` returns the first ending, in `buildEndings` order, whose criterion holds. |
| JavaEngine.ResolveFallback | Consequence.java:347 | With no criterion holding, the result is the first `ending_lone_survivor` if listed, else the last ending. |
| Normaliser.SceneMap.Put | FINAL_STORY.js:54 | Assigning a new key appends it to the key order. Assigning an existing key keeps the order. The map stays well formed. |
| Normaliser.ChooseStart | FINAL_STORY.js:28-36 | The preset start is kept if its scene exists. Otherwise "intro" is used if present. Otherwise the first key is used when it exists and is non-empty (truthy). Otherwise the preset stays, and a start without a scene is the preset. |
| Normaliser.IsEnding | FINAL_STORY.js:40-42 | Every `ending_synth_` id is an ending. A scene that has choices is an ending only by its `ending_` prefix or its type. |
| Normaliser.EndingsAmongMembers | FINAL_STORY.js:39-44 | An id is detected iff it is a key whose scene matches the convention. Distinct keys give distinct ids. |
| Normaliser.DetectEndings | FINAL_STORY.js:39-44 | The `forEach` collects the ending ids in key order: each is a key whose scene is an ending, every such key appears, and none appears twice. |
| Normaliser.SynthesizeEndingsAsWritten | FINAL_STORY.js:47-57 | The endings are the first six detected, or all detected followed by `ending_synth_0..` (as written); existing scenes are untouched. Every new scene is a listed `ending_synth_` id holding the "The story ends." ending scene, and when the detected ids name ending scenes, so does every listed id: the defect only lists an id twice, it never lists one without a scene. |
| Normaliser.SynthesizeEndings | FINAL_STORY.js:47-57 | Exactly six distinct endings that are all scenes and all endings. With six or more detected, they are the first six and the map is unchanged. With fewer, the detected ones lead. Old scenes are untouched, and each new scene is a listed `ending_synth_` marker. |
| Normaliser.Present | FINAL_STORY.js:63 | `filter(Boolean)` keeps exactly the present choices. |
| Normaliser.RewriteChoices | FINAL_STORY.js:63-69 | Falsy entries are dropped. A choice with goTo or next equal to its scene is redirected. Every other choice is kept as is. With a target other than the scene, no choice loops. |
| Normaliser.RewriteScene | FINAL_STORY.js:62-70 | A scene without a choices array is untouched. An empty array stays empty. An ending stays an ending. With a target other than the scene, the scene becomes loop-free. |
| Normaliser.RewriteSceneAsWritten | FINAL_STORY.js:62-70 | The as-written rewrite keeps text and type, and endings stay endings. When `endings[0]` is not the scene itself, it is the corrected rewrite and the scene becomes loop-free. |
| Normaliser.RedirectTarget | FINAL_STORY.js:66 | Corrected target (second finding). The target is one of the endings: `endings[0]` unless that is the scene itself, and never the scene when another ending exists. |
| Normaliser.RewriteSelfLoops | FINAL_STORY.js:60-71 | Corrected rewrite (second finding). Every scene is rewritten and the keys are unchanged. Endings stay endings. With distinct endings, no scene has a self-loop. |
| Normaliser.Gather | FINAL_STORY.js:80-85 | The definition of the kept id list: present candidates not yet kept, in visiting order, until the cap. Its guarantees are stated by GatherFacts and GatherReachesCap. |
| Normaliser.GatherFacts | FINAL_STORY.js:80-85 | Filling `trimmed` keeps earlier keepers. It never repeats an id, never exceeds the cap, and takes only present ids. Below the cap, it takes every present candidate. |
| Normaliser.GatherReachesCap | FINAL_STORY.js:82 | With more distinct present keys than the cap, filling stops at exactly the cap. |
| Normaliser.CopyKeepers | FINAL_STORY.js:77-80 | The keepers whose scenes exist are copied in keeper order, each once, and with their own scenes. |
| Normaliser.FillInKeyOrder | FINAL_STORY.js:81-85 | The fill loop adds the scenes not yet kept, in key order and with their own scenes, up to the cap. It stops when the cap is reached or the keys run out. |
| Normaliser.TrimDone | FINAL_STORY.js:74-86 | After both passes there are exactly 2513 scenes. The start and every ending survive when their scenes exist. No self-loop is added. |
| Normaliser.Trim | FINAL_STORY.js:75-86 | The result is part of the old map and has exactly 2513 scenes. The keepers (start, endings) come first and then keys in order. Existing keepers survive. No self-loop appears. |
| Normaliser.PadKeepsLoopFree | FINAL_STORY.js:93 | A filler goes to an existing scene other than itself, so padding a map without self-loops adds none. |
| Normaliser.Pad | FINAL_STORY.js:87-95 | Exactly 2513 scenes. Old scenes are untouched and keep their order. Each new scene is a `filler_` scene whose one choice goes to `endings[0]`. No self-loop appears. |
| Normaliser.FitToTarget | FINAL_STORY.js:74-95 | Exactly 2513 scenes in every branch. Common scenes are unchanged. Nothing is dropped when there were at most 2513. The start and endings survive. |
| Normaliser.TopUpEndings | FINAL_STORY.js:38-57 | Detection then corrected synthesis. The result has six distinct ending scenes, led by the detected ones. Input scenes are unchanged, and each added key is a listed `ending_synth_` marker appended after the input keys. |
| Normaliser.Repair | FINAL_STORY.js:38-71 | Corrected pass (both findings). There are six distinct ending scenes: the first six detected, or all detected ones followed by the synthesised ones. Every input scene is present, as its rewrite towards `RedirectTarget`. Each added scene is a listed `ending_synth_` marker, appended in listing order. No self-loops. |
| Normaliser.Normalize | FINAL_STORY.js:27-97 | Corrected pass (both findings). A well-formed map of exactly 2513 scenes with `meta.total` 2513. The start is chosen as above and survives when it exists. There are six distinct ending scenes, led by the detected ones (the first six when there are six or more). Each input scene that survives is its rewrite. Each added scene is a listed `ending_synth_` marker or a `filler_` scene to `endings[0]`. Up to 2513 repaired scenes, all are kept in order. Beyond that, the kept keys are the keepers, then key order, as in `Trim`. No self-loops. |
| Normaliser.GatherLeadsWith | FINAL_STORY.js:77-80 | A present keeper listed first heads the trimmed key order. |
| Normaliser.StartSurvivesRerun | FINAL_STORY.js:27-36 | On the output of a run that found a start scene, start selection picks that scene again. |
| Normaliser.NormalizeTwice | FINAL_STORY.js:27-97 | Normalising the output again keeps `meta.total` at 2513, and keeps `meta.start` whenever the first run found a start scene. |
| Normaliser.NormalizeTwiceReordersEndings | FINAL_STORY.js:77-80 | With more than 2513 scenes and an "intro" that is an ending but not among the first six detected, the second run's `meta.endings` starts with "intro" and the first run's does not. |
| Normaliser.FilterCanMakeAnEnding | FINAL_STORY.js:42 | A scene called "ending" whose only choice is falsy is not detected as an ending, but its rewrite is. |
| Normaliser.RewriteIsFilterThenMap | FINAL_STORY.js:63 | The rewrite is `filter(Boolean)` followed by the redirect `map`, position by position. |
| Normaliser.RewriteIdempotent | FINAL_STORY.js:63-69 | Rewriting a rewritten choice list again with the same target changes nothing. |
| Normaliser.DistinctEndingsLeaveATarget | FINAL_STORY.js:66 | Two or more distinct endings always leave a redirect target other than the looping scene. |
| Normaliser.SynthClashDuplicates | FINAL_STORY.js:52-56 | A map already holding `ending_synth_0`, its only ending, gets that id listed twice as written. |
| Normaliser.SelfLoopSurvivesRewrite | FINAL_STORY.js:64-66 | An ending scene that loops to itself and is `endings[0]` keeps its loop as written, and loses it with the corrected target. |
| Scenarios.HelpAlexFromTheStart | script_5MB_FIXED.js:78 | From a fresh run, helping Alex gives morality 6, stress 14 and hour 9. It sets `metAlex`, and the log holds "morality +6, stress +4". |
| Scenarios.BarricadeMissesAScene | script_5MB_FIXED.js:100 | Barricading makes the missing `room_inventory` current. It logs "stress -4" and then one "Missing scene" entry. |
| Scenarios.FreshRunEndsAlone | script_5MB_FIXED.js:299-311 | A fresh state concludes Alone On Purpose. |
| Scenarios.GoodDeedMakesASaint | script_5MB_FIXED.js:282 | One more good deed at morality 43 reaches Saint of Ashes. |
| Scenarios.SongMakesBloomborne | script_5MB_FIXED.js:284 | Listening to the song with `bloomInsight`, and no other criterion met, reaches Bloomborne. |
| Scenarios.JavaTableBuilt | Consequence.java:363-373 | The `put` loop over the transcribed console scenes builds the table keyed by their ids. |
| Scenarios.SilenceThenBarricadeEndsTheRun | Consequence.java:125-133 | On the console, inputs 2 and 2 walk into the missing `room_inventory`. The run ends there with Alone On Purpose, at morality -4 and stress 8. |
| Scenarios.EditionsDisagreeOnBloomingSaints | Consequence.java:64-100 | With `bloomChoice` set and morality ≥ 45, the browser concludes Saint and the console Bloomborne. |
| Scenarios.EditionsShareTheirEndings | Consequence.java:64-100 | The two editions declare the same six endings in a different order: the console list is the browser list reordered as 5, 1, 3, 2, 0, 4. |

## Left out

- DOM work is not modelled: rendering, the buttons, the status bar, and the DOM half of `writeLog`. The four-choice slice of `renderScene` is kept, as `Story.FirstFour`.
- `Date.now()`: each call that logs takes the timestamp as a parameter `now`.
- `localStorage`, `JSON.stringify`, `JSON.parse` and their `try`/`catch`: `load` receives an already classified input (no save, unparsable, or parsed fields).
- `JsEngine.Restore`: the parsed save is not checked or clamped. Field types other than the model's (a flag whose value is not `true`, say) are not represented.
- The console's `Scanner`, printing, `trim` and `Integer.parseInt`: each input line arrives classified as quit, a number, or not a number.
- The browser globals `window.__PACK_MERGE`, `window.ConsequenceGame` and `window.STORY_DATABASE`: the normaliser takes its input scene map as a parameter and returns the database.
- Narrative prose, and hooks as arbitrary closures: a hook is a sequence of flag operations of two kinds (`SetFlag`, `PromoteBloom`), which covers every hook either edition declares.
- The scene tables are transcribed only for the scenes the scenario lemmas use.
- The browser inventory is carried but never changed, as in the source.
- `JavaEngine.WithClock`: Java's 32-bit `int` wrap-around in `advanceTime` and `clamp` is not modelled. Integers are unbounded, and the stats stay far from the limits.
- `Normaliser.Normalize`: a scene whose value is falsy (`null`) is not represented; every table value is a scene object.
- `Normaliser.Normalize`: JavaScript orders integer-like keys numerically ahead of the rest. The key order here is plain insertion order.
- `Normaliser.RewriteSelfLoops`: the rewrite reassigns `s.choices` on shared scene objects. The model rebuilds scene values, so aliasing between scenes is not captured.
- `Normaliser.RewriteSelfLoops`: a choice whose `next` names its own scene gets a new `goTo` but keeps that `next`, as the source does. Loop-freedom is stated for `goTo` only.
- `Normaliser.Normalize`: input scenes are promised to survive only when at most 2507 arrive. Synthesis can add up to six scenes and push the map over 2513, and trimming then drops late input scenes. Which scenes survive then is stated through `RepairedKeys` and `Gather`.
- Scene, ending and effect keys are assumed not to be names inherited from `Object.prototype` (such as "toString" or "constructor"). JavaScript bracket lookups find those through the prototype chain. A saved `currentSceneId` of "toString" would be re-entered by `load` (script_5MB_FIXED.js:450) without a "Missing scene" entry, and `!trimmed[k]` (FINAL_STORY.js:84) would skip a key "constructor". The model treats every lookup as plain map membership.
- Effects objects are sequences of key/value pairs. A real object lists each key once, so the model's sequences with a repeated key stand for no object; on those, `Delta` reads the first entry.
- `Normaliser.Normalize` and `Normaliser.Repair` model the pass with both corrections listed under "## Findings". As written, six distinct endings and loop-freedom are not guaranteed (`Normaliser.SynthClashDuplicates`, `Normaliser.SelfLoopSurvivesRewrite`).
- `Normaliser.NormalizeTwice`: re-running the normaliser is proved to keep `meta.total` and, when the first run found a start scene, `meta.start`; `meta.endings` is not promised stable, because it is not. With more than 2513 scenes, the keepers-first trim moves an "intro" that is an ending ahead of the detected endings (`Normaliser.NormalizeTwiceReordersEndings`), and `filter(Boolean)` can empty a choices array and turn a scene whose id contains "ending" into a newly detected ending (`Normaliser.FilterCanMakeAnEnding`). `meta.start` can also move when the first run found no start scene. An empty input is one example: the first run keeps the preset "intro", which names no scene, and the second run starts at `ending_synth_0`. Scene content after a second run follows `meta.endings`. The rewrite sets `goTo` but keeps `next`, so a choice whose `next` names its own scene is redirected again, to the second run's first ending other than that scene. Every other choice already present is kept as it is (`Normaliser.RewriteChoices`; with the same target, `Normaliser.RewriteIdempotent`).

## Findings

| source | as written | input that shows it | evidently intended | confidence | as-written member | corrected member |
|---|---|---|---|---|---|---|
| FINAL_STORY.js:52-56 | `ending_synth_${i}` is pushed onto `meta.endings` even when a scene of that id already exists and is already listed as a detected ending | a map with scenes `intro` and `ending_synth_0`, where only `ending_synth_0` is an ending: `meta.endings` starts with `ending_synth_0` twice | six distinct ending ids | not executed | Normaliser.SynthClashDuplicates | Normaliser.SynthesizeEndings |
| FINAL_STORY.js:64-66 | a self-loop is redirected to `meta.endings[0]`, which may be the looping scene itself | a scene `ending_stay` with a choice to `ending_stay`, listed first among the endings: the rewrite leaves the loop in place | "choices do not point to self": redirect to an ending other than the scene | not executed | Normaliser.SelfLoopSurvivesRewrite | Normaliser.RewriteSelfLoops |
