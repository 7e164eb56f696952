# keybr practice session — a Dafny model

This project models the practice-session controller of keybr.com: the
`PracticeState` class and the `makeLastLesson` helper of
`packages/page-practice/lib/practice/practicestate.ts`.

A `PracticeState` is built once per lesson context. It turns past results into
per-key statistics, the statistics into a key selection, and the selection into
a random text that a keystroke engine (`TextInput`) is opened on. After that:

- `resetLesson` reopens an engine on the same text;
- `skipLesson` draws a new text from the same key selection;
- `onTextInput` forwards one input event to the engine and returns the engine's
  feedback. It refreshes the cached `lines` and `suffix`, and it appends a result
  record to the caller's sink whenever the engine reports the text as completed.

Announcements are computed once, at construction. There is at most one: the
focused key of the selection, if there is some history and that key has no
recorded samples. `makeLastLesson` turns a result record's per-character
breakdown into hit and miss histograms.

Files:

- `unicode.dfy` (module `Unicode`): code points.
- `options.dfy` (module `Options`): the optional value used for `T | null`.
- `settings.dfy` (module `Preferences`): the settings the session reads,
  including the layout and text-type identifiers.
- `textinput.dfy` (module `TextInputs`): the keystroke engine as an abstract
  class, with its steps and the statistics built from them (`newStats`). Its
  view, steps and completion flag change arbitrarily on input. Its ghost
  `received` log records each event with the feedback returned for it.
- `results.dfy` (module `Results`): histogram samples, the `Result` record,
  `FromStats`, and the `ResultSink` whose ghost `log` records every appended
  result.
- `lesson.dfy` (module `Lessons`): key statistics, key selections, and the
  lesson policy. `analyze` and `update` are function values. `Generate` returns
  an arbitrary text and records each call (keys, text) in the ghost `draws` log.
- `practicestate.dfy` (module `Practice`): the session class, the announcement
  rule, `MakeLastLesson`, and its reference definition `Tally` with lemmas.

The session's `readonly` fields (`settings`, `lesson`, `results`,
`keyStatsMap`, `lessonKeys`, `showTour` and the derived engine and display
settings) are Dafny `const` fields. Dafny therefore enforces that they are
assigned once, in the constructor, and never changed. The fields the source
reassigns (`textInput`, `lines`, `suffix`, `lastLesson`, `depressedKeys`) are
`var` fields. Every method's `modifies` clause names the ones it may touch.
`announcements` is a `readonly` array in the source that is changed in place by
a push. The model turns it into a `var` sequence. Only `ComputeAnnouncements`
extends it, once, during construction. Every later method ensures it is
unchanged. `textInput` is nullable (`TextInput?`) because the source
assigns it after construction has begun (`textInput!`). The invariant `Valid()`
requires it to be non-null once the constructor returns. `Valid()` also requires
the cached lines and suffix to equal the engine's.

## Model

| member | source | states |
|---|---|---|
| `Practice.PracticeState.constructor` | packages/page-practice/lib/practice/practicestate.ts:41-54 | The statistics are `analyze(results)`. The key selection is `update` of those statistics. Exactly one text is drawn, from that selection, and the new engine is opened on it. The view mirrors the engine, and the announcements follow the focus rule. `lastLesson` is none and `depressedKeys` is empty. Nothing is appended. |
| `Practice.PracticeState.ResetLesson` | packages/page-practice/lib/practice/practicestate.ts:56-58 | A fresh engine with no input holds the previous engine's text. No text is drawn and nothing is appended. The view mirrors the new engine, and the announcements, `lastLesson` and `depressedKeys` are unchanged. |
| `Practice.PracticeState.SkipLesson` | packages/page-practice/lib/practice/practicestate.ts:60-62 | Exactly one new text is drawn, from the session's fixed key selection. A fresh engine with no input holds that text. Nothing is appended, the view mirrors the new engine, and the other fields are unchanged. |
| `Practice.PracticeState.OnTextInput` | packages/page-practice/lib/practice/practicestate.ts:64-79 | The event goes to the same engine, once. The returned feedback is the engine's answer to that event. The cached lines and suffix mirror the engine afterwards. The sink gains exactly one record if the engine then reports completion, and none otherwise. That record carries the settings' layout and text type, the given time and the engine's steps. |
| `Practice.PracticeState.Reset` | packages/page-practice/lib/practice/practicestate.ts:81-85 | A fresh engine over the given fragment, with the engine settings derived at construction; lines and suffix are refreshed from it together. |
| `Practice.PracticeState.ComputeAnnouncements` | packages/page-practice/lib/practice/practicestate.ts:87-98 | Appends to the announcements exactly the entries of the focus rule, `FocusAnnouncements`. |
| `Practice.FocusAnnouncements` | packages/page-practice/lib/practice/practicestate.ts:87-98 | At most one announcement. There is none when the history is empty or no key is focused. A key is announced exactly when the history is non-empty, the key is the focused key and its statistics hold zero samples. |
| `Practice.MakeLastLesson` | packages/page-practice/lib/practice/practicestate.ts:101-110 | The record is returned unchanged. The hits and misses maps hold exactly the code points of the record's breakdown. Each code point maps to the hit and miss counts of its last entry, because `set` overwrites. |
| `Practice.TallyKeys` | packages/page-practice/lib/practice/practicestate.ts:102-108 | Filling an empty histogram entry by entry yields exactly the breakdown's code points: none invented, none dropped. |
| `Practice.CodePointsListed` | packages/page-practice/lib/practice/practicestate.ts:105 | The code points of a breakdown are exactly those that some entry lists, in both directions. |
| `Practice.TallyLastWins` | packages/page-practice/lib/practice/practicestate.ts:105-108 | For a repeated code point, the entry filled last decides the value. |
| `Practice.ResetAndSkipScenario` | packages/page-practice/lib/practice/practicestate.ts:56-62 | Shown from the contracts alone: two resets in a row leave the text as constructed. Construction and a later skip both draw from the same key selection, `update(analyze(results))`. No result is appended along the way. |
| `Results.FromStats` | packages/page-practice/lib/practice/practicestate.ts:70-75 | The appended record keeps the layout, text type, timestamp and statistics it is built from. |

## Left out

- The keystroke engine's internals are not modelled: keystroke diffing, line and suffix layout, the completion rule and step accounting. They live in the text-input library. The engine's view, steps and completion flag may take any value after each input.
- The lesson policy's internals are not modelled: `analyze`, `update`, `generate` and `findFocusedKey`. `analyze` and `update` are arbitrary function values. `generate` returns an arbitrary text. The answer of `findFocusedKey` is a field of the key selection.
- Result.fromStats and newStats: the statistics formatting and the derivation of the record's histogram from the steps are external. The record's histogram is left unconstrained.
- `Date.now()` is a clock, so `OnTextInput` takes the timestamp as the parameter `now`.
- Settings plumbing is not modelled: `toTextInputSettings`, `toTextDisplaySettings` and `settings.get` are field projections of a `Settings` value.
- `Histogram` and `KeySet` are modelled as plain maps. The source gives both histograms one shared `KeySet`. The model keeps their key sets equal instead, which is proved: both equal the breakdown's code points.
- The floating-point `timeToType` of histogram samples is not modelled.
- Practice.PracticeState.OnTextInput: the contract covers one call. Across calls, the source appends at most once per text only if the engine refuses input after completion. That guarantee belongs to the engine and is not modelled. An engine that stayed completed would make each later input append again, and the model allows this too.
- `lastLesson` and `depressedKeys` are assigned by callers outside this file. The model only shows that the file's own methods never change them.
- Collaborator failures are not modelled: `analyze`, `update`, `generate`, the engine, `Result.fromStats` and the sink always return. The source has no error handling of its own and lets their exceptions propagate. The model therefore says nothing about the partial state left behind by an exception. For example, if the sink throws, `lines` and `suffix` have already been refreshed.
- `Announcement` is reduced to the announced key, and the engine's `LineList` and `Feedback` are opaque types.
