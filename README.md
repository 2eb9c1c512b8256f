# hanzi-writer: a Dafny model of the lookup, stroke-stepping and speech logic

The application turns a word into its Chinese characters, then animates each
character stroke by stroke and reads it aloud. Three outside services do the
heavy lifting: an AI text generator behind `/api/generate`, the HanziWriter
stroke-order library loaded from a CDN, and the browser's speech synthesis.
This project models the logic the repository owns around them. Each service
is an input to that logic.

- **Stroke-position controller** (`components/hanzi-writer-component.tsx`).
  `WriterSession` is a pure state machine over a `Session` value. The
  class `HanziWriter.WriterController` keeps the same state in fields, and
  each of its handlers is a method specified by the matching `WriterSession`
  function. The library is an oracle with two roles. It reports how an
  initialisation went: create failed, data failed, or loaded with `n`
  strokes. It also delivers the completion callback of each animation the
  controller started (the `pending` set), succeeded or failed, whenever it
  chooses. Writer instances are numbered so that a callback knows its
  instance. Calls made on the instance are logged in `calls`.
- **Self-contained stroke stepper** (`components/stroke-animation.tsx`). The
  class `StrokeAnimation.StrokeStepper` holds the index, play and progress
  state. The pure functions beside it split the stroke list into completed,
  active and upcoming strokes. A frame receives its elapsed time as an input.
- **Lookup shell** (`app/page.tsx`). The class
  `LookupPage.CharacterLearningPage` runs the submit state machine. The
  response of the request is an input. Pure helpers cover `isValidChinese`,
  `getDifficultyColor`, the difficulty fallback and the pinyin lookup.
- **Stroke data** (`utils/stroke-data.ts`). This is the static table and the
  sample-stroke generator. `Math.random()` is a function `rand`, where
  `rand(k)` is the k-th draw, in [0, 1).
- **Speech adapter** (`hooks/use-speech.ts`). The class
  `Speech.SpeechAdapter` talks to an abstract engine that holds at most one
  queued utterance. The pure parts are option defaulting, voice choice and
  tone-mark stripping.

Strings are Dafny strings of Unicode scalar values. JavaScript's `length`
counts UTF-16 code units; `JsText.JsLength` models it. `trim` removes the
WhiteSpace and LineTerminator code points of ECMA-262.

## Model

| member | source | states |
|---|---|---|
| `JsText.TrimEmptyIffBlank` | hooks/use-speech.ts:32 | `text.trim()` is empty exactly when every character is white space or a line terminator |
| `JsText.JsLength` | app/page.tsx:291 | JavaScript `length` counts UTF-16 code units: at least one and at most two per character |
| `WriterSession.InitialInvariant` | components/hanzi-writer-component.tsx:19-25 | the first render has stroke 0 of 0, satisfies the controller invariant, and its play flag is clear |
| `WriterSession.Attempt` | components/hanzi-writer-component.tsx:69-99 | loaded data sets the stroke count, index 0 and no error on a fresh writer; failed data shows the data error on the new writer; a failed create only shows the error; the invariant is kept |
| `WriterSession.Retire` | components/hanzi-writer-component.tsx:59-63 | the corrected cleanup: the writer is dropped as at lines 59-63, and in addition its animation is cancelled and the play flag cleared; nothing else changes |
| `WriterSession.InitializeAsWritten` | components/hanzi-writer-component.tsx:66-67 | as written, an attempt made while an error is shown changes nothing, because the target is not mounted (finding) |
| `WriterSession.EffectAsWritten` | components/hanzi-writer-component.tsx:54-57 | as written: while an error is shown the target is not mounted and nothing changes; with a character, a mounted target and loaded data the count is the data's at stroke 0 |
| `WriterSession.Initialize` | components/hanzi-writer-component.tsx:66-100 | the corrected guard (finding): without the library nothing happens; with it and loaded data the new writer shows stroke 0 of the data's count with no error; failed data installs the new writer with the data error; a failed create only shows the error; a replaced writer's animation is cancelled; the invariant `0 <= currentStroke <= totalStrokes` and the honest play flag are kept |
| `WriterSession.Effect` | components/hanzi-writer-component.tsx:54-57 | the corrected guard of line 55 without its `targetRef.current` conjunct (finding): nothing happens without a character or without the library; with both and loaded data the new writer shows stroke 0 of the data's count with no error, also from the error state |
| `WriterSession.LibraryLoaded` | components/hanzi-writer-component.tsx:35-57 | the library becomes available once: a second load changes nothing; with a character and loaded data the new writer shows stroke 0 of the data's count with no error |
| `WriterSession.LibraryFailed` | components/hanzi-writer-component.tsx:38-40 | a failed script load shows the library error |
| `WriterSession.ChangeCharacterAsWritten` | components/hanzi-writer-component.tsx:54-64 | as written: the same character changes nothing; from the error state a new one only drops the writer and the error stays; with the target mounted and loaded data it shows stroke 0 of the new count, the play flag untouched |
| `WriterSession.ChangeCharacter` | components/hanzi-writer-component.tsx:54-64 | the corrected handling (findings): the same character changes nothing; a new one retires the old writer, cancelling its animation, so the play flag is clear; it leaves no writer when it cannot initialise, and on loaded data creates a writer at stroke 0 of the new count, also from the error state |
| `WriterSession.StartAnimation` | components/hanzi-writer-component.tsx:103-118 | without a writer nothing changes; otherwise the flag is set and a full-animation callback targeting the stroke count is pending |
| `WriterSession.PauseAnimation` | components/hanzi-writer-component.tsx:120-125 | without a writer nothing changes; otherwise the animation is cancelled, the flag cleared and the index kept |
| `WriterSession.ResetAnimation` | components/hanzi-writer-component.tsx:127-133 | without a writer nothing changes; otherwise the index is 0 and nothing animates, from any state |
| `WriterSession.AnimateStroke` | components/hanzi-writer-component.tsx:135-143 | without a writer or at or past the stroke count nothing changes; otherwise that stroke is animated and its callback pending |
| `WriterSession.NextStroke` | components/hanzi-writer-component.tsx:145-149 | below the count and with a writer, the current stroke is animated and its callback pending, the index kept until it completes; without a writer or at the count nothing happens |
| `WriterSession.ReplayAnimatesInOrder` | components/hanzi-writer-component.tsx:155-157 | the replay animates exactly n strokes, stroke i as its i-th call |
| `WriterSession.PrevStroke` | components/hanzi-writer-component.tsx:151-160 | nothing at stroke 0; otherwise the character is hidden, strokes 0..currentStroke-2 are replayed and the index goes back by exactly one |
| `WriterSession.CompleteAsWritten` | components/hanzi-writer-component.tsx:107-143 | as written, a completed callback sets the index to its target or past its stroke, whichever writer it came from (finding) |
| `WriterSession.Complete` | components/hanzi-writer-component.tsx:107-143 | a callback of the current writer applies: a completed full animation sets the stroke count and clears the flag, a rejected one shows the animation error, a completed stroke advances past it; one from a replaced writer is discarded; every callback keeps the invariant and the honest play flag |
| `WriterSession.NextStrokeCompletes` | components/hanzi-writer-component.tsx:135-149 | below the count, `nextStroke` and its completion advance the index by exactly one |
| `WriterSession.NextThenPrevRestores` | components/hanzi-writer-component.tsx:135-160 | a completed `nextStroke` followed by `prevStroke` restores the index and replays the strokes before it |
| `WriterSession.StartAnimationCompletes` | components/hanzi-writer-component.tsx:103-118 | on completion the flag is cleared and the index equals the stroke count; on failure the flag is cleared and the animation error is shown |
| `WriterSession.RetryFromErrorState` | components/hanzi-writer-component.tsx:178-192 | from the error state, Retry as written stays in error, while the intended guard recovers with the loaded count |
| `WriterSession.NewCharacterFromErrorState` | components/hanzi-writer-component.tsx:54-64 | from the error state, a new character as written keeps the error and leaves no writer, while the intended guard loads it with its stroke count and no error |
| `WriterSession.StaleCallbackOverrunsStrokeCount` | components/hanzi-writer-component.tsx:54-118 | play 你 (7 strokes), switch to 好 (6): as written the old callback sets stroke 7 of 6 and breaks the invariant; with the intended handling the change cancels the animation and clears the flag, and the late callback only leaves the pending set |
| `HanziWriter.WriterController.constructor` | components/hanzi-writer-component.tsx:18-25 | the first render's state |
| `HanziWriter.WriterController.Initialize` | components/hanzi-writer-component.tsx:66-100 | updates the fields as `WriterSession.Initialize` and keeps the invariant and the honest play flag |
| `HanziWriter.WriterController.RunEffect` | components/hanzi-writer-component.tsx:54-57 | updates the fields as `WriterSession.Effect` |
| `HanziWriter.WriterController.OnLibraryLoaded` | components/hanzi-writer-component.tsx:35-37 | updates the fields as `WriterSession.LibraryLoaded` |
| `HanziWriter.WriterController.OnLibraryFailed` | components/hanzi-writer-component.tsx:38-40 | updates the fields as `WriterSession.LibraryFailed` |
| `HanziWriter.WriterController.Retire` | components/hanzi-writer-component.tsx:59-63 | updates the fields as `WriterSession.Retire` |
| `HanziWriter.WriterController.SetCharacter` | components/hanzi-writer-component.tsx:54-64 | updates the fields as `WriterSession.ChangeCharacter`: the old writer is retired before the effect runs |
| `HanziWriter.WriterController.StartAnimation` | components/hanzi-writer-component.tsx:103-118 | updates the fields as `WriterSession.StartAnimation` |
| `HanziWriter.WriterController.PauseAnimation` | components/hanzi-writer-component.tsx:120-125 | updates the fields as `WriterSession.PauseAnimation` |
| `HanziWriter.WriterController.ResetAnimation` | components/hanzi-writer-component.tsx:127-133 | updates the fields as `WriterSession.ResetAnimation` |
| `HanziWriter.WriterController.AnimateStroke` | components/hanzi-writer-component.tsx:135-143 | updates the fields as `WriterSession.AnimateStroke` |
| `HanziWriter.WriterController.NextStroke` | components/hanzi-writer-component.tsx:145-149 | updates the fields as `WriterSession.NextStroke` |
| `HanziWriter.WriterController.PrevStroke` | components/hanzi-writer-component.tsx:151-160 | its replay loop issues exactly the calls of `WriterSession.PrevStroke` |
| `HanziWriter.WriterController.OnComplete` | components/hanzi-writer-component.tsx:109-141 | updates the fields as `WriterSession.Complete` |
| `StrokeAnimation.RenderPartition` | components/stroke-animation.tsx:131-173 | completed, active and upcoming strokes concatenate to the stroke list for every index; below the length they hold `current`, 1 and `length-current-1` strokes |
| `StrokeAnimation.NextIndex` | components/stroke-animation.tsx:83-88 | advances exactly when below the last index and keeps the index in range |
| `StrokeAnimation.PrevIndex` | components/stroke-animation.tsx:90-95 | retreats by one exactly above 0 |
| `StrokeAnimation.StepRoundTrip` | components/stroke-animation.tsx:83-95 | next from a non-last index then previous restores the index, and so does previous then next |
| `StrokeAnimation.StrokeProgress` | components/stroke-animation.tsx:61 | progress is at most 1; it is 1 exactly when delay plus duration have elapsed, and non-negative exactly when the delay has |
| `StrokeAnimation.PlayFrameCannotAdvance` | components/stroke-animation.tsx:44-45 | the frame that starts playback observes 0 ms elapsed, so it never completes a stroke, and it draws only when the stroke has no delay |
| `StrokeAnimation.StrokeDataIsDrawable` | utils/stroke-data.ts:61-63 | every list `getStrokeData` returns has positive durations, so it can be animated |
| `StrokeAnimation.StrokeStepper.constructor` | components/stroke-animation.tsx:19-21 | paused at stroke 0 with no progress |
| `StrokeAnimation.StrokeStepper.ResetAnimation` | components/stroke-animation.tsx:26-33 | not playing, index 0 and progress 0, from any state |
| `StrokeAnimation.StrokeStepper.NextStroke` | components/stroke-animation.tsx:83-88 | advances only below the last index, resetting progress to 0; keeps the index in range |
| `StrokeAnimation.StrokeStepper.PrevStroke` | components/stroke-animation.tsx:90-95 | retreats only above 0, resetting progress to 0; keeps the index in range |
| `StrokeAnimation.StrokeStepper.AnimateFrame` | components/stroke-animation.tsx:50-80 | no active stroke stops playback; progress is recorded only when non-negative; a finished stroke advances when one follows and stops at the last index otherwise; the next frame is requested exactly when the frame did not stop and the `isPlaying` of its render was set |
| `StrokeAnimation.StrokeStepper.ToggleAnimation` | components/stroke-animation.tsx:36-47 | as written (finding): playing pauses; paused starts playing and runs one frame at 0 ms elapsed, which leaves the index unchanged and never requests a second frame |
| `StrokeAnimation.StrokeStepper.ToggleAnimationIntended` | components/stroke-animation.tsx:36-80 | the intended playback: frames continue while playing; when every frame completes the active stroke, each frame advances one stroke, and enough frames stop playback at the last stroke fully drawn |
| `StrokeData.DatabaseEntries` | utils/stroke-data.ts:10-37 | the table holds 你, 好 and 我 with 7, 6 and 7 strokes, delays 0, 200, 400, ... and durations of at least 500 |
| `StrokeData.LoopCount` | utils/stroke-data.ts:45 | the loop `i < bound` runs the least natural number of times that is at least the bound |
| `StrokeData.SampleStrokesUpTo` | utils/stroke-data.ts:45-56 | the first n generated strokes, stroke i being the i-th sample |
| `StrokeData.SampleCountBounds` | utils/stroke-data.ts:42 | the generated count is at most 12 and at most 3*length+5, and at least 3*length unless it is 12 |
| `StrokeData.SampleStrokeTiming` | utils/stroke-data.ts:53-54 | generated stroke i has delay i*200 and a duration in [500, 1000) |
| `StrokeData.GenerateSampleStrokes` | utils/stroke-data.ts:40-59 | the loop yields between min(3*length, 12) and 12 strokes, delays i*200 and durations in [500, 1000) |
| `StrokeData.GetStrokeData` | utils/stroke-data.ts:61-63 | the table entry for a key of the table, the generated strokes otherwise, and the result is always well timed |
| `LookupPage.CharacterLearningPage.constructor` | app/page.tsx:30-35 | empty input, no results, not loading, no error, no selection, individual view |
| `LookupPage.CharacterLearningPage.SetInputWord` | app/page.tsx:170 | only the input changes |
| `LookupPage.CharacterLearningPage.BeginLookup` | app/page.tsx:65-74 | a blank input shows the validation error and makes no request, leaving results, selection and loading alone; otherwise loading starts with error, results and selection cleared |
| `LookupPage.CharacterLearningPage.FinishLookup` | app/page.tsx:76-106 | a failed fetch, a non-OK status, an unparsable body or an `error` field shows the generic error and keeps results; a body without its array is stored and then fails; success stores it and selects the first character if any; loading ends in every case |
| `LookupPage.CharacterLearningPage.GenerateChineseCharacters` | app/page.tsx:65-107 | a whole submission: validation as above; loading is false afterwards; failure leaves no selection; success selects the first character or nothing for an empty list |
| `LookupPage.CharacterLearningPage.SelectCharacter` | app/page.tsx:54-62 | the character is selected, the view is individual and the error is cleared |
| `LookupPage.CharacterLearningPage.SetViewMode` | app/page.tsx:215-236 | only the view mode changes |
| `LookupPage.ValidChineseIsOneIdeograph` | app/page.tsx:291 | `isValidChinese` holds exactly for one character of the CJK Unified Ideographs block U+4E00..U+9FFF |
| `LookupPage.DifficultyColor` | app/page.tsx:123-134 | beginner is green, intermediate yellow and advanced red, each colour only for its own tier, and everything else is gray |
| `LookupPage.DifficultyTiersDistinct` | app/page.tsx:123-134 | two different tiers never share a badge |
| `LookupPage.DisplayedDifficulty` | app/page.tsx:365-367 | a missing or empty difficulty is shown and coloured as beginner; any other value is shown as it is |
| `LookupPage.FindPinyin` | app/page.tsx:247 | the pinyin of the first record with an equal character; none exactly when no record has it |
| `Speech.LangOr` | hooks/use-speech.ts:40 | a missing or empty language falls back to the default |
| `Speech.NumberOr` | hooks/use-speech.ts:41-43 | a missing number and an explicit 0 both fall back to the default |
| `Speech.ChineseVoice` | hooks/use-speech.ts:46-48 | the first voice whose tag contains `zh` or `CN`; none exactly when there is no such voice |
| `Speech.ConfiguredUtterance` | hooks/use-speech.ts:37-51 | the utterance takes truthy options, else `zh-CN`, 0.8, 1 and 1, and the first Chinese voice whatever language was asked for; no setting is falsy |
| `Speech.StripToneMarks` | hooks/use-speech.ts:73 | no code point of U+0300..U+036F survives, a mark on its own becomes empty, and text without marks is unchanged |
| `Speech.StripToneMarksConcat` | hooks/use-speech.ts:73 | stripping works character by character, keeping the other characters in order |
| `Speech.StripToneMarksKeepsOthers` | hooks/use-speech.ts:73 | every character other than a mark occurs in the result exactly as often as in the input |
| `Speech.StripToneMarksIdempotent` | hooks/use-speech.ts:73 | stripping twice is stripping once |
| `Speech.StripToneMarksExample` | hooks/use-speech.ts:73 | decomposed "ma" + U+0301 + "o" becomes "mao" |
| `Speech.SpeechAdapter.constructor` | hooks/use-speech.ts:17-29 | support is decided on mount; voices are enumerated only where speech is supported |
| `Speech.SpeechAdapter.OnVoicesChanged` | hooks/use-speech.ts:21-27 | the voice list is replaced |
| `Speech.SpeechAdapter.Speak` | hooks/use-speech.ts:31-62 | nothing when unsupported or blank; otherwise any queued utterance is cancelled and the configured one is the only one queued |
| `Speech.SpeechAdapter.Stop` | hooks/use-speech.ts:64-69 | nothing when unsupported; otherwise nothing stays queued and `isSpeaking` is false |
| `Speech.SpeechAdapter.SpeakPinyin` | hooks/use-speech.ts:71-75 | speaks the pinyin without tone marks in `en-US` at rate 0.7 |
| `Speech.SpeechAdapter.SpeakChinese` | hooks/use-speech.ts:77-79 | speaks the text unchanged in `zh-CN` at rate 0.8 |
| `Speech.SpeechAdapter.OnStart` | hooks/use-speech.ts:53 | `isSpeaking` becomes true |
| `Speech.SpeechAdapter.OnEnd` | hooks/use-speech.ts:54-59 | on end or error the utterance leaves the engine and `isSpeaking` becomes false |
| `Speech.SpeechAdapter.OnCancelledError` | hooks/use-speech.ts:57-59 | the error of a cancelled utterance sets `isSpeaking` to false |

## Left out

- Loading the HanziWriter script (components/hanzi-writer-component.tsx:28-51) is reduced to its two outcomes, load and error. The `catch` around creating the script element (lines 42-44) is not modelled, because creating an element does not throw.
- The library calls `create`, `loadCharacterData`, `animateCharacter`, `animateStroke`, `cancelCurrentAnimation` and `hideCharacter` are foreign code. They become the `InitOutcome` oracle, the `pending` callbacks and the `calls` log.
- An initialisation attempt is one step. Handler calls made while `loadCharacterData` is still awaited are not modelled.
- Clearing the target's `innerHTML` is not modelled. It is DOM work.
- The quiz mode (`startQuiz`, lines 162-176) and the Show Character button (line 283) are not modelled. They hand control to the library and only log its callbacks.
- Pending callbacks are a set, so two identical callbacks merge into one. This happens when `nextStroke` is clicked twice on the same stroke before it completes. It also happens on Play, Pause, Play: the paused animation's `FullAnimation` callback stays pending and the second Play adds an identical one. The library holds two callbacks in both cases, and the second delivery is lost in the model, for example one that sets `currentStroke` to `totalStrokes` again after a Reset. Every property here is about a single delivery.
- The library may still deliver a cancelled animation's callback. The model leaves that choice to the oracle: a paused animation's callback stays pending.
- The progress bars are floating-point displays, including the 0/0 when `totalStrokes` is 0 (components/hanzi-writer-component.tsx:267, components/stroke-animation.tsx:215-227).
- `requestAnimationFrame` and `Date.now` are not modelled (components/stroke-animation.tsx:36-80). A frame receives its elapsed time as an input. `ToggleAnimationIntended` receives the elapsed times of its successive frames as a sequence.
- StrokeAnimation.StrokeStepper.AnimateFrame and StrokeAnimation.StrokeStepper.ToggleAnimation model the stale `isPlaying` explicitly: a frame requests the next one only when the `isPlaying` of its render was set. As written, Play's only frame is idle and no further frame is ever requested (see "## Findings"). The advance-and-stop behaviour of `AnimateFrame` is therefore reached only through the intended playback, `ToggleAnimationIntended`.
- JavaScript numbers are modelled as real numbers, and IEEE double rounding is not modelled.
- StrokeData.SampleStrokeTiming: `duration < 1000` holds over the reals. In doubles, `500 + r * 500` rounds to exactly 1000 for the largest `r` below 1.
- StrokeData.GenerateSampleStrokes: the same `duration < 1000` bound holds over the reals only.
- StrokeAnimation.StrokeProgress: the `p == 1` boundary is exact over the reals. In doubles, a quotient just below 1 can round to 1.
- StrokeAnimation.StrokeStepper.constructor: requires positive durations. Division by a zero or negative duration yields IEEE infinities or NaN, and these are not modelled. Every list from `getStrokeData` meets the requirement (`StrokeDataIsDrawable`).
- Generated path coordinates and their SVG text are left out (utils/stroke-data.ts:46-52). A generated stroke's path is `RandomSegment`.
- Keys that `strokeDatabase` inherits from `Object.prototype`, such as `toString`, are not modelled. The table is a plain map.
- `fetch`, JSON parsing and the race between overlapping submissions are not modelled (app/page.tsx:77-89). The response is an input, and a later submission's response is not ordered against an earlier one's.
- A `characters` field that is present but not an array is not modelled.
- Scrolling, `setTimeout` and all JSX and styling are left out (app/page.tsx:44-62).
- The speak buttons of the result list are left out (app/page.tsx:270-334). They are UI wiring: `stop` or `speakChinese` depending on `isSpeaking`.
- Canonical decomposition (NFD) is not modelled. `speakPinyin` receives text that is already decomposed.
- The speech engine's timing and the `voiceschanged` event timing are not modelled. The `typeof window` check is folded into the support flag.
- Strings are sequences of Unicode scalar values. JavaScript strings with lone surrogates are not modelled.
- WriterSession.PrevStroke: requires a writer. The source dereferences `writerRef.current` without a guard and would throw; the button is only enabled once a writer exists.
- HanziWriter.WriterController.PrevStroke: the same requirement, for the same reason.
- Speech.SpeechAdapter.OnVoicesChanged: requires support. The handler is only registered where speech is supported.
- `app/api/generate/route.ts`, `components/practice-canvas.tsx`, `components/character-comparison.tsx`, `app/layout.tsx` and `next.config.js` are not part of this model. They are a thin service wrapper, canvas drawing, presentation and configuration.

## Findings

| source | as written | input that shows it | evidently intended | confidence | as-written member | corrected member |
|---|---|---|---|---|---|---|
| components/hanzi-writer-component.tsx:67 | `initializeWriter` returns when `targetRef.current` is null, and the target `<div>` is only rendered while no error is shown (lines 178-192), so the Retry button leaves the error in place forever | library loaded, then `loadCharacterData` rejects; Retry with data that now loads | Retry re-attempts initialisation | medium, not executed | `WriterSession.InitializeAsWritten` | `WriterSession.Initialize` |
| components/hanzi-writer-component.tsx:55 | the effect for a new `character` requires `targetRef.current`, which is null while the error panel is shown, so choosing another character from the error state leaves the error in place | data for 你 fails to load; the page then selects 好, whose data loads | a new character re-attempts initialisation | medium, not executed | `WriterSession.ChangeCharacterAsWritten` | `WriterSession.ChangeCharacter` |
| components/hanzi-writer-component.tsx:109-112 | a completion callback still applies after the character has changed and the writer has been replaced, with the old stroke count captured | play 你 (7 strokes), select 好 (6 strokes) before it ends: `currentStroke` becomes 7 of 6 | the old writer's animation is cancelled on the change (`WriterSession.Retire`) and its late callback ignored, keeping `currentStroke <= totalStrokes` and leaving no play flag set without an animation to clear it | medium, not executed | `WriterSession.CompleteAsWritten` | `WriterSession.Complete` |
| components/stroke-animation.tsx:77 | `animate` tests the `isPlaying` of the render in which Play was pressed, which is false, so no frame after the first is requested; that first frame observes about 0 ms elapsed, so it completes no stroke and draws nothing when the stroke has a delay | press Play on the paused animation of any character: the Pause icon shows, and the strokes never advance | each frame requests the next while playback is on, so the strokes are drawn one after another up to the last | high, not executed | `StrokeAnimation.StrokeStepper.ToggleAnimation` | `StrokeAnimation.StrokeStepper.ToggleAnimationIntended` |

The controller class uses the corrected members. The lemmas
`RetryFromErrorState`, `NewCharacterFromErrorState` and
`StaleCallbackOverrunsStrokeCount` show the controller's discrepancies.
For the stroke stepper, the contract of `ToggleAnimation` (no second frame,
the index unchanged) and the lemma `PlayFrameCannotAdvance` show the
discrepancy. `ToggleAnimationIntended` has the intended playback proved.
