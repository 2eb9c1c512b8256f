/**
 * The stroke-position controller of components/hanzi-writer-component.tsx,
 * as a state machine over values. The HanziWriter library is an oracle: an
 * initialisation attempt reports how it went (`InitOutcome`, carrying the
 * stroke count of the loaded character data), and each animation the
 * controller starts is answered later by one completion callback
 * (`Pending`), which the library delivers, succeeded or failed, whenever it
 * chooses. The calls the controller makes on the writer instance are logged
 * in `calls`.
 *
 * Writer instances are numbered in creation order, so that a callback knows
 * which instance it came from.
 */
module WriterSession {
  import opened Wrappers

  /** The messages of the controller's error panel. */
  datatype ErrorKind =
    | LibraryLoadFailed          // the CDN script failed to load
    | CharacterDataUnavailable   // creating the writer or loading the character's data failed
    | AnimationFailed            // the full-character animation was rejected

  /** A call the controller makes on the writer instance. */
  datatype WriterCall =
    | Create(character: string)
    | AnimateCharacter
    | CancelCurrentAnimation
    | HideCharacter
    | AnimateOneStroke(stroke: nat, quick: bool)   // quick: the 100 ms replay of `prevStroke`

  /** An animation whose completion callback has not been delivered yet, with
      the writer instance that runs it and what the callback will set. */
  datatype Pending =
    | FullAnimation(writer: nat, target: nat)   // onComplete sets currentStroke to target
    | OneStroke(writer: nat, stroke: nat)  // onComplete sets currentStroke to stroke + 1

  /** How the library answered an initialisation attempt. */
  datatype InitOutcome =
    | CreateFailed               // `HanziWriter.create` threw: no new instance
    | DataFailed                 // the instance exists, `loadCharacterData` was rejected
    | Loaded(strokeCount: nat)   // the instance exists and the character has this many strokes

  datatype Session = Session(
    character: string,
    libraryLoaded: bool,       // isLoaded: `window.HanziWriter` is available
    writer: Option<nat>,       // writerRef.current, by instance number
    writersCreated: nat,       // instances created so far; the next one gets this number
    isAnimating: bool,
    currentStroke: nat,
    totalStrokes: nat,
    error: Option<ErrorKind>,
    pending: set<Pending>,
    calls: seq<WriterCall>)

  /** The state of the first render for `character`. */
  function Initial(character: string): Session
  {
    Session(character, false, None, 0, false, 0, 0, None, {}, [])
  }

  /** What a callback of the current writer will set is within the stroke
      count: the full animation's target is the count, an animated stroke is
      below it. */
  predicate WithinStrokes(p: Pending, totalStrokes: nat)
  {
    match p
    case FullAnimation(_, target) => target == totalStrokes
    case OneStroke(_, stroke) => stroke < totalStrokes
  }

  /** The controller's invariant: the stroke index is within the stroke count,
      a writer exists only once the library is loaded, instance numbers were
      handed out, and every pending callback of the current writer keeps the
      index within the count. */
  predicate Invariant(s: Session)
  {
    && s.currentStroke <= s.totalStrokes
    && (s.writer.Some? ==> s.libraryLoaded && s.writer.value < s.writersCreated)
    && (forall p | p in s.pending :: p.writer < s.writersCreated)
    && (forall p | p in s.pending && s.writer == Some(p.writer) :: WithinStrokes(p, s.totalStrokes))
  }

  /** The play flag is honest: while it is set, the current writer's full
      animation is pending, so its callback will clear the flag. */
  predicate FlagTracked(s: Session)
  {
    s.isAnimating ==> s.writer.Some? && FullAnimation(s.writer.value, s.totalStrokes) in s.pending
  }

  lemma InitialInvariant(character: string)
    ensures Invariant(Initial(character)) && FlagTracked(Initial(character))
    ensures Initial(character).currentStroke == 0 && Initial(character).totalStrokes == 0
  {
  }

  /** The target `<div>` is rendered only on the main branch: once the library
      is loaded and while no error is shown. */
  predicate TargetMounted(s: Session)
  {
    s.libraryLoaded && s.error.None?
  }

  /** The effect of an initialisation attempt that passed its guard. A created
      instance replaces the writer; on loaded data the stroke count is the
      data's, the index is 0 and the error is cleared. */
  function Attempt(s: Session, outcome: InitOutcome): (r: Session)
    requires Invariant(s) && s.libraryLoaded
    ensures Invariant(r)
    ensures outcome.Loaded? ==>
      && r.totalStrokes == outcome.strokeCount && r.currentStroke == 0 && r.error.None?
      && r.writer == Some(s.writersCreated) && r.calls == s.calls + [Create(s.character)]
    ensures outcome.DataFailed? ==>
      && r.error == Some(CharacterDataUnavailable) && r.writer == Some(s.writersCreated)
      && r.currentStroke == s.currentStroke && r.totalStrokes == s.totalStrokes
    ensures outcome.CreateFailed? ==>
      r == s.(error := Some(CharacterDataUnavailable))
    ensures r.isAnimating == s.isAnimating && r.pending == s.pending
  {
    match outcome
    case CreateFailed =>
      s.(error := Some(CharacterDataUnavailable))
    case DataFailed =>
      s.(writer := Some(s.writersCreated), writersCreated := s.writersCreated + 1,
         calls := s.calls + [Create(s.character)],
         error := Some(CharacterDataUnavailable))
    case Loaded(n) =>
      s.(writer := Some(s.writersCreated), writersCreated := s.writersCreated + 1,
         calls := s.calls + [Create(s.character)],
         totalStrokes := n, currentStroke := 0, error := None)
  }

  /** `initializeWriter` as written: it returns at once unless the target
      element is mounted, and the target is not mounted while an error is
      shown, so an attempt from the error state (the Retry button, or a new
      character) changes nothing. */
  function InitializeAsWritten(s: Session, outcome: InitOutcome): (r: Session)
    requires Invariant(s)
    ensures Invariant(r)
    ensures s.error.Some? ==> r == s
  {
    if !TargetMounted(s) then s else Attempt(s, outcome)
  }

  /** What the controller evidently intends when it drops a writer: the
      writer's animation is cancelled and the play flag cleared, so that no
      callback is left to clear it. */
  function Retire(s: Session): (r: Session)
    requires Invariant(s)
    ensures Invariant(r) && FlagTracked(r)
    ensures r.writer.None? && !r.isAnimating
    ensures r.calls == s.calls + (if s.writer.Some? then [CancelCurrentAnimation] else [])
    ensures r == s.(writer := None, isAnimating := false, calls := r.calls)
  {
    if s.writer.None? then s.(isAnimating := false)
    else s.(writer := None, isAnimating := false, calls := s.calls + [CancelCurrentAnimation])
  }

  /** `initializeWriter` with the guard it evidently intends: it needs only the
      library. It therefore also recovers from the error state. A created
      instance replaces the old writer, whose animation is cancelled. */
  function Initialize(s: Session, outcome: InitOutcome): (r: Session)
    requires Invariant(s)
    ensures Invariant(r)
    ensures FlagTracked(s) ==> FlagTracked(r)
    ensures !s.libraryLoaded ==> r == s
    ensures s.libraryLoaded && outcome.Loaded? ==>
      r.totalStrokes == outcome.strokeCount && r.currentStroke == 0 && r.error.None?
      && r.writer == Some(s.writersCreated) && !r.isAnimating
    ensures s.libraryLoaded && outcome.DataFailed? ==>
      r.error == Some(CharacterDataUnavailable) && r.writer == Some(s.writersCreated) && !r.isAnimating
    ensures s.libraryLoaded && outcome.CreateFailed? ==> r == s.(error := Some(CharacterDataUnavailable))
  {
    if !s.libraryLoaded then s
    else if outcome.CreateFailed? then Attempt(s, outcome)
    else Attempt(Retire(s), outcome)
  }

  /** The effect on `[isLoaded, character]` as written: it initialises only
      when a character is set and the target element is mounted, which it is
      not while an error is shown. */
  function EffectAsWritten(s: Session, outcome: InitOutcome): (r: Session)
    requires Invariant(s)
    ensures Invariant(r)
    ensures s.error.Some? ==> r == s
    ensures s.character != "" && TargetMounted(s) && outcome.Loaded? ==>
      r.totalStrokes == outcome.strokeCount && r.currentStroke == 0 && r.error.None?
  {
    if s.character != "" && TargetMounted(s) then InitializeAsWritten(s, outcome) else s
  }

  /** The effect with the intended guard: initialise when a character is set
      and the library is loaded, also from the error state. */
  function Effect(s: Session, outcome: InitOutcome): (r: Session)
    requires Invariant(s)
    ensures Invariant(r)
    ensures FlagTracked(s) ==> FlagTracked(r)
    ensures s.character == "" || !s.libraryLoaded ==> r == s
    ensures s.character != "" && s.libraryLoaded && outcome.Loaded? ==>
      r.totalStrokes == outcome.strokeCount && r.currentStroke == 0 && r.error.None?
      && r.writer == Some(s.writersCreated)
  {
    if s.character != "" then Initialize(s, outcome) else s
  }

  /** The script's `onload`: the library becomes available, the effect's
      cleanup drops the writer and the effect initialises. */
  function LibraryLoaded(s: Session, outcome: InitOutcome): (r: Session)
    requires Invariant(s)
    ensures Invariant(r) && r.libraryLoaded
    ensures FlagTracked(s) ==> FlagTracked(r)
    ensures s.libraryLoaded ==> r == s
    ensures !s.libraryLoaded && s.character == "" ==> r.writer.None?
    ensures !s.libraryLoaded && s.character != "" && outcome.Loaded? ==>
      r.totalStrokes == outcome.strokeCount && r.currentStroke == 0 && r.error.None?
      && r.writer == Some(s.writersCreated)
  {
    if s.libraryLoaded then s else Effect(s.(libraryLoaded := true, writer := None), outcome)
  }

  /** The script's `onerror`. */
  function LibraryFailed(s: Session): (r: Session)
    requires Invariant(s)
    ensures Invariant(r) && r.error == Some(LibraryLoadFailed)
    ensures FlagTracked(s) ==> FlagTracked(r)
  {
    s.(error := Some(LibraryLoadFailed))
  }

  /** A new `character` prop as written: the effect's cleanup drops the
      writer, leaving its animation and the play flag alone, and the effect
      initialises for the new character only if the target is mounted. */
  function ChangeCharacterAsWritten(s: Session, character: string, outcome: InitOutcome): (r: Session)
    requires Invariant(s)
    ensures Invariant(r)
    ensures character == s.character ==> r == s
    ensures character != s.character && s.error.Some? ==>
      r == s.(character := character, writer := None)
    ensures character != s.character && character != "" && TargetMounted(s) && outcome.Loaded? ==>
      r.totalStrokes == outcome.strokeCount && r.currentStroke == 0 && r.error.None?
      && r.writer == Some(s.writersCreated) && r.isAnimating == s.isAnimating
  {
    if character == s.character then s
    else EffectAsWritten(s.(character := character, writer := None), outcome)
  }

  /** A new `character` prop with the intended handling: the old writer is
      retired (its animation cancelled, the play flag cleared) and the effect
      initialises for the new character, also from the error state. */
  function ChangeCharacter(s: Session, character: string, outcome: InitOutcome): (r: Session)
    requires Invariant(s)
    ensures Invariant(r)
    ensures character == s.character ==> r == s
    ensures character != s.character ==> r.character == character && !r.isAnimating && FlagTracked(r)
    ensures character != s.character && (character == "" || !s.libraryLoaded || outcome.CreateFailed?) ==>
      r.writer.None? && r.currentStroke == s.currentStroke && r.totalStrokes == s.totalStrokes
    ensures character != s.character && character != "" && s.libraryLoaded && outcome.Loaded? ==>
      r.totalStrokes == outcome.strokeCount && r.currentStroke == 0 && r.error.None?
      && r.writer == Some(s.writersCreated)
      && r.calls == s.calls + (if s.writer.Some? then [CancelCurrentAnimation] else []) + [Create(character)]
  {
    if character == s.character then s
    else Effect(Retire(s).(character := character), outcome)
  }

  /** `startAnimation`: nothing without a writer; otherwise animating, with the
      full animation's callback pending for the current stroke count. */
  function StartAnimation(s: Session): (r: Session)
    requires Invariant(s)
    ensures Invariant(r)
    ensures FlagTracked(s) ==> FlagTracked(r)
    ensures s.writer.None? ==> r == s
    ensures s.writer.Some? ==>
      && r.isAnimating && r.currentStroke == s.currentStroke
      && FullAnimation(s.writer.value, s.totalStrokes) in r.pending
      && r.calls == s.calls + [AnimateCharacter]
  {
    if s.writer.None? then s
    else s.(isAnimating := true,
            pending := s.pending + {FullAnimation(s.writer.value, s.totalStrokes)},
            calls := s.calls + [AnimateCharacter])
  }

  /** `pauseAnimation`: nothing without a writer; otherwise the writer's
      animation is cancelled and the flag cleared, the stroke index kept. */
  function PauseAnimation(s: Session): (r: Session)
    requires Invariant(s)
    ensures Invariant(r)
    ensures FlagTracked(s) ==> FlagTracked(r)
    ensures s.writer.None? ==> r == s
    ensures s.writer.Some? ==>
      && !r.isAnimating && r.currentStroke == s.currentStroke && r.totalStrokes == s.totalStrokes
      && r.calls == s.calls + [CancelCurrentAnimation]
  {
    if s.writer.None? then s
    else s.(calls := s.calls + [CancelCurrentAnimation], isAnimating := false)
  }

  /** `resetAnimation`: nothing without a writer; otherwise the character is
      hidden, the index is 0 and nothing is animating, from any state. */
  function ResetAnimation(s: Session): (r: Session)
    requires Invariant(s)
    ensures Invariant(r)
    ensures FlagTracked(s) ==> FlagTracked(r)
    ensures s.writer.None? ==> r == s
    ensures s.writer.Some? ==>
      && r.currentStroke == 0 && !r.isAnimating && r.totalStrokes == s.totalStrokes
      && r.calls == s.calls + [HideCharacter]
  {
    if s.writer.None? then s
    else s.(calls := s.calls + [HideCharacter], currentStroke := 0, isAnimating := false)
  }

  /** `animateStroke(strokeNum)`: nothing without a writer or past the last
      stroke; otherwise the stroke is animated and its callback pending. */
  function AnimateStroke(s: Session, strokeNum: nat): (r: Session)
    requires Invariant(s)
    ensures Invariant(r)
    ensures FlagTracked(s) ==> FlagTracked(r)
    ensures s.writer.None? || strokeNum >= s.totalStrokes ==> r == s
    ensures s.writer.Some? && strokeNum < s.totalStrokes ==>
      && r.currentStroke == s.currentStroke
      && OneStroke(s.writer.value, strokeNum) in r.pending
      && r.calls == s.calls + [AnimateOneStroke(strokeNum, false)]
  {
    if s.writer.None? || strokeNum >= s.totalStrokes then s
    else s.(calls := s.calls + [AnimateOneStroke(strokeNum, false)],
            pending := s.pending + {OneStroke(s.writer.value, strokeNum)})
  }

  /** `nextStroke`: animate the current stroke when one is left; nothing at
      the end. */
  function NextStroke(s: Session): (r: Session)
    requires Invariant(s)
    ensures Invariant(r)
    ensures FlagTracked(s) ==> FlagTracked(r)
    ensures s.writer.None? || s.currentStroke >= s.totalStrokes ==> r == s
    ensures s.writer.Some? && s.currentStroke < s.totalStrokes ==>
      && OneStroke(s.writer.value, s.currentStroke) in r.pending
      && r.currentStroke == s.currentStroke
      && r.calls == s.calls + [AnimateOneStroke(s.currentStroke, false)]
  {
    if s.currentStroke < s.totalStrokes then AnimateStroke(s, s.currentStroke) else s
  }

  /** The quick replay of `prevStroke`: strokes 0 .. n - 1, in order. */
  function Replay(n: nat): seq<WriterCall>
  {
    if n == 0 then [] else Replay(n - 1) + [AnimateOneStroke(n - 1, true)]
  }

  /** The replay animates exactly `n` strokes, stroke i at position i. */
  lemma {:induction false} ReplayAnimatesInOrder(n: nat)
    ensures |Replay(n)| == n
    ensures forall i | 0 <= i < n :: Replay(n)[i] == AnimateOneStroke(i, true)
  {
    if n > 0 {
      ReplayAnimatesInOrder(n - 1);
    }
  }

  /** `prevStroke` (the source dereferences the writer without a guard): at
      stroke 0 nothing; otherwise the character is hidden, the strokes before
      the previous one are replayed, and the index goes back by one. */
  function PrevStroke(s: Session): (r: Session)
    requires Invariant(s) && s.writer.Some?
    ensures Invariant(r)
    ensures FlagTracked(s) ==> FlagTracked(r)
    ensures s.currentStroke == 0 ==> r == s
    ensures s.currentStroke > 0 ==>
      && r.currentStroke == s.currentStroke - 1 && r.totalStrokes == s.totalStrokes
      && r.calls == s.calls + [HideCharacter] + Replay(s.currentStroke - 1)
  {
    if s.currentStroke > 0 then
      s.(calls := s.calls + [HideCharacter] + Replay(s.currentStroke - 1),
         currentStroke := s.currentStroke - 1)
    else s
  }

  /** The effect of a callback as the source writes it: whichever writer it
      comes from, a completed full animation sets the index to its target and
      clears the flag, a rejected one clears the flag and shows an error, and
      a completed stroke sets the index past that stroke. */
  function Deliver(s: Session, p: Pending, succeeded: bool): Session
  {
    var s' := s.(pending := s.pending - {p});
    match p
    case FullAnimation(_, target) =>
      if succeeded then s'.(isAnimating := false, currentStroke := target)
      else s'.(isAnimating := false, error := Some(AnimationFailed))
    case OneStroke(_, stroke) =>
      if succeeded then s'.(currentStroke := stroke + 1) else s'
  }

  /** Callbacks as written: they apply even when they come from a writer the
      controller has since replaced. */
  function CompleteAsWritten(s: Session, p: Pending, succeeded: bool): (r: Session)
    requires p in s.pending
    ensures succeeded && p.FullAnimation? ==> r.currentStroke == p.target
    ensures succeeded && p.OneStroke? ==> r.currentStroke == p.stroke + 1
  {
    Deliver(s, p, succeeded)
  }

  /** Callbacks with the evident intent: a callback from a replaced writer is
      discarded, so every callback keeps the index within the stroke count. */
  function Complete(s: Session, p: Pending, succeeded: bool): (r: Session)
    requires Invariant(s) && p in s.pending
    ensures Invariant(r)
    ensures FlagTracked(s) ==> FlagTracked(r)
    ensures p !in r.pending
    ensures s.writer != Some(p.writer) ==> r == s.(pending := s.pending - {p})
    ensures s.writer == Some(p.writer) && succeeded && p.FullAnimation? ==>
      r.currentStroke == p.target && !r.isAnimating
    ensures s.writer == Some(p.writer) && !succeeded && p.FullAnimation? ==>
      r.currentStroke == s.currentStroke && !r.isAnimating && r.error == Some(AnimationFailed)
    ensures s.writer == Some(p.writer) && p.OneStroke? ==>
      r.currentStroke == if succeeded then p.stroke + 1 else s.currentStroke
  {
    if s.writer == Some(p.writer) then Deliver(s, p, succeeded)
    else s.(pending := s.pending - {p})
  }

  // ---------------------------------------------------------------------
  // Properties across several handlers
  // ---------------------------------------------------------------------

  /** A completed `nextStroke` advances the index by exactly one. */
  lemma NextStrokeCompletes(s: Session)
    requires Invariant(s) && s.writer.Some? && s.currentStroke < s.totalStrokes
    ensures var s1 := NextStroke(s);
      var p := OneStroke(s.writer.value, s.currentStroke);
      && p in s1.pending
      && Complete(s1, p, true).currentStroke == s.currentStroke + 1
  {
  }

  /** A completed `nextStroke` followed by `prevStroke` returns the index to
      its prior value. */
  lemma NextThenPrevRestores(s: Session)
    requires Invariant(s) && s.writer.Some? && s.currentStroke < s.totalStrokes
    ensures var s1 := NextStroke(s);
      var p := OneStroke(s.writer.value, s.currentStroke);
      var s2 := Complete(s1, p, true);
      && Invariant(s2) && s2.writer.Some?
      && PrevStroke(s2).currentStroke == s.currentStroke
      && PrevStroke(s2).calls[|s2.calls| + 1..] == Replay(s.currentStroke)
  {
    var s1 := NextStroke(s);
    var p := OneStroke(s.writer.value, s.currentStroke);
    var s2 := Complete(s1, p, true);
    assert s2.currentStroke == s.currentStroke + 1;
    var s3 := PrevStroke(s2);
    assert s3.calls == s2.calls + [HideCharacter] + Replay(s.currentStroke);
  }

  /** A started full animation ends with the index at the stroke count and the
      flag cleared when it completes, and with the flag cleared and an error
      when it is rejected. */
  lemma StartAnimationCompletes(s: Session)
    requires Invariant(s) && s.writer.Some?
    ensures var s1 := StartAnimation(s);
      var p := FullAnimation(s.writer.value, s.totalStrokes);
      && p in s1.pending
      && Complete(s1, p, true).currentStroke == s.totalStrokes
      && !Complete(s1, p, true).isAnimating
      && !Complete(s1, p, false).isAnimating
      && Complete(s1, p, false).error == Some(AnimationFailed)
  {
  }

  /** The finding on initialisation: from an error state with the library
      loaded, the as-written guard ignores a retry that would succeed, while
      the intended one recovers. */
  lemma RetryFromErrorState(s: Session, strokeCount: nat)
    requires Invariant(s) && s.libraryLoaded && s.error.Some?
    ensures InitializeAsWritten(s, Loaded(strokeCount)).error.Some?
    ensures Initialize(s, Loaded(strokeCount)).error.None?
    ensures Initialize(s, Loaded(strokeCount)).totalStrokes == strokeCount
  {
  }

  /** The finding on initialisation, for a new character: from an error
      state with the library loaded, the as-written effect leaves the error in
      place however the new character's data would load, while the intended
      guard initialises for it. */
  lemma NewCharacterFromErrorState(s: Session, character: string, strokeCount: nat)
    requires Invariant(s) && s.libraryLoaded && s.error.Some?
    requires character != s.character && character != ""
    ensures ChangeCharacterAsWritten(s, character, Loaded(strokeCount)).error == s.error
    ensures ChangeCharacterAsWritten(s, character, Loaded(strokeCount)).writer.None?
    ensures ChangeCharacter(s, character, Loaded(strokeCount)).error.None?
    ensures ChangeCharacter(s, character, Loaded(strokeCount)).totalStrokes == strokeCount
  {
  }

  /** The finding on callbacks: 你 (7 strokes) is played in full, the page
      selects 好 (6 strokes) before the animation ends, and the old writer's
      callback then sets the index to 7 of 6 strokes. With the intended
      handling the old animation is cancelled on the change, its late
      callback is discarded, and the play flag is already clear. */
  lemma StaleCallbackOverrunsStrokeCount()
    ensures var s0 := LibraryLoaded(Initial("\U{4F60}"), Loaded(7));
      var s1 := StartAnimation(s0);
      var p := FullAnimation(0, 7);
      var w := ChangeCharacterAsWritten(s1, "\U{597D}", Loaded(6));
      var s2 := ChangeCharacter(s1, "\U{597D}", Loaded(6));
      && p in w.pending && Invariant(w) && w.totalStrokes == 6
      && CompleteAsWritten(w, p, true).currentStroke == 7
      && !Invariant(CompleteAsWritten(w, p, true))
      && p in s2.pending && s2.totalStrokes == 6 && !s2.isAnimating
      && Complete(s2, p, true) == s2.(pending := s2.pending - {p})
      && FlagTracked(Complete(s2, p, true))
  {
    var s0 := LibraryLoaded(Initial("\U{4F60}"), Loaded(7));
    assert s0.writer == Some(0) && s0.totalStrokes == 7;
    var s1 := StartAnimation(s0);
    var w := ChangeCharacterAsWritten(s1, "\U{597D}", Loaded(6));
    assert w.writer == Some(1);
    var s2 := ChangeCharacter(s1, "\U{597D}", Loaded(6));
    assert s2.writer == Some(1);
  }
}
