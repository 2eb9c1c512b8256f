/**
 * The component of components/hanzi-writer-component.tsx as an object: its
 * state variables are fields and each handler is a method that updates them
 * in the source's order. Every method is specified by the matching function
 * of WriterSession, where the properties are proved.
 */
module HanziWriter {
  import opened Wrappers
  import opened WriterSession

  class WriterController {
    var character: string
    var libraryLoaded: bool
    var writer: Option<nat>
    var writersCreated: nat
    var isAnimating: bool
    var currentStroke: nat
    var totalStrokes: nat
    var error: Option<ErrorKind>
    var pending: set<Pending>
    var calls: seq<WriterCall>

    /** The component's state as a value. */
    function State(): Session
      reads this
    {
      Session(character, libraryLoaded, writer, writersCreated, isAnimating,
              currentStroke, totalStrokes, error, pending, calls)
    }

    predicate Valid()
      reads this
    {
      Invariant(State()) && FlagTracked(State())
    }

    constructor (character: string)
      ensures Valid() && State() == Initial(character)
    {
      this.character := character;
      libraryLoaded := false;
      writer := None;
      writersCreated := 0;
      isAnimating := false;
      currentStroke := 0;
      totalStrokes := 0;
      error := None;
      pending := {};
      calls := [];
    }

    /** `initializeWriter` (with the guard that also admits the error state,
        and the replaced writer's animation cancelled). */
    method Initialize(outcome: InitOutcome)
      requires Valid()
      modifies this
      ensures Valid() && State() == WriterSession.Initialize(old(State()), outcome)
    {
      if !libraryLoaded {
        return;
      }
      if outcome.CreateFailed? {
        error := Some(CharacterDataUnavailable);
        return;
      }
      Retire();
      calls := calls + [Create(character)];
      writer := Some(writersCreated);
      writersCreated := writersCreated + 1;
      if outcome.Loaded? {
        totalStrokes := outcome.strokeCount;
        currentStroke := 0;
        error := None;
      } else {
        error := Some(CharacterDataUnavailable);
      }
    }

    /** The effect on `[isLoaded, character]`. */
    method RunEffect(outcome: InitOutcome)
      requires Valid()
      modifies this
      ensures Valid() && State() == Effect(old(State()), outcome)
    {
      if character != "" {
        Initialize(outcome);
      }
    }

    /** The script's `onload`. */
    method OnLibraryLoaded(outcome: InitOutcome)
      requires Valid()
      modifies this
      ensures Valid() && State() == LibraryLoaded(old(State()), outcome)
    {
      if !libraryLoaded {
        libraryLoaded := true;
        writer := None;
        RunEffect(outcome);
      }
    }

    /** Drop the writer, cancelling its animation and clearing the play flag. */
    method Retire()
      requires Valid()
      modifies this
      ensures Valid() && State() == WriterSession.Retire(old(State()))
    {
      if writer.Some? {
        calls := calls + [CancelCurrentAnimation];
      }
      writer := None;
      isAnimating := false;
    }

    /** The script's `onerror`. */
    method OnLibraryFailed()
      requires Valid()
      modifies this
      ensures Valid() && State() == LibraryFailed(old(State()))
    {
      error := Some(LibraryLoadFailed);
    }

    /** A new `character` prop. */
    method SetCharacter(newCharacter: string, outcome: InitOutcome)
      requires Valid()
      modifies this
      ensures Valid() && State() == ChangeCharacter(old(State()), newCharacter, outcome)
    {
      if newCharacter != character {
        Retire();
        character := newCharacter;
        RunEffect(outcome);
      }
    }

    /** `startAnimation` */
    method StartAnimation()
      requires Valid()
      modifies this
      ensures Valid() && State() == WriterSession.StartAnimation(old(State()))
    {
      if writer.None? {
        return;
      }
      isAnimating := true;
      calls := calls + [AnimateCharacter];
      pending := pending + {FullAnimation(writer.value, totalStrokes)};
    }

    /** `pauseAnimation` */
    method PauseAnimation()
      requires Valid()
      modifies this
      ensures Valid() && State() == WriterSession.PauseAnimation(old(State()))
    {
      if writer.None? {
        return;
      }
      calls := calls + [CancelCurrentAnimation];
      isAnimating := false;
    }

    /** `resetAnimation` */
    method ResetAnimation()
      requires Valid()
      modifies this
      ensures Valid() && State() == WriterSession.ResetAnimation(old(State()))
    {
      if writer.None? {
        return;
      }
      calls := calls + [HideCharacter];
      currentStroke := 0;
      isAnimating := false;
    }

    /** `animateStroke(strokeNum)` */
    method AnimateStroke(strokeNum: nat)
      requires Valid()
      modifies this
      ensures Valid() && State() == WriterSession.AnimateStroke(old(State()), strokeNum)
    {
      if writer.None? || strokeNum >= totalStrokes {
        return;
      }
      calls := calls + [AnimateOneStroke(strokeNum, false)];
      pending := pending + {OneStroke(writer.value, strokeNum)};
    }

    /** `nextStroke` */
    method NextStroke()
      requires Valid()
      modifies this
      ensures Valid() && State() == WriterSession.NextStroke(old(State()))
    {
      if currentStroke < totalStrokes {
        AnimateStroke(currentStroke);
      }
    }

    /** `prevStroke`: hides the character, replays strokes 0 .. currentStroke - 2
        one call at a time, then steps the index back. */
    method PrevStroke()
      requires Valid() && writer.Some?
      modifies this
      ensures Valid() && State() == WriterSession.PrevStroke(old(State()))
    {
      if currentStroke > 0 {
        calls := calls + [HideCharacter];
        var i := 0;
        while i < currentStroke - 1
          invariant 0 <= i <= currentStroke - 1
          invariant calls == old(calls) + [HideCharacter] + Replay(i)
          invariant State() == old(State()).(calls := calls)
        {
          calls := calls + [AnimateOneStroke(i, true)];
          i := i + 1;
        }
        currentStroke := currentStroke - 1;
      }
    }

    /** The library delivers the callback of `p` (with the intended handling of
        callbacks from a replaced writer). */
    method OnComplete(p: Pending, succeeded: bool)
      requires Valid() && p in pending
      modifies this
      ensures Valid() && State() == Complete(old(State()), p, succeeded)
    {
      pending := pending - {p};
      if writer != Some(p.writer) {
        return;
      }
      match p
      case FullAnimation(_, target) =>
        isAnimating := false;
        if succeeded {
          currentStroke := target;
        } else {
          error := Some(AnimationFailed);
        }
      case OneStroke(_, stroke) =>
        if succeeded {
          currentStroke := stroke + 1;
        }
    }
  }
}
