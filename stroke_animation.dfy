/**
 * The self-contained stroke animation (components/stroke-animation.tsx):
 * a stroke index stepped over an explicit list of strokes, with a playing
 * flag and the drawing progress of the active stroke. The frame scheduling
 * (`requestAnimationFrame`, `Date.now`) is replaced by the elapsed time a
 * frame observes, given as an input.
 */
module StrokeAnimation {
  import opened Wrappers
  import opened StrokeData

  // ---------------------------------------------------------------------
  // Rendering: completed strokes, the active stroke, upcoming strokes
  // ---------------------------------------------------------------------

  /** `strokes.slice(0, end)` for a non-negative `end`. */
  function SliceTo<T>(strokes: seq<T>, end: nat): seq<T>
  {
    if end <= |strokes| then strokes[..end] else strokes
  }

  /** `strokes.slice(start)` for a non-negative `start`. */
  function SliceFrom<T>(strokes: seq<T>, start: nat): seq<T>
  {
    if start <= |strokes| then strokes[start..] else []
  }

  /** The strokes drawn in full: `strokes.slice(0, currentStroke)`. */
  function CompletedStrokes<T>(strokes: seq<T>, current: nat): seq<T>
  {
    SliceTo(strokes, current)
  }

  /** The stroke drawn in blue with its progress: `strokes[currentStroke]`, if any. */
  function ActiveStroke<T>(strokes: seq<T>, current: nat): Option<T>
  {
    if current < |strokes| then Some(strokes[current]) else None
  }

  /** The faded strokes still to come: `strokes.slice(currentStroke + 1)`. */
  function UpcomingStrokes<T>(strokes: seq<T>, current: nat): seq<T>
  {
    SliceFrom(strokes, current + 1)
  }

  function OptionToSeq<T>(o: Option<T>): seq<T>
  {
    if o.Some? then [o.value] else []
  }

  /** The three parts of the rendering partition the stroke list, in order,
      for every stroke index: each stroke is drawn exactly once, those before
      the index as completed, the one at it as active, those after it as
      upcoming. */
  lemma RenderPartition<T>(strokes: seq<T>, current: nat)
    ensures CompletedStrokes(strokes, current) + OptionToSeq(ActiveStroke(strokes, current))
            + UpcomingStrokes(strokes, current) == strokes
    ensures current < |strokes| ==>
      && |CompletedStrokes(strokes, current)| == current
      && ActiveStroke(strokes, current) == Some(strokes[current])
      && |UpcomingStrokes(strokes, current)| == |strokes| - current - 1
    ensures current >= |strokes| ==>
      CompletedStrokes(strokes, current) == strokes && UpcomingStrokes(strokes, current) == []
  {
    if current < |strokes| {
      assert strokes == strokes[..current] + [strokes[current]] + strokes[current + 1..];
    }
  }

  // ---------------------------------------------------------------------
  // Step decisions
  // ---------------------------------------------------------------------

  /** The index invariant: at most the last index of a non-empty list, 0 for
      an empty one. */
  predicate InRange(current: nat, count: nat)
  {
    current == 0 || current < count
  }

  /** `nextStroke`'s decision: advance only below the last index. */
  function NextIndex(current: nat, count: nat): (next: nat)
    ensures InRange(current, count) ==> InRange(next, count)
    ensures next == current + 1 <==> current + 1 < count
  {
    if current < count - 1 then current + 1 else current
  }

  /** `prevStroke`'s decision: retreat only above 0. */
  function PrevIndex(current: nat): (prev: nat)
    ensures current > 0 ==> prev + 1 == current
    ensures current == 0 ==> prev == 0
  {
    if current > 0 then current - 1 else current
  }

  /** A step forward from a non-last index followed by a step back restores
      the index; a step back from a positive index followed by a step forward
      does too. */
  lemma StepRoundTrip(current: nat, count: nat)
    ensures current + 1 < count ==> PrevIndex(NextIndex(current, count)) == current
    ensures 0 < current < count ==> NextIndex(PrevIndex(current), count) == current
  {
  }

  /** `Math.min((elapsed - delay) / duration, 1)`: the drawn fraction of a
      stroke after `elapsed` ms. It is complete (1) exactly when the delay
      and the duration have both passed, and non-negative exactly when the
      delay has passed. */
  function StrokeProgress(elapsed: real, stroke: Stroke): (p: real)
    requires stroke.duration > 0.0
    ensures p <= 1.0
    ensures p == 1.0 <==> elapsed >= stroke.delay + stroke.duration
    ensures p >= 0.0 <==> elapsed >= stroke.delay
  {
    var ratio := (elapsed - stroke.delay) / stroke.duration;
    DivisionMonotone(elapsed - stroke.delay, stroke.duration);
    Min(ratio, 1.0)
  }

  lemma DivisionMonotone(x: real, d: real)
    requires d > 0.0
    ensures x / d >= 1.0 <==> x >= d
    ensures x / d >= 0.0 <==> x >= 0.0
  {
    assert (x / d) * d == x;
  }

  /** Every stroke can be drawn: its duration is positive. */
  predicate Drawable(strokes: seq<Stroke>)
  {
    forall i | 0 <= i < |strokes| :: strokes[i].duration > 0.0
  }

  /** Every list `getStrokeData` returns can be animated. */
  lemma StrokeDataIsDrawable(character: string, rand: nat -> real)
    requires IsRandomSource(rand)
    ensures Drawable(GetStrokeData(character, rand))
  {
    var strokes := GetStrokeData(character, rand);
    forall i | 0 <= i < |strokes| ensures strokes[i].duration > 0.0 {
      assert strokes[i].duration >= 500.0;
    }
  }

  /** The frame that starts playback observes 0 ms elapsed: it can never
      complete the active stroke, and it draws something only when that stroke
      has no delay. */
  lemma PlayFrameCannotAdvance(stroke: Stroke)
    requires stroke.duration > 0.0 && stroke.delay >= 0.0
    ensures StrokeProgress(0.0, stroke) < 1.0
    ensures StrokeProgress(0.0, stroke) >= 0.0 <==> stroke.delay == 0.0
  {
  }

  /** Every frame comes late enough to complete any stroke: its elapsed time
      is at least the stroke's delay plus its duration. */
  predicate FramesCompleteStrokes(frames: seq<real>, strokes: seq<Stroke>)
  {
    forall k, j | 0 <= k < |frames| && 0 <= j < |strokes| ::
      frames[k] >= strokes[j].delay + strokes[j].duration
  }

  // ---------------------------------------------------------------------
  // The component's state
  // ---------------------------------------------------------------------

  class StrokeStepper {
    const strokes: seq<Stroke>
    var isPlaying: bool
    var currentStroke: nat
    var animationProgress: real
    /** `startTimeRef.current` has been set: playback was started once. */
    var started: bool

    predicate Valid()
      reads this
    {
      && Drawable(strokes)
      && InRange(currentStroke, |strokes|)
      && 0.0 <= animationProgress <= 1.0
    }

    /** The first render: paused at stroke 0 with nothing drawn. */
    constructor (strokes: seq<Stroke>)
      requires Drawable(strokes)
      ensures Valid()
      ensures this.strokes == strokes
      ensures !isPlaying && currentStroke == 0 && animationProgress == 0.0 && !started
    {
      this.strokes := strokes;
      isPlaying := false;
      currentStroke := 0;
      animationProgress := 0.0;
      started := false;
    }

    /** `resetAnimation`: stopped at stroke 0 with nothing drawn, from any state. */
    method ResetAnimation()
      requires Valid()
      modifies this
      ensures Valid()
      ensures !isPlaying && currentStroke == 0 && animationProgress == 0.0
      ensures started == old(started)
    {
      isPlaying := false;
      currentStroke := 0;
      animationProgress := 0.0;
    }

    /** `nextStroke`: one stroke forward below the last index, with the new
        stroke's progress reset to 0; nothing otherwise. */
    method NextStroke()
      requires Valid()
      modifies this
      ensures Valid()
      ensures currentStroke == NextIndex(old(currentStroke), |strokes|)
      ensures animationProgress == if currentStroke != old(currentStroke) then 0.0 else old(animationProgress)
      ensures isPlaying == old(isPlaying) && started == old(started)
    {
      if currentStroke < |strokes| - 1 {
        currentStroke := currentStroke + 1;
        animationProgress := 0.0;
      }
    }

    /** `prevStroke`: one stroke back above 0, with the progress reset to 0;
        nothing otherwise. */
    method PrevStroke()
      requires Valid()
      modifies this
      ensures Valid()
      ensures currentStroke == PrevIndex(old(currentStroke))
      ensures animationProgress == if currentStroke != old(currentStroke) then 0.0 else old(animationProgress)
      ensures isPlaying == old(isPlaying) && started == old(started)
    {
      if currentStroke > 0 {
        currentStroke := currentStroke - 1;
        animationProgress := 0.0;
      }
    }

    /** One frame of `animate` after `elapsed` ms on the active stroke, in
        the closure of a render where `isPlaying` was `renderedPlaying`: stop
        when there is no active stroke; record the progress when it is not
        negative; when the stroke is complete, advance to the next stroke if
        there is one and stop at the last one otherwise. The next frame is
        requested (`nextFrame`) when the frame did not stop and the rendered
        flag was set. */
    method AnimateFrame(elapsed: real, renderedPlaying: bool) returns (nextFrame: bool)
      requires Valid()
      modifies this
      ensures Valid() && started == old(started)
      ensures !old(started) ==>
        isPlaying == old(isPlaying) && currentStroke == old(currentStroke)
        && animationProgress == old(animationProgress)
      ensures old(started) && old(currentStroke) >= |strokes| ==>
        !isPlaying && currentStroke == old(currentStroke) && animationProgress == old(animationProgress)
      ensures old(started) && old(currentStroke) < |strokes| ==>
        var p := StrokeProgress(elapsed, strokes[old(currentStroke)]);
        && animationProgress == (if p >= 0.0 then p else old(animationProgress))
        && (p < 1.0 ==> currentStroke == old(currentStroke) && isPlaying == old(isPlaying))
        && (p == 1.0 && old(currentStroke) + 1 < |strokes| ==>
              currentStroke == old(currentStroke) + 1 && isPlaying == old(isPlaying))
        && (p == 1.0 && old(currentStroke) + 1 == |strokes| ==>
              currentStroke == old(currentStroke) && !isPlaying)
      ensures nextFrame ==> renderedPlaying && old(started) && isPlaying == old(isPlaying)
      ensures renderedPlaying && old(started) && isPlaying ==> nextFrame
    {
      if !started {
        return false;
      }
      if currentStroke >= |strokes| {
        isPlaying := false;
        return false;
      }
      var strokeProgress := StrokeProgress(elapsed, strokes[currentStroke]);
      if strokeProgress >= 0.0 {
        animationProgress := strokeProgress;
      }
      if strokeProgress >= 1.0 {
        if currentStroke < |strokes| - 1 {
          currentStroke := currentStroke + 1;
        } else {
          isPlaying := false;
          return false;
        }
      }
      nextFrame := renderedPlaying;
    }

    /** `toggleAnimation` as written: pause when playing; otherwise start
        playing and run the first frame at once (0 ms elapsed). That frame
        belongs to the render in which playback was off, so it never requests
        another: playback stops after one frame, which draws nothing when the
        active stroke has a delay and advances nothing. */
    method ToggleAnimation() returns (nextFrame: bool)
      requires Valid()
      modifies this
      ensures Valid() && !nextFrame
      ensures old(isPlaying) ==>
        !isPlaying && currentStroke == old(currentStroke)
        && animationProgress == old(animationProgress) && started == old(started)
      ensures !old(isPlaying) ==> started
      ensures !old(isPlaying) && old(currentStroke) >= |strokes| ==> !isPlaying
      ensures !old(isPlaying) && old(currentStroke) < |strokes| &&
              strokes[old(currentStroke)].delay >= 0.0 ==>
        var p := StrokeProgress(0.0, strokes[old(currentStroke)]);
        && isPlaying && currentStroke == old(currentStroke)
        && animationProgress == (if p == 0.0 then 0.0 else old(animationProgress))
    {
      if isPlaying {
        isPlaying := false;
        nextFrame := false;
      } else {
        isPlaying := true;
        started := true;
        nextFrame := AnimateFrame(0.0, false);
      }
    }

    /** `toggleAnimation` as evidently intended: each frame requests the next
        while playback is on. `frames` are the elapsed times the successive
        frames observe. When every frame comes after the active stroke is
        complete, playback advances one stroke per frame and, given enough
        frames, stops at the last stroke fully drawn. */
    method ToggleAnimationIntended(frames: seq<real>)
      requires Valid()
      modifies this
      ensures Valid()
      ensures old(isPlaying) ==>
        !isPlaying && currentStroke == old(currentStroke) && animationProgress == old(animationProgress)
      ensures !old(isPlaying) && |strokes| > 0 && FramesCompleteStrokes(frames, strokes) ==>
        if |frames| > |strokes| - 1 - old(currentStroke) then
          !isPlaying && currentStroke == |strokes| - 1 && animationProgress == 1.0
        else
          isPlaying && currentStroke == old(currentStroke) + |frames|
    {
      if isPlaying {
        isPlaying := false;
        return;
      }
      isPlaying := true;
      started := true;
      ghost var first := currentStroke;
      ghost var last := |strokes| - 1;
      var running := true;
      var i := 0;
      while i < |frames| && running
        invariant Valid() && started && 0 <= i <= |frames|
        invariant running == isPlaying
        invariant |strokes| > 0 && FramesCompleteStrokes(frames, strokes) ==>
          && (isPlaying ==> currentStroke == first + i && first + i <= last)
          && (!isPlaying ==> currentStroke == last && animationProgress == 1.0 && i == last - first + 1)
        invariant |strokes| == 0 ==> currentStroke == 0
        invariant first == old(currentStroke)
        decreases |frames| - i
      {
        if |strokes| > 0 && FramesCompleteStrokes(frames, strokes) {
          assert frames[i] >= strokes[currentStroke].delay + strokes[currentStroke].duration;
        }
        running := AnimateFrame(frames[i], isPlaying);
        i := i + 1;
      }
    }
  }
}
