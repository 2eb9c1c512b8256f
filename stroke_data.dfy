/**
 * Stroke data for the self-contained stroke animation: a small static table
 * of characters and a generator of sample strokes for every other character
 * (utils/stroke-data.ts). `Math.random()` is an input: `rand(k)` is the k-th
 * value the generator draws, each in [0, 1).
 */
module StrokeData {
  import opened JsText

  /** The SVG path of a stroke: a literal path from the table, or the random
      straight segment the generator draws (its coordinates are not modelled). */
  datatype StrokePath = Literal(d: string) | RandomSegment

  /** One stroke: its path, how long it is drawn (ms) and its delay (ms). */
  datatype Stroke = Stroke(path: StrokePath, duration: real, delay: real)

  /** A source of `Math.random()` values: every draw lies in [0, 1). */
  ghost predicate IsRandomSource(rand: nat -> real)
  {
    forall k: nat :: 0.0 <= rand(k) < 1.0
  }

  /** The timing every stroke list of this file has: stroke i starts 200 ms
      after stroke i - 1 (so delays start at 0 and strictly increase) and is
      drawn for at least 500 ms. */
  ghost predicate WellTimed(strokes: seq<Stroke>)
  {
    forall i | 0 <= i < |strokes| :: strokes[i].delay == (200 * i) as real && strokes[i].duration >= 500.0
  }

  function Entry(d: string, duration: real, delay: real): Stroke
  {
    Stroke(Literal(d), duration, delay)
  }

  /** `strokeDatabase`: hand-written strokes for 你 (U+4F60), 好 (U+597D) and 我 (U+6211). */
  const StrokeDatabase: map<string, seq<Stroke>> := map[
    "\U{4F60}" := [
      Entry("M50 50 L50 150", 800.0, 0.0),
      Entry("M30 80 L70 80", 600.0, 200.0),
      Entry("M90 40 L90 160", 1000.0, 400.0),
      Entry("M110 60 L150 60", 500.0, 600.0),
      Entry("M110 100 L150 100", 500.0, 800.0),
      Entry("M130 60 L130 140", 700.0, 1000.0),
      Entry("M110 140 L150 140", 500.0, 1200.0)
    ],
    "\U{597D}" := [
      Entry("M40 50 L40 150", 800.0, 0.0),
      Entry("M20 80 L60 80", 600.0, 200.0),
      Entry("M20 120 L60 120", 600.0, 400.0),
      Entry("M100 40 L100 80", 600.0, 600.0),
      Entry("M80 60 L120 60", 500.0, 800.0),
      Entry("M140 40 L140 160", 1000.0, 1000.0)
    ],
    "\U{6211}" := [
      Entry("M50 40 L50 80", 600.0, 0.0),
      Entry("M30 60 L70 60", 500.0, 200.0),
      Entry("M90 50 L130 90", 700.0, 400.0),
      Entry("M130 50 L90 90", 700.0, 600.0),
      Entry("M110 90 L110 130", 600.0, 800.0),
      Entry("M90 130 L130 130", 500.0, 1000.0),
      Entry("M110 130 L110 160", 500.0, 1200.0)
    ]
  ]

  /** The table holds exactly the three characters, with 7, 6 and 7 strokes,
      and every entry is timed like a generated list. */
  lemma DatabaseEntries()
    ensures StrokeDatabase.Keys == {"\U{4F60}", "\U{597D}", "\U{6211}"}
    ensures |StrokeDatabase["\U{4F60}"]| == 7
    ensures |StrokeDatabase["\U{597D}"]| == 6
    ensures |StrokeDatabase["\U{6211}"]| == 7
    ensures forall c | c in StrokeDatabase :: WellTimed(StrokeDatabase[c])
  {
    var ni, hao, wo := StrokeDatabase["\U{4F60}"], StrokeDatabase["\U{597D}"], StrokeDatabase["\U{6211}"];
    assert WellTimed(ni) by {
      forall i | 0 <= i < |ni| ensures ni[i].delay == (200 * i) as real && ni[i].duration >= 500.0 {
        assert i in {0, 1, 2, 3, 4, 5, 6};
      }
    }
    assert WellTimed(hao) by {
      forall i | 0 <= i < |hao| ensures hao[i].delay == (200 * i) as real && hao[i].duration >= 500.0 {
        assert i in {0, 1, 2, 3, 4, 5};
      }
    }
    assert WellTimed(wo) by {
      forall i | 0 <= i < |wo| ensures wo[i].delay == (200 * i) as real && wo[i].duration >= 500.0 {
        assert i in {0, 1, 2, 3, 4, 5, 6};
      }
    }
  }

  function Min(a: real, b: real): real
  {
    if a <= b then a else b
  }

  /** `Math.min(character.length * 3 + Math.random() * 5, 12)`, the bound of the
      generator's loop (a real number, as in JavaScript). */
  function StrokeBound(character: string, draw: real): real
  {
    Min((3 * JsLength(character)) as real + 5.0 * draw, 12.0)
  }

  /** How many times `for (let i = 0; i < bound; i++)` runs: the least natural
      number that is at least `bound`. */
  function LoopCount(bound: real): (n: nat)
    ensures bound <= n as real
    ensures n == 0 || ((n - 1) as real) < bound
  {
    if bound <= 0.0 then 0
    else if bound.Floor as real == bound then bound.Floor
    else bound.Floor + 1
  }

  /** The i-th generated stroke: delay `i * 200`, duration `500 + Math.random() * 500`
      with the fifth draw of the iteration (the first four are the coordinates). */
  function SampleStroke(rand: nat -> real, i: nat): Stroke
  {
    Stroke(RandomSegment, 500.0 + 500.0 * rand(5 * i + 5), (200 * i) as real)
  }

  /** The first `n` generated strokes. */
  function SampleStrokesUpTo(rand: nat -> real, n: nat): (strokes: seq<Stroke>)
    ensures |strokes| == n
    ensures forall i | 0 <= i < n :: strokes[i] == SampleStroke(rand, i)
  {
    if n == 0 then [] else SampleStrokesUpTo(rand, n - 1) + [SampleStroke(rand, n - 1)]
  }

  /** What `generateSampleStrokes(character)` returns for the draws `rand`. */
  function SampleStrokes(character: string, rand: nat -> real): seq<Stroke>
  {
    SampleStrokesUpTo(rand, LoopCount(StrokeBound(character, rand(0))))
  }

  /** The number of generated strokes lies between min(3 * length, 12) and
      min(3 * length + 5, 12), where length counts UTF-16 code units. */
  lemma SampleCountBounds(character: string, draw: real)
    requires 0.0 <= draw < 1.0
    ensures var n := LoopCount(StrokeBound(character, draw));
      && n <= 12
      && n <= 3 * JsLength(character) + 5
      && (n >= 3 * JsLength(character) || n == 12)
  {
    var len := JsLength(character);
    var bound := StrokeBound(character, draw);
    var n := LoopCount(bound);
    assert bound <= 12.0;
    assert bound < (3 * len + 5) as real;
    assert bound >= (3 * len) as real || bound == 12.0;
  }

  /** Each generated stroke is delayed by 200 ms per position and drawn for
      a duration in [500, 1000). */
  lemma SampleStrokeTiming(rand: nat -> real, i: nat)
    requires IsRandomSource(rand)
    ensures SampleStroke(rand, i).delay == (200 * i) as real
    ensures 500.0 <= SampleStroke(rand, i).duration < 1000.0
  {
    var draw := rand(5 * i + 5);
    assert 0.0 <= draw < 1.0;
  }

  /** `generateSampleStrokes`: pushes one stroke per loop iteration. The result
      has between min(3 * length, 12) and 12 strokes, stroke i is delayed by
      i * 200 ms and drawn for a duration in [500, 1000). */
  method GenerateSampleStrokes(character: string, rand: nat -> real) returns (strokes: seq<Stroke>)
    requires IsRandomSource(rand)
    ensures strokes == SampleStrokes(character, rand)
    ensures |strokes| <= 12
    ensures |strokes| >= 3 * JsLength(character) || |strokes| == 12
    ensures forall i | 0 <= i < |strokes| ::
      strokes[i].delay == (200 * i) as real && 500.0 <= strokes[i].duration < 1000.0
  {
    var strokeCount := StrokeBound(character, rand(0));
    var n := LoopCount(strokeCount);
    SampleCountBounds(character, rand(0));
    strokes := [];
    var i := 0;
    while (i as real) < strokeCount
      invariant i <= n
      invariant strokes == SampleStrokesUpTo(rand, i)
      invariant forall j | 0 <= j < i ::
        strokes[j].delay == (200 * j) as real && 500.0 <= strokes[j].duration < 1000.0
      decreases n - i
    {
      SampleStrokeTiming(rand, i);
      strokes := strokes + [Stroke(RandomSegment, 500.0 + 500.0 * rand(5 * i + 5), (200 * i) as real)];
      i := i + 1;
    }
    assert n == 0 || ((n - 1) as real) < (i as real);
    assert i == n;
  }

  /** `getStrokeData`: the table entry when the character is a key of the table,
      the generated strokes otherwise; either way the list is well timed. */
  function GetStrokeData(character: string, rand: nat -> real): (strokes: seq<Stroke>)
    requires IsRandomSource(rand)
    ensures character in StrokeDatabase ==> strokes == StrokeDatabase[character]
    ensures character !in StrokeDatabase ==> strokes == SampleStrokes(character, rand)
    ensures WellTimed(strokes)
  {
    DatabaseEntries();
    if character in StrokeDatabase then StrokeDatabase[character] else SampleStrokes(character, rand)
  }
}
