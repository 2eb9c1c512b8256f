/**
 * The speech adapter of hooks/use-speech.ts. The platform's speech
 * synthesis is an abstract engine holding at most the one utterance the
 * adapter queued last (`cancel` empties it, `speak` fills it); the engine
 * reports the start and the end (or error) of that utterance, and the error
 * of an utterance it dropped on `cancel`. Unicode normalisation (NFD) is not
 * modelled: pinyin arrives already decomposed.
 */
module Speech {
  import opened Wrappers
  import opened JsText

  /** A voice the platform enumerates. */
  datatype Voice = Voice(name: string, lang: string)

  /** `SpeechOptions`: every field optional. */
  datatype SpeechOptions = SpeechOptions(
    lang: Option<string>,
    rate: Option<real>,
    pitch: Option<real>,
    volume: Option<real>)

  /** An utterance as the adapter configures it. */
  datatype Utterance = Utterance(
    text: string,
    lang: string,
    rate: real,
    pitch: real,
    volume: real,
    voice: Option<Voice>)   // None: the platform's default voice

  const DefaultLang := "zh-CN"
  const DefaultRate := 0.8
  const DefaultPitch := 1.0
  const DefaultVolume := 1.0

  /** `value || fallback` for a string option: a missing or empty value falls back. */
  function LangOr(value: Option<string>, fallback: string): (r: string)
    ensures value.Some? && value.value != "" ==> r == value.value
    ensures value.None? || value.value == "" ==> r == fallback
  {
    if value.Some? && value.value != "" then value.value else fallback
  }

  /** `value || fallback` for a number option: a missing value or an explicit
      0 falls back. */
  function NumberOr(value: Option<real>, fallback: real): (r: real)
    ensures value.Some? && value.value != 0.0 ==> r == value.value
    ensures value.None? || value.value == 0.0 ==> r == fallback
  {
    if value.Some? && value.value != 0.0 then value.value else fallback
  }

  /** A voice whose language tag contains "zh" or "CN". */
  predicate IsChineseVoice(v: Voice)
  {
    Includes(v.lang, "zh") || Includes(v.lang, "CN")
  }

  /** `voices.find(...)`: the first Chinese voice, none if there is none. */
  function ChineseVoice(voices: seq<Voice>): (found: Option<Voice>)
    ensures found.None? <==> forall i | 0 <= i < |voices| :: !IsChineseVoice(voices[i])
    ensures found.Some? ==>
      exists i | 0 <= i < |voices| ::
        && voices[i] == found.value && IsChineseVoice(voices[i])
        && forall j | 0 <= j < i :: !IsChineseVoice(voices[j])
  {
    if voices == [] then None
    else if IsChineseVoice(voices[0]) then Some(voices[0])
    else
      var rest := ChineseVoice(voices[1..]);
      assert forall i | 1 <= i < |voices| :: voices[i] == voices[1..][i - 1];
      if rest.Some? then
        var k :| 0 <= k < |voices| - 1 && voices[1..][k] == rest.value && IsChineseVoice(voices[1..][k])
                 && forall j | 0 <= j < k :: !IsChineseVoice(voices[1..][j]);
        assert voices[k + 1] == rest.value;
        rest
      else rest
  }

  /** The utterance `speak(text, options)` queues: each option the caller set
      to a truthy value, the default otherwise, and the first Chinese voice
      whatever language was asked for. No setting is ever falsy. */
  function ConfiguredUtterance(text: string, options: SpeechOptions, voices: seq<Voice>): (u: Utterance)
    ensures u.text == text && u.voice == ChineseVoice(voices)
    ensures u.lang != "" && u.rate != 0.0 && u.pitch != 0.0 && u.volume != 0.0
    ensures u.lang == LangOr(options.lang, DefaultLang)
    ensures u.rate == NumberOr(options.rate, DefaultRate)
    ensures u.pitch == NumberOr(options.pitch, DefaultPitch)
    ensures u.volume == NumberOr(options.volume, DefaultVolume)
  {
    Utterance(text,
              LangOr(options.lang, DefaultLang),
              NumberOr(options.rate, DefaultRate),
              NumberOr(options.pitch, DefaultPitch),
              NumberOr(options.volume, DefaultVolume),
              ChineseVoice(voices))
  }

  /** A combining mark of the Combining Diacritical Marks block, U+0300..U+036F
      (pinyin tone marks after canonical decomposition, Unicode Standard
      Annex #15). */
  predicate IsCombiningMark(c: char)
  {
    '\U{0300}' <= c <= '\U{036F}'
  }

  /** The global replacement of every code point U+0300..U+036F by nothing:
      the text without its combining marks; a mark on its own becomes the
      empty string, and text without marks is returned as it is. */
  function StripToneMarks(s: string): (r: string)
    ensures |r| <= |s|
    ensures |s| == 1 && IsCombiningMark(s[0]) ==> r == []
    ensures forall i | 0 <= i < |r| :: !IsCombiningMark(r[i])
    ensures (forall i | 0 <= i < |s| :: !IsCombiningMark(s[i])) ==> r == s
  {
    if s == [] then []
    else (if IsCombiningMark(s[0]) then [] else [s[0]]) + StripToneMarks(s[1..])
  }

  /** Stripping works character by character: it removes the marks and keeps
      every other character, in order. */
  lemma {:induction false} StripToneMarksConcat(a: string, b: string)
    ensures StripToneMarks(a + b) == StripToneMarks(a) + StripToneMarks(b)
    decreases |a|
  {
    if a == [] {
      assert a + b == b;
    } else {
      var head := if IsCombiningMark(a[0]) then [] else [a[0]];
      assert (a + b)[0] == a[0];
      assert (a + b)[1..] == a[1..] + b;
      assert StripToneMarks(a + b) == head + StripToneMarks(a[1..] + b);
      StripToneMarksConcat(a[1..], b);
    }
  }

  /** Every character other than a mark survives as often as it occurs: the
      replacement deletes the marks and nothing else. */
  lemma {:induction false} StripToneMarksKeepsOthers(s: string, c: char)
    requires !IsCombiningMark(c)
    ensures multiset(StripToneMarks(s))[c] == multiset(s)[c]
    decreases |s|
  {
    if s != [] {
      assert s == [s[0]] + s[1..];
      StripToneMarksKeepsOthers(s[1..], c);
    }
  }

  /** Stripping twice is stripping once. */
  lemma StripToneMarksIdempotent(s: string)
    ensures StripToneMarks(StripToneMarks(s)) == StripToneMarks(s)
  {
  }

  /** The decomposed syllable "ma" + U+0301 + "o" loses exactly its mark. */
  lemma StripToneMarksExample()
    ensures StripToneMarks("ma\U{0301}o") == "mao"
  {
    StripToneMarksConcat("ma", "\U{0301}o");
    StripToneMarksConcat("\U{0301}", "o");
  }

  class SpeechAdapter {
    /** `'speechSynthesis' in window`, decided when the hook mounts. */
    const isSupported: bool
    var voices: seq<Voice>
    var isSpeaking: bool
    /** The engine's queue: the utterance queued and not yet ended, if any. */
    var queued: Option<Utterance>

    /** An unsupported platform never speaks. */
    predicate Valid()
      reads this
    {
      !isSupported ==> queued.None? && !isSpeaking && voices == []
    }

    /** The hook after its mount effect, given whether the platform supports
        speech and the voices it enumerates. */
    constructor (supported: bool, available: seq<Voice>)
      ensures Valid()
      ensures isSupported == supported && !isSpeaking && queued.None?
      ensures voices == if supported then available else []
    {
      isSupported := supported;
      voices := if supported then available else [];
      isSpeaking := false;
      queued := None;
    }

    /** `onvoiceschanged` (registered only where speech is supported). */
    method OnVoicesChanged(available: seq<Voice>)
      requires Valid() && isSupported
      modifies this
      ensures Valid() && voices == available
      ensures isSpeaking == old(isSpeaking) && queued == old(queued)
    {
      voices := available;
    }

    /** `speak(text, options)`: nothing when unsupported or when the text is
        blank; otherwise whatever was queued is cancelled and the configured
        utterance becomes the only one. */
    method Speak(text: string, options: SpeechOptions)
      requires Valid()
      modifies this
      ensures Valid() && voices == old(voices) && isSpeaking == old(isSpeaking)
      ensures !isSupported || IsBlank(text) ==> queued == old(queued)
      ensures isSupported && !IsBlank(text) ==>
        queued == Some(ConfiguredUtterance(text, options, voices))
    {
      TrimEmptyIffBlank(text);
      if !isSupported || Trim(text) == [] {
        return;
      }
      queued := None;   // speechSynthesis.cancel()
      var utterance := Utterance(text,
                                 LangOr(options.lang, DefaultLang),
                                 NumberOr(options.rate, DefaultRate),
                                 NumberOr(options.pitch, DefaultPitch),
                                 NumberOr(options.volume, DefaultVolume),
                                 None);
      var chineseVoice := ChineseVoice(voices);
      if chineseVoice.Some? {
        utterance := utterance.(voice := chineseVoice);
      }
      queued := Some(utterance);
    }

    /** `stop`: nothing when unsupported; otherwise the queue is emptied and
        the flag cleared. */
    method Stop()
      requires Valid()
      modifies this
      ensures Valid() && voices == old(voices)
      ensures !isSupported ==> queued == old(queued) && isSpeaking == old(isSpeaking)
      ensures isSupported ==> queued.None? && !isSpeaking
    {
      if isSupported {
        queued := None;
        isSpeaking := false;
      }
    }

    /** `speakPinyin`: the pinyin without tone marks, in US English at rate 0.7
        (pitch and volume default, the voice still the first Chinese one). */
    method SpeakPinyin(pinyin: string)
      requires Valid()
      modifies this
      ensures Valid() && voices == old(voices) && isSpeaking == old(isSpeaking)
      ensures !isSupported || IsBlank(StripToneMarks(pinyin)) ==> queued == old(queued)
      ensures isSupported && !IsBlank(StripToneMarks(pinyin)) ==>
        queued == Some(Utterance(StripToneMarks(pinyin), "en-US", 0.7, DefaultPitch, DefaultVolume,
                                 ChineseVoice(voices)))
    {
      Speak(StripToneMarks(pinyin), SpeechOptions(Some("en-US"), Some(0.7), None, None));
    }

    /** `speakChinese`: the text as it is, in Mainland Chinese at rate 0.8. */
    method SpeakChinese(text: string)
      requires Valid()
      modifies this
      ensures Valid() && voices == old(voices) && isSpeaking == old(isSpeaking)
      ensures !isSupported || IsBlank(text) ==> queued == old(queued)
      ensures isSupported && !IsBlank(text) ==>
        queued == Some(Utterance(text, "zh-CN", 0.8, DefaultPitch, DefaultVolume, ChineseVoice(voices)))
    {
      Speak(text, SpeechOptions(Some("zh-CN"), Some(0.8), None, None));
    }

    /** The queued utterance's `onstart`. */
    method OnStart()
      requires Valid() && queued.Some?
      modifies this
      ensures Valid() && isSpeaking
      ensures queued == old(queued) && voices == old(voices)
    {
      isSpeaking := true;
    }

    /** The queued utterance's `onend` or `onerror`: it leaves the engine. */
    method OnEnd()
      requires Valid() && queued.Some?
      modifies this
      ensures Valid() && !isSpeaking && queued.None? && voices == old(voices)
    {
      isSpeaking := false;
      queued := None;
    }

    /** The `onerror` of an utterance the engine dropped on `cancel`. */
    method OnCancelledError()
      requires Valid() && isSupported
      modifies this
      ensures Valid() && !isSpeaking && queued == old(queued) && voices == old(voices)
    {
      isSpeaking := false;
    }
  }
}
