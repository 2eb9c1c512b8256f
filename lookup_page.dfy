/**
 * The lookup and selection shell of app/page.tsx: the submit state machine
 * of `generateChineseCharacters`, character selection, and the pure helpers
 * the result cards use. The HTTP exchange with /api/generate is an input:
 * the response the request eventually produces.
 */
module LookupPage {
  import opened Wrappers
  import opened JsText

  /** One entry of the service's answer. `difficulty` may be missing. */
  datatype CharacterRecord = CharacterRecord(
    character: string,
    pinyin: string,
    meaning: string,
    strokeCount: int,
    strokeOrderTips: string,
    radicals: string,
    difficulty: Option<string>)

  /** The parsed JSON body: its `error` field and its `characters` array, each
      possibly absent. */
  datatype LookupBody = LookupBody(error: Option<string>, characters: Option<seq<CharacterRecord>>)

  /** What the request produced: `fetch` rejected, or a response with its `ok`
      status and a body that parsed as JSON (Some) or did not (None). */
  datatype LookupResponse = NetworkFailure | Response(ok: bool, body: Option<LookupBody>)

  datatype ViewMode = Individual | Comparison

  /** The two banners of the page. */
  datatype PageError =
    | EmptyInput         // "Please enter a word to search"
    | GenerationFailed   // "An error occurred while generating Chinese characters"

  /** A JavaScript string field used as a condition: present and not empty. */
  predicate Truthy(s: Option<string>)
  {
    s.Some? && s.value != ""
  }

  /** How the `try` block of `generateChineseCharacters` ends for a response. */
  datatype LookupOutcome =
    | Thrown                                              // before `setResults`
    | ThrownAfterResults(body: LookupBody)                // `result.characters.length` on a missing array
    | Stored(body: LookupBody, records: seq<CharacterRecord>)

  function Outcome(response: LookupResponse): LookupOutcome
  {
    match response
    case NetworkFailure => Thrown
    case Response(ok, body) =>
      if !ok || body.None? || Truthy(body.value.error) then Thrown
      else if body.value.characters.None? then ThrownAfterResults(body.value)
      else Stored(body.value, body.value.characters.value)
  }

  class CharacterLearningPage {
    var inputWord: string
    var results: Option<LookupBody>
    var isLoading: bool
    var error: Option<PageError>
    var selectedCharacter: Option<string>
    var viewMode: ViewMode

    constructor ()
      ensures inputWord == "" && results.None? && !isLoading && error.None?
      ensures selectedCharacter.None? && viewMode == Individual
    {
      inputWord := "";
      results := None;
      isLoading := false;
      error := None;
      selectedCharacter := None;
      viewMode := Individual;
    }

    /** The input's `onChange`. */
    method SetInputWord(word: string)
      modifies this
      ensures inputWord == word
      ensures results == old(results) && isLoading == old(isLoading) && error == old(error)
      ensures selectedCharacter == old(selectedCharacter) && viewMode == old(viewMode)
    {
      inputWord := word;
    }

    /** The first half of `generateChineseCharacters`, up to the request: a
        blank input shows the validation banner and makes no request, leaving
        results and selection alone; otherwise loading starts with error,
        results and selection cleared. */
    method BeginLookup() returns (requested: bool)
      modifies this
      ensures requested <==> !IsBlank(inputWord)
      ensures inputWord == old(inputWord) && viewMode == old(viewMode)
      ensures !requested ==>
        && error == Some(EmptyInput) && results == old(results)
        && selectedCharacter == old(selectedCharacter) && isLoading == old(isLoading)
      ensures requested ==>
        isLoading && error.None? && results.None? && selectedCharacter.None?
    {
      TrimEmptyIffBlank(inputWord);
      if Trim(inputWord) == [] {
        error := Some(EmptyInput);
        return false;
      }
      isLoading := true;
      error := None;
      results := None;
      selectedCharacter := None;
      return true;
    }

    /** The second half, once the response is in: the body is stored and the
        first character selected (if there is one); any failure shows the
        generic banner; loading ends either way. */
    method FinishLookup(response: LookupResponse)
      modifies this
      ensures !isLoading
      ensures inputWord == old(inputWord) && viewMode == old(viewMode)
      ensures Outcome(response).Thrown? ==>
        && error == Some(GenerationFailed) && results == old(results)
        && selectedCharacter == old(selectedCharacter)
      ensures Outcome(response).ThrownAfterResults? ==>
        && error == Some(GenerationFailed) && results == Some(Outcome(response).body)
        && selectedCharacter == old(selectedCharacter)
      ensures Outcome(response).Stored? ==>
        var records := Outcome(response).records;
        && error == old(error) && results == Some(Outcome(response).body)
        && selectedCharacter == (if |records| > 0 then Some(records[0].character) else old(selectedCharacter))
    {
      var failed := false;
      match response {
        case NetworkFailure =>
          failed := true;
        case Response(ok, body) =>
          if !ok {
            failed := true;
          } else if body.None? {
            failed := true;           // response.json() rejected
          } else if Truthy(body.value.error) {
            failed := true;
          } else {
            results := Some(body.value);
            if body.value.characters.None? {
              failed := true;         // reading .length of undefined
            } else if |body.value.characters.value| > 0 {
              selectedCharacter := Some(body.value.characters.value[0].character);
            }
          }
      }
      if failed {
        error := Some(GenerationFailed);
      }
      isLoading := false;
    }

    /** `generateChineseCharacters` with `response` as what the request
        produces. After a completed submission loading is off; on success the
        selection is the first record's character, or none for an empty list;
        on failure the generic banner shows and, unless the body lacked its
        array, no results. */
    method GenerateChineseCharacters(response: LookupResponse) returns (requested: bool)
      modifies this
      ensures requested <==> !IsBlank(inputWord)
      ensures inputWord == old(inputWord) && viewMode == old(viewMode)
      ensures !requested ==>
        && error == Some(EmptyInput) && results == old(results)
        && selectedCharacter == old(selectedCharacter) && isLoading == old(isLoading)
      ensures requested ==> !isLoading
      ensures requested && Outcome(response).Thrown? ==>
        error == Some(GenerationFailed) && results.None? && selectedCharacter.None?
      ensures requested && Outcome(response).ThrownAfterResults? ==>
        error == Some(GenerationFailed) && selectedCharacter.None?
      ensures requested && Outcome(response).Stored? ==>
        var records := Outcome(response).records;
        && error.None? && results == Some(Outcome(response).body)
        && selectedCharacter == (if |records| > 0 then Some(records[0].character) else None)
    {
      requested := BeginLookup();
      if requested {
        FinishLookup(response);
      }
    }

    /** `handleCharacterSelect`: select the character, show it individually,
        clear the banner. */
    method SelectCharacter(character: string)
      modifies this
      ensures selectedCharacter == Some(character) && viewMode == Individual && error.None?
      ensures inputWord == old(inputWord) && results == old(results) && isLoading == old(isLoading)
    {
      selectedCharacter := Some(character);
      viewMode := Individual;
      error := None;
    }

    /** The Individual / Comparison toggle. */
    method SetViewMode(mode: ViewMode)
      modifies this
      ensures viewMode == mode
      ensures inputWord == old(inputWord) && results == old(results) && isLoading == old(isLoading)
      ensures error == old(error) && selectedCharacter == old(selectedCharacter)
    {
      viewMode := mode;
    }
  }

  // ---------------------------------------------------------------------
  // Helpers of the result cards
  // ---------------------------------------------------------------------

  /** A code point of the CJK Unified Ideographs block, U+4E00..U+9FFF. */
  predicate IsUnifiedIdeograph(c: char)
  {
    '\U{4E00}' <= c <= '\U{9FFF}'
  }

  /** The pattern test of the card: some UTF-16 code unit of `s` lies in the
      block. The code units of a supplementary character are surrogates
      (U+D800..U+DFFF), outside the block, so testing the characters of `s`
      gives the same answer. */
  predicate HasUnifiedIdeograph(s: string)
  {
    exists i | 0 <= i < |s| :: IsUnifiedIdeograph(s[i])
  }

  /** `isValidChinese` of a result card: the pattern matches and the string
      is one UTF-16 code unit long. */
  predicate IsValidChinese(s: string)
  {
    HasUnifiedIdeograph(s) && JsLength(s) == 1
  }

  /** `isValidChinese` holds exactly for a single character of the CJK
      Unified Ideographs block. */
  lemma ValidChineseIsOneIdeograph(s: string)
    ensures IsValidChinese(s) <==> |s| == 1 && IsUnifiedIdeograph(s[0])
  {
    if |s| == 1 {
      assert s[1..] == [];
      assert JsLength(s) == Utf16Units(s[0]);
    }
    if IsValidChinese(s) {
      assert s != [];
      assert JsLength(s) == Utf16Units(s[0]) + JsLength(s[1..]);
      assert |s| == 1;
    }
  }

  const GreenBadge := "bg-green-100 text-green-800"
  const YellowBadge := "bg-yellow-100 text-yellow-800"
  const RedBadge := "bg-red-100 text-red-800"
  const GrayBadge := "bg-gray-100 text-gray-800"

  /** One of the three difficulty tiers of the service's schema. */
  predicate IsTier(difficulty: string)
  {
    difficulty == "beginner" || difficulty == "intermediate" || difficulty == "advanced"
  }

  /** `getDifficultyColor`: each tier has its own badge colour, and anything
      that is not a tier is gray. */
  function DifficultyColor(difficulty: string): (classes: string)
    ensures classes == GrayBadge <==> !IsTier(difficulty)
    ensures difficulty == "beginner" ==> classes == GreenBadge
    ensures difficulty == "intermediate" ==> classes == YellowBadge
    ensures difficulty == "advanced" ==> classes == RedBadge
    ensures IsTier(difficulty) && classes == GreenBadge ==> difficulty == "beginner"
    ensures IsTier(difficulty) && classes == YellowBadge ==> difficulty == "intermediate"
    ensures IsTier(difficulty) && classes == RedBadge ==> difficulty == "advanced"
  {
    match difficulty
    case "beginner" => GreenBadge
    case "intermediate" => YellowBadge
    case "advanced" => RedBadge
    case _ => GrayBadge
  }

  /** The three tiers are told apart by their badges. */
  lemma DifficultyTiersDistinct(a: string, b: string)
    requires IsTier(a) && IsTier(b) && a != b
    ensures DifficultyColor(a) != DifficultyColor(b)
  {
  }

  /** `char.difficulty || 'beginner'`: a missing or empty difficulty is shown
      (and coloured) as beginner. */
  function DisplayedDifficulty(difficulty: Option<string>): (shown: string)
    ensures shown != ""
    ensures Truthy(difficulty) ==> shown == difficulty.value
    ensures !Truthy(difficulty) ==> DifficultyColor(shown) == GreenBadge
  {
    if Truthy(difficulty) then difficulty.value else "beginner"
  }

  /** `results.characters.find(char => char.character === selected)?.pinyin`:
      the pinyin of the first record with that character, none if no record
      has it. */
  function FindPinyin(records: seq<CharacterRecord>, selected: string): (pinyin: Option<string>)
    ensures pinyin.None? <==> forall i | 0 <= i < |records| :: records[i].character != selected
    ensures pinyin.Some? ==>
      exists i | 0 <= i < |records| ::
        && records[i].character == selected && pinyin.value == records[i].pinyin
        && forall j | 0 <= j < i :: records[j].character != selected
  {
    if records == [] then None
    else if records[0].character == selected then Some(records[0].pinyin)
    else
      var rest := FindPinyin(records[1..], selected);
      assert forall i | 1 <= i < |records| :: records[i] == records[1..][i - 1];
      if rest.Some? then
        var k :| 0 <= k < |records| - 1 && records[1..][k].character == selected
                 && rest.value == records[1..][k].pinyin
                 && forall j | 0 <= j < k :: records[1..][j].character != selected;
        assert records[k + 1].character == selected;
        rest
      else rest
  }
}
