/** The readiness rule of `renderer/App.jsx`: whether the accumulated transcript
    is worth sending for translation now. */
module Readiness {
  import opened JsText

  /** The characters of `/[.!?。！？]/`. */
  predicate IsSentencePunct(c: char) {
    c == '.' || c == '!' || c == '?' || c == '。' || c == '！' || c == '？'
  }

  /** `containsSentencePunctuation(text)`: a sentence mark anywhere. */
  predicate ContainsSentencePunctuation(text: string) {
    text != "" && exists i :: 0 <= i < |text| && IsSentencePunct(text[i])
  }

  /** `endsWithPunctuation(text)`: the trimmed text ends with a sentence mark. */
  predicate EndsWithPunctuation(text: string) {
    text != "" && var t := Trim(text); |t| > 0 && IsSentencePunct(t[|t| - 1])
  }

  /** The ranges of `/[ㄱ-힝一-鿿぀-ゟ゠-ヿ]/`:
      Hangul (jamo through syllables), CJK ideographs, hiragana, katakana. */
  predicate IsCjk(c: char) {
    var u := c as int;
    (0x3131 <= u <= 0xD79D) || (0x4E00 <= u <= 0x9FFF) ||
    (0x3040 <= u <= 0x309F) || (0x30A0 <= u <= 0x30FF)
  }

  predicate HasCjk(s: string) {
    exists i :: 0 <= i < |s| && IsCjk(s[i])
  }

  /** `trimmed.split(/\s+/).length`. */
  function WordCount(s: string): nat {
    |SplitWs(s)|
  }

  /** `isTextSufficientLength(text)`: 15 code units for CJK text, otherwise 40
      code units or 5 words, all measured on the trimmed text. */
  predicate IsTextSufficientLength(text: string) {
    if text == "" then false
    else
      var trimmed := Trim(text);
      if HasCjk(trimmed) then |trimmed| >= 15
      else |trimmed| >= 40 || WordCount(trimmed) >= 5
  }

  /** The `reason` field of the decision (the length reason carries `text.length`). */
  datatype Reason = NoReason | EndsWithPunct | ContainsPunct | SufficientLength(chars: nat)

  datatype Decision = Decision(should: bool, reason: Reason)

  /** `shouldRequestTranslation(text)`, checks in the source's order. Ending with
      punctuation is subsumed by containing it, so the decision is "some sentence
      mark, or enough text". */
  function ShouldRequestTranslation(text: string): (d: Decision)
    ensures d.should <==>
      text != "" && (ContainsSentencePunctuation(text) || IsTextSufficientLength(text))
    ensures d.should <==> d.reason != NoReason
    ensures d.reason == SufficientLength(|text|) || d.reason in {NoReason, EndsWithPunct, ContainsPunct}
  {
    if text == "" then Decision(false, NoReason)
    else if EndsWithPunctuation(text) then
      EndsImpliesContains(text);
      Decision(true, EndsWithPunct)
    else if ContainsSentencePunctuation(text) then Decision(true, ContainsPunct)
    else if IsTextSufficientLength(text) then Decision(true, SufficientLength(|text|))
    else Decision(false, NoReason)
  }

  /** The last character of the trimmed text is a character of the text, so a
      sentence mark at the end is a sentence mark somewhere. */
  lemma EndsImpliesContains(text: string)
    ensures EndsWithPunctuation(text) ==> ContainsSentencePunctuation(text)
  {
    if EndsWithPunctuation(text) {
      var t := Trim(text);
      var a := SkipSpaces(text, 0);
      assert text[a + |t| - 1] == t[|t| - 1];
    }
  }

  /** The trimmed text's word count counts real words: splitting a trimmed,
      non-blank text on whitespace yields no empty piece. */
  lemma {:induction false} TrimmedWordsNonEmpty(s: string, i: nat)
    requires i < |s| && !IsSpace(s[i]) && !IsSpace(s[|s| - 1])
    ensures forall w :: w in SplitFrom(s, i) ==> w != ""
    decreases |s| - i
  {
    var j := SkipWord(s, i);
    if j < |s| {
      var k := SkipSpaces(s, j);
      assert k < |s|;
      TrimmedWordsNonEmpty(s, k);
    }
  }

  /** Scenario: "Hello there." is ready at once because it ends a sentence. */
  lemma SentenceBoundaryReady(text: string)
    requires text == "Hello there."
    ensures ShouldRequestTranslation(text) == Decision(true, EndsWithPunct)
  {
    var t := Trim(text);
    assert !IsSpace(text[0]) && !IsSpace(text[|text| - 1]);
    assert SkipSpaces(text, 0) == 0;
    assert SkipSpacesBack(text, |text|) == |text|;
    assert t == text;
  }
}
