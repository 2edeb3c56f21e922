/** Tuning constants, font-size tables and the transcript hallucination filter of
    `renderer/constants/config.js`. */
module Config {
  import opened Common
  import opened JsText

  // Subtitle timing (milliseconds).
  const MsPerWord := 280
  const MsPerCjkChar := 135
  const MinSubtitleDisplayMs := 300
  const MaxSubtitleDisplayMs := 3000

  // Font-size class tables, indexed by the font-size step 0..5.
  const FontCurrent: seq<string> := ["text-2xl", "text-3xl", "text-4xl", "text-5xl", "text-6xl", "text-7xl"]
  const FontPrevious: seq<string> := ["text-xl", "text-2xl", "text-3xl", "text-4xl", "text-5xl", "text-6xl"]
  const FontCursor: seq<string> := ["h-6", "h-8", "h-10", "h-12", "h-14", "h-16"]

  /** The object `getFontSizeClasses` returns; an out-of-range index reads
      `undefined` from each table, modelled as `None`. */
  datatype FontClasses = FontClasses(current: Option<string>, previous: Option<string>, cursor: Option<string>)

  function Lookup(table: seq<string>, i: int): Option<string> {
    if 0 <= i < |table| then Some(table[i]) else None
  }

  /** `getFontSizeClasses(fontSize)`. */
  function GetFontSizeClasses(fontSize: int): (r: FontClasses)
    ensures 0 <= fontSize <= 5 ==>
      r.current.Some? && r.previous.Some? && r.cursor.Some? &&
      r.current.value == FontCurrent[fontSize] && r.previous.value == FontPrevious[fontSize] &&
      r.cursor.value == FontCursor[fontSize]
    ensures !(0 <= fontSize <= 5) ==> r == FontClasses(None, None, None)
  {
    FontClasses(Lookup(FontCurrent, fontSize), Lookup(FontPrevious, fontSize), Lookup(FontCursor, fontSize))
  }

  // ------------------------------------------------- hallucination filter

  /** Whole-transcript phrases the recognizer produces on silence (exact match). */
  const ExactHallucinations: seq<string> := [
    "구독과 좋아요 부탁드립니다",
    "좋아요와 구독 부탁드립니다",
    "오늘도 시청해주셔서 감사합니다",
    "오늘도 시청해 주셔서 감사합니다",
    "시청해주셔서 감사합니다",
    "시청해 주셔서 감사합니다",
    "감사합니다",
    "MBC 뉴스",
    "KBS 뉴스",
    "SBS 뉴스",
    "이덕영입니다",
    "Thank you for watching",
    "Thanks for watching",
    "Thank you",
    "Adjust the compressor",
    "Please subscribe",
    "Like and subscribe",
    "....", "...", "..", "♪"
  ]

  /** Non-speech tags whose presence anywhere marks a hallucination. */
  const ContainsHallucinations: seq<string> := [
    "[음악]", "[박수]", "[웃음]",
    "[Music]", "[Applause]", "[Laughter]", "[BLANK_AUDIO]",
    "(upbeat music)", "(dramatic music)", "(sighs)"
  ]

  /** `list.includes(text)`, as a linear scan. */
  predicate ListIncludes(list: seq<string>, text: string) {
    if |list| == 0 then false
    else list[0] == text || ListIncludes(list[1..], text)
  }

  /** `tags.some(h => text.includes(h))`. */
  predicate SomeContained(tags: seq<string>, text: string) {
    if |tags| == 0 then false
    else Contains(text, tags[0]) || SomeContained(tags[1..], text)
  }

  /** `isHallucination(text)`, with the source's four early returns in order. */
  predicate IsHallucination(text: string) {
    if text == "" || |text| < 4 then true
    else if StartsWith(text, "♪") || StartsWith(text, "[") || StartsWith(text, "(") then true
    else if ListIncludes(ExactHallucinations, text) then true
    else if SomeContained(ContainsHallucinations, text) then true
    else false
  }

  // The four rules, stated independently of the scans above.

  ghost predicate TooShort(text: string) {
    |text| < 4
  }

  ghost predicate StartsWithMarker(text: string) {
    |text| > 0 && (text[0] == '♪' || text[0] == '[' || text[0] == '(')
  }

  ghost predicate IsExactPhrase(text: string) {
    text in ExactHallucinations
  }

  ghost predicate HasNoiseTag(text: string) {
    exists k, i :: 0 <= k < |ContainsHallucinations| && OccursAt(text, ContainsHallucinations[k], i)
  }

  lemma {:induction false} ListIncludesIff(list: seq<string>, text: string)
    ensures ListIncludes(list, text) <==> text in list
    decreases |list|
  {
    if |list| > 0 {
      ListIncludesIff(list[1..], text);
      assert list == [list[0]] + list[1..];
    }
  }

  lemma {:induction false} SomeContainedIff(tags: seq<string>, text: string)
    ensures SomeContained(tags, text) <==>
      exists k, i :: 0 <= k < |tags| && OccursAt(text, tags[k], i)
    decreases |tags|
  {
    if |tags| > 0 {
      SomeContainedIff(tags[1..], text);
      ContainsIff(text, tags[0]);
      if SomeContained(tags[1..], text) {
        var k, i :| 0 <= k < |tags| - 1 && OccursAt(text, tags[1..][k], i);
        assert OccursAt(text, tags[k + 1], i);
      }
      if exists k, i :: 0 <= k < |tags| && OccursAt(text, tags[k], i) {
        var k, i :| 0 <= k < |tags| && OccursAt(text, tags[k], i);
        if k > 0 {
          assert OccursAt(text, tags[1..][k - 1], i);
        }
      }
    }
  }

  /** The filter rejects a transcript exactly when one of the four rules applies:
      too short, a leading note/bracket/parenthesis, an exact filler phrase, or a
      non-speech tag anywhere. It is a function of the text alone. */
  lemma Characterisation(text: string)
    ensures IsHallucination(text) <==>
      TooShort(text) || StartsWithMarker(text) || IsExactPhrase(text) || HasNoiseTag(text)
  {
    ListIncludesIff(ExactHallucinations, text);
    SomeContainedIff(ContainsHallucinations, text);
  }

  /** Every noise tag opens with a bracket or a parenthesis, so text without
      either carries no tag. */
  lemma NoOpenerNoTag(text: string)
    requires forall j :: 0 <= j < |text| ==> text[j] != '[' && text[j] != '('
    ensures !HasNoiseTag(text)
  {
    forall k, i | 0 <= k < |ContainsHallucinations|
      ensures !OccursAt(text, ContainsHallucinations[k], i)
    {
      var h := ContainsHallucinations[k];
      assert h[0] == '[' || h[0] == '(';
      if 0 <= i && i + |h| <= |text| {
        assert text[i..i + |h|][0] == text[i];
      }
    }
  }

  /** The listed "Thank you" is rejected by the exact-phrase rule. */
  lemma ListedPhraseRejected()
    ensures IsHallucination("Thank you")
  {
    assert ExactHallucinations[13] == "Thank you";
    ListIncludesIff(ExactHallucinations, "Thank you");
  }

  /** Matching against the phrase list is case-sensitive: "thank you" differs
      from the listed "Thank you" and passes every rule. */
  lemma LowerCasePhraseAccepted(text: string)
    requires text == "thank you"
    ensures !IsHallucination(text)
  {
    assert text !in ExactHallucinations;
    Characterisation(text);
    NoOpenerNoTag(text);
  }

  /** Non-speech markers are rejected whatever follows them. */
  lemma MarkerRejected(rest: string)
    ensures IsHallucination("♪" + rest)
    ensures IsHallucination("[" + rest)
    ensures IsHallucination("(" + rest)
  {
  }

  /** A noise tag embedded mid-sentence is enough. */
  lemma TagRejected(before: string, after: string)
    ensures IsHallucination(before + "[Music]" + after)
  {
    var t := before + "[Music]" + after;
    assert OccursAt(t, ContainsHallucinations[3], |before|) by {
      assert t[|before|..|before| + 7] == "[Music]";
    }
    Characterisation(t);
  }
}
