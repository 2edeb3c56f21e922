/** `splitTextIntoChunks` of `renderer/hooks/useSubtitle.js`: greedy packing of a
    completed translation into subtitle chunks of at most `maxChars` code units.
    Text with whitespace is packed word by word (re-joined with single spaces);
    text without whitespace is packed by the parts `split` produces around the
    CJK punctuation `。！？，、；：`. Units longer than a line are hard-sliced. */
module Chunking {
  import opened JsText

  /** The characters of the capture group `([。！？，、；：])`. */
  predicate IsBreak(c: char) {
    c == '。' || c == '！' || c == '？' || c == '，' || c == '、' || c == '；' || c == '：'
  }

  /** The first index at or after `i` holding a break character (or `|s|`). */
  function SkipRun(s: string, i: nat): (j: nat)
    requires i <= |s|
    ensures i <= j <= |s|
    ensures forall k :: i <= k < j ==> !IsBreak(s[k])
    ensures j < |s| ==> IsBreak(s[j])
    decreases |s| - i
  {
    if i < |s| && !IsBreak(s[i]) then SkipRun(s, i + 1) else i
  }

  /** The non-empty parts of `s[i..]` under the capturing split: each maximal
      break-free run, and each break character on its own. */
  function PartsFrom(s: string, i: nat): seq<string>
    requires i <= |s|
    decreases |s| - i
  {
    if i == |s| then []
    else if IsBreak(s[i]) then [s[i..i + 1]] + PartsFrom(s, i + 1)
    else
      var j := SkipRun(s, i);
      [s[i..j]] + PartsFrom(s, j)
  }

  /** `text.split(/([。！？，、；：])/g).filter(p => p)`. */
  function BreakParts(s: string): seq<string> {
    PartsFrom(s, 0)
  }

  /** The hard cut `for (i = 0; i < w.length; i += m) w.slice(i, i + m)`. */
  function HardSlices(w: string, m: nat): (r: seq<string>)
    requires m >= 1
    ensures forall c :: c in r ==> 0 < |c| <= m
    ensures Concat(r) == w
    ensures |w| > 0 ==> |r| >= 1
    decreases |w|
  {
    if |w| == 0 then []
    else if |w| <= m then [w]
    else
      var rest := HardSlices(w[m..], m);
      assert w == w[..m] + w[m..];
      [w[..m]] + rest
  }

  /** `if (current) chunks.push(current)`. */
  function Flush(current: string): seq<string> {
    if current != "" then [current] else []
  }

  /** The loop of the whitespace branch over the remaining `words`, with the
      line being built in `current`; the result includes the final flush. */
  function PackWords(words: seq<string>, current: string, m: nat): seq<string>
    requires m >= 1
    decreases |words|
  {
    if |words| == 0 then Flush(current)
    else
      var w := words[0];
      var testLine := if current != "" then current + " " + w else w;
      if |testLine| <= m then PackWords(words[1..], testLine, m)
      else if |w| > m then Flush(current) + HardSlices(w, m) + PackWords(words[1..], "", m)
      else Flush(current) + PackWords(words[1..], w, m)
  }

  /** The loop of the no-whitespace branch over the remaining `parts`. An
      oversize part is cut; all its slices but the last are emitted and the last
      becomes the line being built. */
  function PackParts(parts: seq<string>, current: string, m: nat): seq<string>
    requires m >= 1
    decreases |parts|
  {
    if |parts| == 0 then Flush(current)
    else
      var p := parts[0];
      if |current + p| <= m then PackParts(parts[1..], current + p, m)
      else if |p| > m then
        var sl := HardSlices(p, m);
        Flush(current) + sl[..|sl| - 1] + PackParts(parts[1..], sl[|sl| - 1], m)
      else Flush(current) + PackParts(parts[1..], p, m)
  }

  /** `chunks.filter(c => c.trim())`. */
  function KeepNonBlank(cs: seq<string>): (r: seq<string>)
    ensures forall c :: c in r ==> c in cs && !IsBlank(c)
  {
    if |cs| == 0 then []
    else (if Trim(cs[0]) != "" then [cs[0]] else []) + KeepNonBlank(cs[1..])
  }

  /** `splitTextIntoChunks(text, maxChars)`. The source's loops do not terminate
      for `maxChars < 1`, hence the precondition; the display layer passes at
      least 10. */
  function SplitTextIntoChunks(text: string, maxChars: int): (chunks: seq<string>)
    requires maxChars >= 1
    ensures |text| <= maxChars ==> chunks == [text]
    ensures |text| > maxChars ==> forall c :: c in chunks ==> 0 < |c| <= maxChars && !IsBlank(c)
    ensures !HasSpace(text) ==> Concat(chunks) == text
    ensures RemoveSpaces(Concat(chunks)) == RemoveSpaces(text)
  {
    if text == "" || |text| <= maxChars then
      assert Concat([text]) == text;
      [text]
    else if HasSpace(text) then
      var packed := PackWords(SplitWs(text), "", maxChars);
      PackWordsBound(SplitWs(text), "", maxChars);
      WordBranchKeepsText(text, maxChars);
      KeepNonBlank(packed)
    else
      var packed := PackParts(BreakParts(text), "", maxChars);
      PartsBranchRoundTrip(text, maxChars);
      PackPartsBound(BreakParts(text), "", maxChars);
      KeepNonBlank(packed)
  }

  // ------------------------------------------------------------- lemmas

  /** The capturing split loses nothing and yields no empty part. */
  lemma {:induction false} PartsRoundTrip(s: string, i: nat)
    requires i <= |s|
    ensures Concat(PartsFrom(s, i)) == s[i..]
    ensures forall p :: p in PartsFrom(s, i) ==> p != ""
    decreases |s| - i
  {
    if i < |s| {
      var j := if IsBreak(s[i]) then i + 1 else SkipRun(s, i);
      PartsRoundTrip(s, j);
      assert PartsFrom(s, i) == [s[i..j]] + PartsFrom(s, j);
      assert s[i..] == s[i..j] + s[j..];
    }
  }

  lemma ConcatSingle(c: string)
    ensures Concat([c]) == c
  {
    assert Concat([c]) == c + Concat([]);
  }

  lemma FlushFacts(current: string, m: nat)
    requires |current| <= m
    ensures Concat(Flush(current)) == current
    ensures forall c :: c in Flush(current) ==> 0 < |c| <= m
  {
    if current != "" { ConcatSingle(current); }
  }

  lemma Concat3(a: seq<string>, b: seq<string>, c: seq<string>)
    ensures Concat(a + b + c) == Concat(a) + Concat(b) + Concat(c)
  {
    ConcatAppend(a + b, c);
    ConcatAppend(a, b);
  }

  /** Every chunk the word loop emits fits on a line and is non-empty. */
  lemma {:induction false} PackWordsBound(words: seq<string>, current: string, m: nat)
    requires m >= 1 && |current| <= m
    ensures forall c :: c in PackWords(words, current, m) ==> 0 < |c| <= m
    decreases |words|
  {
    FlushFacts(current, m);
    if |words| > 0 {
      var w := words[0];
      var testLine := if current != "" then current + " " + w else w;
      if |testLine| <= m {
        PackWordsBound(words[1..], testLine, m);
      } else if |w| > m {
        PackWordsBound(words[1..], "", m);
      } else {
        PackWordsBound(words[1..], w, m);
      }
    }
  }

  /** Every chunk the part loop emits fits on a line and is non-empty. */
  lemma {:induction false} PackPartsBound(parts: seq<string>, current: string, m: nat)
    requires m >= 1 && |current| <= m
    ensures forall c :: c in PackParts(parts, current, m) ==> 0 < |c| <= m
    decreases |parts|
  {
    FlushFacts(current, m);
    if |parts| > 0 {
      var p := parts[0];
      if |current + p| <= m {
        PackPartsBound(parts[1..], current + p, m);
      } else if |p| > m {
        var sl := HardSlices(p, m);
        assert sl[|sl| - 1] in sl;
        assert forall c :: c in sl[..|sl| - 1] ==> c in sl;
        PackPartsBound(parts[1..], sl[|sl| - 1], m);
      } else {
        PackPartsBound(parts[1..], p, m);
      }
    }
  }

  lemma RemoveSpacesOfJoin(a: string, b: string)
    ensures RemoveSpaces(a + " " + b) == RemoveSpaces(a) + RemoveSpaces(b)
  {
    RemoveSpacesAppend(a + " ", b);
    RemoveSpacesAppend(a, " ");
    assert RemoveSpaces(" ") == RemoveSpaces(" "[1..]);
  }

  lemma RemoveSpaces3(a: string, b: string, c: string)
    ensures RemoveSpaces(a + b + c) == RemoveSpaces(a) + RemoveSpaces(b) + RemoveSpaces(c)
  {
    RemoveSpacesAppend(a + b, c);
    RemoveSpacesAppend(a, b);
  }

  /** The step of the word loop that extends the line, given the rest of the loop. */
  lemma FitsStepText(current: string, w: string, rest: string, out: string)
    requires RemoveSpaces(out) == RemoveSpaces(if current != "" then current + " " + w else w) + RemoveSpaces(rest)
    ensures RemoveSpaces(out) == RemoveSpaces(current) + RemoveSpaces(w + rest)
  {
    TestLineText(current, w);
    RemoveSpacesAppend(w, rest);
    var a, b, c := RemoveSpaces(current), RemoveSpaces(w), RemoveSpaces(rest);
    assert (a + b) + c == a + (b + c);
  }

  lemma ConcatGlue3(f: seq<string>, hs: seq<string>, tail: seq<string>, a: string, b: string)
    requires Concat(f) == a && Concat(hs) == b
    ensures Concat(f + hs + tail) == a + b + Concat(tail)
  {
    Concat3(f, hs, tail);
  }

  lemma StrAssoc(a: string, b: string, c: string)
    ensures a + b + c == a + (b + c)
  {
  }

  /** The step of the word loop that cuts an oversize word, given the rest of the loop. */
  lemma OversizeWordText(current: string, w: string, rest: string, f: seq<string>, hs: seq<string>, tail: seq<string>)
    requires Concat(f) == current && Concat(hs) == w
    requires RemoveSpaces(Concat(tail)) == RemoveSpaces("") + RemoveSpaces(rest)
    ensures RemoveSpaces(Concat(f + hs + tail)) == RemoveSpaces(current) + RemoveSpaces(w + rest)
  {
    var t := Concat(tail);
    ConcatGlue3(f, hs, tail, current, w);
    RemoveSpaces3(current, w, t);
    RemoveSpacesAppend(w, rest);
    assert RemoveSpaces("") == "";
    StrAssoc(RemoveSpaces(current), RemoveSpaces(w), RemoveSpaces(rest));
  }

  /** The step of the word loop that starts a new line, given the rest of the loop. */
  lemma NewLineText(current: string, w: string, rest: string, f: seq<string>, tail: seq<string>)
    requires Concat(f) == current
    requires RemoveSpaces(Concat(tail)) == RemoveSpaces(w) + RemoveSpaces(rest)
    ensures RemoveSpaces(Concat(f + tail)) == RemoveSpaces(current) + RemoveSpaces(w + rest)
  {
    ConcatAppend(f, tail);
    RemoveSpacesAppend(current, Concat(tail));
    RemoveSpacesAppend(w, rest);
  }

  /** The word loop keeps every non-whitespace character, in order. */
  lemma {:induction false} PackWordsKeepsText(words: seq<string>, current: string, m: nat)
    requires m >= 1
    ensures RemoveSpaces(Concat(PackWords(words, current, m))) ==
            RemoveSpaces(current) + RemoveSpaces(Concat(words))
    decreases |words|
  {
    if |words| == 0 {
      FlushConcat(current);
      assert RemoveSpaces(Concat(words)) == "";
    } else {
      var w, rest := words[0], words[1..];
      var testLine := if current != "" then current + " " + w else w;
      assert Concat(words) == w + Concat(rest);
      FlushConcat(current);
      if |testLine| <= m {
        assert PackWords(words, current, m) == PackWords(rest, testLine, m);
        PackWordsKeepsText(rest, testLine, m);
        FitsStepText(current, w, Concat(rest), Concat(PackWords(rest, testLine, m)));
      } else if |w| > m {
        var tail := PackWords(rest, "", m);
        assert PackWords(words, current, m) == Flush(current) + HardSlices(w, m) + tail;
        PackWordsKeepsText(rest, "", m);
        OversizeWordText(current, w, Concat(rest), Flush(current), HardSlices(w, m), tail);
      } else {
        var tail := PackWords(rest, w, m);
        assert PackWords(words, current, m) == Flush(current) + tail;
        PackWordsKeepsText(rest, w, m);
        NewLineText(current, w, Concat(rest), Flush(current), tail);
      }
    }
  }

  lemma FlushConcat(current: string)
    ensures Concat(Flush(current)) == current
  {
    if current != "" { ConcatSingle(current); }
  }

  lemma TestLineText(current: string, w: string)
    ensures RemoveSpaces(if current != "" then current + " " + w else w) ==
            RemoveSpaces(current) + RemoveSpaces(w)
  {
    if current != "" { RemoveSpacesOfJoin(current, w); }
  }

  /** Reassembles an oversize part from its emitted slices and the last one. */
  lemma SlicesReassemble(p: string, m: nat)
    requires m >= 1 && |p| > m
    ensures var sl := HardSlices(p, m);
      Concat(sl[..|sl| - 1]) + sl[|sl| - 1] == p
  {
    var sl := HardSlices(p, m);
    var init, last := sl[..|sl| - 1], sl[|sl| - 1];
    assert sl == init + [last];
    ConcatAppend(init, [last]);
    ConcatSingle(last);
  }

  /** Gluing: what was flushed, the emitted slices, then the rest of the loop
      starting from the last slice. */
  lemma GlueSlices(f: seq<string>, init: seq<string>, tail: seq<string>, a: string, last: string, p: string, rest: string)
    requires Concat(f) == a && Concat(init) + last == p && Concat(tail) == last + rest
    ensures Concat(f + init + tail) == a + (p + rest)
  {
    Concat3(f, init, tail);
    StrAssoc(Concat(init), last, rest);
  }

  /** The oversize-part step of the part loop, given the rest of the loop. */
  lemma OversizePartConcat(current: string, p: string, rest: string, m: nat, tail: seq<string>)
    requires m >= 1 && |p| > m
    requires var sl := HardSlices(p, m); Concat(tail) == sl[|sl| - 1] + rest
    ensures var sl := HardSlices(p, m);
      Concat(Flush(current) + sl[..|sl| - 1] + tail) == current + (p + rest)
  {
    var sl := HardSlices(p, m);
    SlicesReassemble(p, m);
    FlushConcat(current);
    GlueSlices(Flush(current), sl[..|sl| - 1], tail, current, sl[|sl| - 1], p, rest);
  }

  /** The part loop reproduces its input exactly. */
  lemma {:induction false} PackPartsConcat(parts: seq<string>, current: string, m: nat)
    requires m >= 1
    ensures Concat(PackParts(parts, current, m)) == current + Concat(parts)
    decreases |parts|
  {
    FlushConcat(current);
    if |parts| > 0 {
      var p, rest := parts[0], parts[1..];
      assert Concat(parts) == p + Concat(rest);
      if |current + p| <= m {
        PackPartsConcat(rest, current + p, m);
        StrAssoc(current, p, Concat(rest));
      } else if |p| > m {
        var sl := HardSlices(p, m);
        var tail := PackParts(rest, sl[|sl| - 1], m);
        assert PackParts(parts, current, m) == Flush(current) + sl[..|sl| - 1] + tail;
        PackPartsConcat(rest, sl[|sl| - 1], m);
        OversizePartConcat(current, p, Concat(rest), m, tail);
      } else {
        var tail := PackParts(rest, p, m);
        assert PackParts(parts, current, m) == Flush(current) + tail;
        PackPartsConcat(rest, p, m);
        ConcatAppend(Flush(current), tail);
      }
    }
  }

  /** Dropping blank chunks drops no non-whitespace character. */
  lemma {:induction false} KeepNonBlankKeepsText(cs: seq<string>)
    ensures RemoveSpaces(Concat(KeepNonBlank(cs))) == RemoveSpaces(Concat(cs))
    decreases |cs|
  {
    if |cs| > 0 {
      var c, rest := cs[0], cs[1..];
      var head := if Trim(c) != "" then [c] else [];
      var kept := KeepNonBlank(rest);
      assert KeepNonBlank(cs) == head + kept;
      KeepNonBlankKeepsText(rest);
      ConcatAppend(head, kept);
      assert Concat(cs) == c + Concat(rest);
      RemoveSpacesAppend(c, Concat(rest));
      RemoveSpacesAppend(Concat(head), Concat(kept));
      if Trim(c) != "" {
        ConcatSingle(c);
      } else {
        RemoveSpacesOfBlank(c);
        assert Concat(head) == "";
      }
    }
  }

  lemma SpaceFreeParts(a: string, b: string)
    requires !HasSpace(a + b)
    ensures !HasSpace(a) && !HasSpace(b)
  {
    forall i | 0 <= i < |a| ensures !IsSpace(a[i]) {
      assert (a + b)[i] == a[i];
    }
    forall i | 0 <= i < |b| ensures !IsSpace(b[i]) {
      assert (a + b)[|a| + i] == b[i];
    }
  }

  /** Space-free text splits into space-free chunks. */
  lemma {:induction false} SpaceFreeChunks(cs: seq<string>)
    requires !HasSpace(Concat(cs))
    ensures forall c :: c in cs ==> !HasSpace(c)
    decreases |cs|
  {
    if |cs| > 0 {
      assert Concat(cs) == cs[0] + Concat(cs[1..]);
      SpaceFreeParts(cs[0], Concat(cs[1..]));
      SpaceFreeChunks(cs[1..]);
      assert forall c :: c in cs ==> c == cs[0] || c in cs[1..];
    }
  }

  /** Non-empty, whitespace-free chunks are never blank, so the filter keeps all. */
  lemma {:induction false} KeepNonBlankKeepsAll(cs: seq<string>)
    requires forall c :: c in cs ==> c != "" && !HasSpace(c)
    ensures KeepNonBlank(cs) == cs
    decreases |cs|
  {
    if |cs| > 0 {
      var c := cs[0];
      assert c in cs;
      assert !IsSpace(c[0]);
      assert forall d :: d in cs[1..] ==> d in cs;
      KeepNonBlankKeepsAll(cs[1..]);
      assert cs == [c] + cs[1..];
    }
  }

  /** Whitespace branch: the chunks carry exactly the input's non-whitespace
      characters, in order. */
  lemma WordBranchKeepsText(text: string, m: nat)
    requires m >= 1
    ensures RemoveSpaces(Concat(KeepNonBlank(PackWords(SplitWs(text), "", m)))) == RemoveSpaces(text)
  {
    var words := SplitWs(text);
    var packed := PackWords(words, "", m);
    KeepNonBlankKeepsText(packed);
    PackWordsKeepsText(words, "", m);
    assert RemoveSpaces("") == "";
    assert RemoveSpaces(Concat(packed)) == RemoveSpaces(Concat(words));
    SplitWsRoundTrip(text);
    RemoveSpacesIdempotent(text);
  }

  lemma RemoveSpacesIdempotent(s: string)
    ensures RemoveSpaces(RemoveSpaces(s)) == RemoveSpaces(s)
  {
    RemoveSpacesSpaceFree(s);
    RemoveSpacesOfSpaceFree(RemoveSpaces(s));
  }

  lemma {:induction false} RemoveSpacesSpaceFree(s: string)
    ensures !HasSpace(RemoveSpaces(s))
    decreases |s|
  {
    if |s| > 0 {
      RemoveSpacesSpaceFree(s[1..]);
      var r := RemoveSpaces(s[1..]);
      if !IsSpace(s[0]) {
        forall i | 0 <= i < |r| + 1 ensures !IsSpace(([s[0]] + r)[i]) {
          if i > 0 { assert ([s[0]] + r)[i] == r[i - 1]; }
        }
      }
    }
  }

  /** No-whitespace branch: concatenating the chunks gives back the input. */
  lemma PartsBranchRoundTrip(text: string, m: nat)
    requires m >= 1 && !HasSpace(text)
    ensures Concat(KeepNonBlank(PackParts(BreakParts(text), "", m))) == text
  {
    var parts := BreakParts(text);
    PartsRoundTrip(text, 0);
    assert text[0..] == text;
    PackPartsConcat(parts, "", m);
    PackPartsBound(parts, "", m);
    SpaceFreeChunks(PackParts(parts, "", m));
    KeepNonBlankKeepsAll(PackParts(parts, "", m));
  }
}
