/** The JavaScript string operations the pipeline relies on, with their exact
    semantics: the `\s` character class (shared by `String.prototype.trim`),
    `trim`, `split(/\s+/)`, `startsWith` and `includes`. A string is a sequence of
    Unicode scalar values, one `char` each; these match JavaScript's UTF-16 code
    units only inside the Basic Multilingual Plane. */
module JsText {

  /** Membership in the `\s` class: the ECMAScript WhiteSpace and LineTerminator
      code points, which are also exactly the characters `trim` removes. */
  predicate IsSpace(c: char) {
    var u := c as int;
    u == 0x09 || u == 0x0A || u == 0x0B || u == 0x0C || u == 0x0D || u == 0x20 ||
    u == 0xA0 || u == 0x1680 || (0x2000 <= u <= 0x200A) || u == 0x2028 || u == 0x2029 ||
    u == 0x202F || u == 0x205F || u == 0x3000 || u == 0xFEFF
  }

  /** `/\s/.test(s)`. */
  predicate HasSpace(s: string) {
    exists i :: 0 <= i < |s| && IsSpace(s[i])
  }

  /** Every character is whitespace (the empty string included). */
  predicate IsBlank(s: string) {
    forall i :: 0 <= i < |s| ==> IsSpace(s[i])
  }

  /** The characters of `s` that are not whitespace, in order. */
  function RemoveSpaces(s: string): (r: string)
    ensures |r| <= |s|
  {
    if |s| == 0 then ""
    else if IsSpace(s[0]) then RemoveSpaces(s[1..])
    else [s[0]] + RemoveSpaces(s[1..])
  }

  /** The concatenation of a list of strings (`chunks.join('')`). */
  function Concat(ss: seq<string>): string {
    if |ss| == 0 then "" else ss[0] + Concat(ss[1..])
  }

  /** `s.startsWith(p)`. */
  predicate StartsWith(s: string, p: string) {
    |p| <= |s| && s[..|p|] == p
  }

  /** `s.includes(p)`, as the left-to-right search an engine performs. */
  predicate Contains(s: string, p: string)
    decreases |s|
  {
    if |p| > |s| then false
    else if s[..|p|] == p then true
    else Contains(s[1..], p)
  }

  /** `p` occurs in `s` at position `i`. */
  ghost predicate OccursAt(s: string, p: string, i: int) {
    0 <= i && i + |p| <= |s| && s[i..i + |p|] == p
  }

  // ---------------------------------------------------------------- trim

  /** The first index at or after `i` that is not whitespace (or `|s|`). */
  function SkipSpaces(s: string, i: nat): (j: nat)
    requires i <= |s|
    ensures i <= j <= |s|
    ensures forall k :: i <= k < j ==> IsSpace(s[k])
    ensures j < |s| ==> !IsSpace(s[j])
    decreases |s| - i
  {
    if i < |s| && IsSpace(s[i]) then SkipSpaces(s, i + 1) else i
  }

  /** The smallest `e <= j` such that `s[e..j]` is all whitespace. */
  function SkipSpacesBack(s: string, j: nat): (e: nat)
    requires j <= |s|
    ensures e <= j
    ensures forall k :: e <= k < j ==> IsSpace(s[k])
    ensures e > 0 ==> !IsSpace(s[e - 1])
  {
    if j > 0 && IsSpace(s[j - 1]) then SkipSpacesBack(s, j - 1) else j
  }

  /** `s.trim()`: the slice of `s` between its first and last non-whitespace
      characters, or `""` when there is none. */
  function Trim(s: string): (r: string)
    ensures r == [] <==> IsBlank(s)
    ensures r != [] ==> SkipSpaces(s, 0) < SkipSpacesBack(s, |s|) &&
                        r == s[SkipSpaces(s, 0)..SkipSpacesBack(s, |s|)]
    ensures r != [] ==> !IsSpace(r[0]) && !IsSpace(r[|r| - 1])
  {
    var a := SkipSpaces(s, 0);
    var b := SkipSpacesBack(s, |s|);
    if a < b then s[a..b] else ""
  }

  // ------------------------------------------------------- split(/\s+/)

  /** The first index at or after `i` that is whitespace (or `|s|`). */
  function SkipWord(s: string, i: nat): (j: nat)
    requires i <= |s|
    ensures i <= j <= |s|
    ensures forall k :: i <= k < j ==> !IsSpace(s[k])
    ensures j < |s| ==> IsSpace(s[j])
    decreases |s| - i
  {
    if i < |s| && !IsSpace(s[i]) then SkipWord(s, i + 1) else i
  }

  /** The pieces of `s[i..]` between maximal whitespace runs. */
  function SplitFrom(s: string, i: nat): (words: seq<string>)
    requires i <= |s|
    ensures |words| >= 1
    decreases |s| - i
  {
    var j := SkipWord(s, i);
    if j == |s| then [s[i..]]
    else [s[i..j]] + SplitFrom(s, SkipSpaces(s, j))
  }

  /** `s.split(/\s+/)`: the pieces between maximal whitespace runs, including an
      empty first piece when `s` starts with whitespace and an empty last piece
      when it ends with whitespace; `"".split(/\s+/)` is `[""]`. */
  function SplitWs(s: string): (words: seq<string>)
    ensures |words| >= 1
  {
    SplitFrom(s, 0)
  }

  // ------------------------------------------------------------- lemmas

  lemma {:induction false} RemoveSpacesAppend(a: string, b: string)
    ensures RemoveSpaces(a + b) == RemoveSpaces(a) + RemoveSpaces(b)
    decreases |a|
  {
    if |a| == 0 {
      assert a + b == b;
    } else {
      assert (a + b)[0] == a[0];
      assert (a + b)[1..] == a[1..] + b;
      RemoveSpacesAppend(a[1..], b);
    }
  }

  lemma {:induction false} RemoveSpacesOfBlank(s: string)
    ensures RemoveSpaces(s) == "" <==> IsBlank(s)
    decreases |s|
  {
    if |s| > 0 {
      RemoveSpacesOfBlank(s[1..]);
      if IsBlank(s) {
        assert IsBlank(s[1..]) by {
          forall i | 0 <= i < |s| - 1 ensures IsSpace(s[1..][i]) {
            assert s[1..][i] == s[i + 1];
          }
        }
      } else if IsSpace(s[0]) {
        assert !IsBlank(s[1..]) by {
          var j :| 0 <= j < |s| && !IsSpace(s[j]);
          assert s[1..][j - 1] == s[j];
        }
      }
    }
  }

  lemma {:induction false} RemoveSpacesOfSpaceFree(s: string)
    requires !HasSpace(s)
    ensures RemoveSpaces(s) == s
    decreases |s|
  {
    if |s| > 0 {
      assert !IsSpace(s[0]);
      assert !HasSpace(s[1..]) by {
        forall i | 0 <= i < |s| - 1 ensures !IsSpace(s[1..][i]) {
          assert s[1..][i] == s[i + 1];
        }
      }
      RemoveSpacesOfSpaceFree(s[1..]);
      assert s == [s[0]] + s[1..];
    }
  }

  lemma {:induction false} ConcatAppend(xs: seq<string>, ys: seq<string>)
    ensures Concat(xs + ys) == Concat(xs) + Concat(ys)
    decreases |xs|
  {
    if |xs| == 0 {
      assert xs + ys == ys;
    } else {
      assert (xs + ys)[0] == xs[0];
      assert (xs + ys)[1..] == xs[1..] + ys;
      ConcatAppend(xs[1..], ys);
    }
  }

  /** `s[i..j]` followed by whitespace `s[j..k]`: only the word survives. */
  lemma RemoveSpacesWordThenGap(s: string, i: nat, j: nat, k: nat)
    requires i <= j <= k <= |s|
    requires forall m :: i <= m < j ==> !IsSpace(s[m])
    requires forall m :: j <= m < k ==> IsSpace(s[m])
    ensures RemoveSpaces(s[i..]) == s[i..j] + RemoveSpaces(s[k..])
  {
    var word, gap, tail := s[i..j], s[j..k], s[k..];
    assert !HasSpace(word) by {
      forall m | 0 <= m < |word| ensures !IsSpace(word[m]) {
        assert word[m] == s[i + m];
      }
    }
    assert IsBlank(gap) by {
      forall m | 0 <= m < |gap| ensures IsSpace(gap[m]) {
        assert gap[m] == s[j + m];
      }
    }
    assert s[i..] == word + (gap + tail);
    RemoveSpacesAppend(word, gap + tail);
    RemoveSpacesAppend(gap, tail);
    RemoveSpacesOfSpaceFree(word);
    RemoveSpacesOfBlank(gap);
  }

  /** The pieces of `split(/\s+/)` are whitespace-free, and gluing them back
      together yields exactly the non-whitespace characters of the input. */
  lemma {:induction false} SplitFromRoundTrip(s: string, i: nat)
    requires i <= |s|
    ensures forall w :: w in SplitFrom(s, i) ==> !HasSpace(w)
    ensures Concat(SplitFrom(s, i)) == RemoveSpaces(s[i..])
    decreases |s| - i
  {
    var j := SkipWord(s, i);
    assert !HasSpace(s[i..j]) by {
      forall m | 0 <= m < j - i ensures !IsSpace(s[i..j][m]) {
        assert s[i..j][m] == s[i + m];
      }
    }
    if j == |s| {
      RemoveSpacesWordThenGap(s, i, j, j);
      assert s[j..] == [];
      assert s[i..] == s[i..j];
    } else {
      var k := SkipSpaces(s, j);
      SplitFromRoundTrip(s, k);
      RemoveSpacesWordThenGap(s, i, j, k);
      assert Concat(SplitFrom(s, i)) == s[i..j] + Concat(SplitFrom(s, k));
    }
  }

  lemma SplitWsRoundTrip(s: string)
    ensures forall w :: w in SplitWs(s) ==> !HasSpace(w)
    ensures Concat(SplitWs(s)) == RemoveSpaces(s)
  {
    SplitFromRoundTrip(s, 0);
    assert s[0..] == s;
  }

  /** `includes` finds `p` exactly when `p` occurs somewhere in `s`. */
  lemma {:induction false} ContainsIff(s: string, p: string)
    ensures Contains(s, p) <==> exists i :: OccursAt(s, p, i)
    decreases |s|
  {
    if |p| > |s| {
      assert forall i :: !OccursAt(s, p, i);
    } else if s[..|p|] == p {
      assert OccursAt(s, p, 0);
    } else {
      ContainsIff(s[1..], p);
      if Contains(s[1..], p) {
        var i :| OccursAt(s[1..], p, i);
        assert s[i + 1..i + 1 + |p|] == s[1..][i..i + |p|];
        assert OccursAt(s, p, i + 1);
      } else {
        forall i | OccursAt(s, p, i) ensures false {
          assert i != 0;
          assert s[1..][i - 1..i - 1 + |p|] == s[i..i + |p|];
          assert OccursAt(s[1..], p, i - 1);
        }
      }
    }
  }
}
