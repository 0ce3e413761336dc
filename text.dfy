/**
 * The two string operations the categoriser relies on: Python's `str.lower()`
 * (modelled over ASCII) and the substring test `needle in text`.
 */
module Text {

  predicate IsUpper(c: char)
  {
    'A' <= c <= 'Z'
  }

  function LowerChar(c: char): (r: char)
    ensures !IsUpper(r)
    ensures IsUpper(c) ==> r as int == c as int + 32
    ensures !IsUpper(c) ==> r == c
  {
    if IsUpper(c) then (c as int + 32) as char else c
  }

  /** `s.lower()`: every ASCII capital is replaced by its small letter, nothing else moves. */
  function Lower(s: string): (r: string)
    ensures |r| == |s|
    ensures forall i :: 0 <= i < |r| ==> !IsUpper(r[i])
    ensures forall i :: 0 <= i < |r| ==> r[i] == LowerChar(s[i])
  {
    seq(|s|, i requires 0 <= i < |s| => LowerChar(s[i]))
  }

  /** The window of `text` that starts at `i` spells `needle`. */
  predicate MatchesAt(text: string, needle: string, i: nat)
  {
    i + |needle| <= |text| && text[i..i + |needle|] == needle
  }

  /** `needle in text`: some window of `text` spells `needle`. */
  predicate Contains(text: string, needle: string)
  {
    exists i: nat | i <= |text| :: MatchesAt(text, needle, i)
  }

  /** The empty keyword is found in every text, as in Python. */
  lemma EmptyNeedleAlwaysFound(text: string)
    ensures Contains(text, "")
  {
    assert MatchesAt(text, "", 0);
  }

  /** A needle with a character that the text does not hold is never found. */
  lemma MissingCharNeverFound(text: string, needle: string, j: nat)
    requires j < |needle| && needle[j] !in text
    ensures !Contains(text, needle)
  {
    forall i: nat | i <= |text|
      ensures !MatchesAt(text, needle, i)
    {
      if i + |needle| <= |text| {
        assert text[i..i + |needle|][j] == text[i + j];
      }
    }
  }

  /**
   * The text is lowercased but the keyword is not: a keyword holding an ASCII
   * capital can never match, so matching is case-insensitive only for
   * lowercase keywords.
   */
  lemma UppercaseKeywordNeverMatches(text: string, keyword: string, j: nat)
    requires j < |keyword| && IsUpper(keyword[j])
    ensures !Contains(Lower(text), keyword)
  {
    var lowered := Lower(text);
    assert keyword[j] !in lowered by {
      forall p | 0 <= p < |lowered| ensures lowered[p] != keyword[j] {
        assert !IsUpper(lowered[p]);
      }
    }
    MissingCharNeverFound(lowered, keyword, j);
  }
}
