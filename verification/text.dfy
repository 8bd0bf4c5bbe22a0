/** String predicates of the Kotlin standard library as the app uses them:
    `lowercase`, `contains` (with and without `ignoreCase`), `isBlank` and
    `startsWith`. Case folding is ASCII only. */
module Text {

  function LowerChar(c: char): char {
    if 'A' <= c <= 'Z' then (c as int - 'A' as int + 'a' as int) as char else c
  }

  /** `String.lowercase()`, folding ASCII letters. */
  function Lower(s: string): (r: string)
    ensures |r| == |s|
    ensures forall i :: 0 <= i < |s| ==> r[i] == LowerChar(s[i])
  {
    seq(|s|, i requires 0 <= i < |s| => LowerChar(s[i]))
  }

  /** Lowercasing twice is lowercasing once. */
  lemma LowerIdempotent(s: string)
    ensures Lower(Lower(s)) == Lower(s)
  {
  }

  /** `Char.isWhitespace()` on the JVM: a character that is Java whitespace
      or a Unicode space separator. In the ASCII range that is space, the
      controls from tab to carriage return and the four separators
      U+001C..U+001F; above it, no-break space, ogham space mark, the
      spaces U+2000..U+200A, the line and paragraph separators, narrow
      no-break space, medium mathematical space and ideographic space. */
  predicate IsWhitespace(c: char) {
    || c == ' ' || '\t' <= c <= '\r' || '\U{1C}' <= c <= '\U{1F}'
    || c == '\U{A0}' || c == '\U{1680}' || '\U{2000}' <= c <= '\U{200A}'
    || c == '\U{2028}' || c == '\U{2029}' || c == '\U{202F}' || c == '\U{205F}'
    || c == '\U{3000}'
  }

  /** The characters above ASCII that count as blank, and two that do not:
      zero-width space and the byte-order mark. */
  lemma UnicodeSpacesAreBlank()
    ensures IsBlank(['\U{A0}', '\U{2007}', '\U{3000}'])
    ensures !IsBlank(['\U{200B}']) && !IsBlank(['\U{FEFF}'])
    ensures !IsBlank("a ")
  {
    assert !IsWhitespace(['\U{200B}'][0]);
    assert !IsWhitespace(['\U{FEFF}'][0]);
    assert !IsWhitespace("a "[0]);
  }

  /** `CharSequence.isBlank()`: empty or only whitespace. */
  predicate IsBlank(s: string) {
    forall i :: 0 <= i < |s| ==> IsWhitespace(s[i])
  }

  /** `String.startsWith(prefix)`. */
  predicate StartsWith(s: string, prefix: string) {
    |prefix| <= |s| && s[..|prefix|] == prefix
  }

  /** `needle` occurs in `hay` starting at offset `i`. */
  ghost predicate OccursAt(hay: string, needle: string, i: int) {
    0 <= i && i + |needle| <= |hay| && hay[i..i + |needle|] == needle
  }

  /** `String.contains(needle)`: scans the start offsets of `hay` in order. */
  predicate Contains(hay: string, needle: string)
    decreases |hay|
  {
    StartsWith(hay, needle) || (|hay| > 0 && Contains(hay[1..], needle))
  }

  lemma {:induction false} OccursImpliesContains(hay: string, needle: string, i: int)
    requires OccursAt(hay, needle, i)
    ensures Contains(hay, needle)
    decreases i
  {
    if i == 0 {
      assert StartsWith(hay, needle);
    } else {
      assert hay[1..][i - 1..i - 1 + |needle|] == hay[i..i + |needle|];
      OccursImpliesContains(hay[1..], needle, i - 1);
    }
  }

  lemma {:induction false} ContainsImpliesOccurs(hay: string, needle: string)
    requires Contains(hay, needle)
    ensures exists i :: OccursAt(hay, needle, i)
    decreases |hay|
  {
    if StartsWith(hay, needle) {
      assert OccursAt(hay, needle, 0);
    } else {
      ContainsImpliesOccurs(hay[1..], needle);
      var i :| OccursAt(hay[1..], needle, i);
      assert hay[1..][i..i + |needle|] == hay[i + 1..i + 1 + |needle|];
      assert OccursAt(hay, needle, i + 1);
    }
  }

  /** `Contains` holds exactly when the needle occurs at some offset. */
  lemma ContainsIffOccurs(hay: string, needle: string)
    ensures Contains(hay, needle) <==> exists i :: OccursAt(hay, needle, i)
  {
    if Contains(hay, needle) {
      ContainsImpliesOccurs(hay, needle);
    }
    if i :| OccursAt(hay, needle, i) {
      OccursImpliesContains(hay, needle, i);
    }
  }

  /** Every string contains the empty string. */
  lemma ContainsEmpty(hay: string)
    ensures Contains(hay, "")
  {
    assert StartsWith(hay, "");
  }

  /** `hay.contains(needle, ignoreCase = true)`, equivalently
      `hay.lowercase().contains(needle.lowercase())` under ASCII folding. */
  predicate ContainsIgnoreCase(hay: string, needle: string) {
    Contains(Lower(hay), Lower(needle))
  }
}
