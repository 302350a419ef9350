/**
 * Validation of todo text: the length limits, the storage key and the
 * whitespace trimming that is applied before any length is measured.
 */
module Validation {

  const MinTextLength: nat := 1
  const MaxTextLength: nat := 500
  const StorageKey: string := "todos"

  /**
   * The characters that String.prototype.trim removes: the ECMAScript
   * WhiteSpace code points (tab, vertical tab, form feed, space, no-break
   * space, zero-width no-break space and the Unicode space separators) and
   * the LineTerminator code points.
   */
  predicate IsWhitespace(c: char) {
    || c == '\t' || c == '\U{000B}' || c == '\U{000C}' || c == ' '
    || c == '\U{00A0}' || c == '\U{FEFF}'
    || c == '\U{1680}' || ('\U{2000}' <= c <= '\U{200A}')
    || c == '\U{202F}' || c == '\U{205F}' || c == '\U{3000}'
    || c == '\n' || c == '\r' || c == '\U{2028}' || c == '\U{2029}'
  }

  predicate AllWhitespace(s: string) {
    forall i :: 0 <= i < |s| ==> IsWhitespace(s[i])
  }

  /** `s` neither starts nor ends with whitespace (the empty string qualifies). */
  predicate Trimmed(s: string) {
    s == [] || (!IsWhitespace(s[0]) && !IsWhitespace(s[|s| - 1]))
  }

  /** `s` without its leading whitespace. */
  function TrimStart(s: string): (r: string)
    ensures |r| <= |s|
    ensures r == [] <==> AllWhitespace(s)
    ensures r == [] || !IsWhitespace(r[0])
  {
    if |s| > 0 && IsWhitespace(s[0]) then TrimStart(s[1..]) else s
  }

  /** `s` without its trailing whitespace; a non-empty result starts where `s` starts. */
  function TrimEnd(s: string): (r: string)
    ensures |r| <= |s|
    ensures r == [] <==> AllWhitespace(s)
    ensures r == [] || !IsWhitespace(r[|r| - 1])
    ensures r != [] ==> r[0] == s[0]
  {
    if |s| > 0 && IsWhitespace(s[|s| - 1]) then TrimEnd(s[..|s| - 1]) else s
  }

  /** String.prototype.trim over the whitespace predicate above. */
  function Trim(s: string): (r: string)
    ensures |r| <= |s| && Trimmed(r)
    ensures r == [] <==> AllWhitespace(s)
  {
    TrimEnd(TrimStart(s))
  }

  /**
   * isValidTodoText: the trimmed length lies in [MinTextLength, MaxTextLength].
   * So a non-blank text of at most 500 characters is valid, and a blank one never is.
   */
  predicate IsValidTodoText(text: string): (ok: bool)
    ensures ok ==> !AllWhitespace(text)
    ensures !AllWhitespace(text) && |text| <= MaxTextLength ==> ok
  {
    var trimmed := Trim(text);
    MinTextLength <= |trimmed| && |trimmed| <= MaxTextLength
  }

  lemma {:induction false} TrimStartPadded(pre: string, rest: string)
    requires AllWhitespace(pre)
    requires rest == [] || !IsWhitespace(rest[0])
    ensures TrimStart(pre + rest) == rest
  {
    if pre != [] {
      assert (pre + rest)[1..] == pre[1..] + rest;
      TrimStartPadded(pre[1..], rest);
    }
  }

  lemma {:induction false} TrimEndPadded(rest: string, post: string)
    requires AllWhitespace(post)
    requires rest == [] || !IsWhitespace(rest[|rest| - 1])
    ensures TrimEnd(rest + post) == rest
  {
    if post != [] {
      var n := |post| - 1;
      assert (rest + post)[..|rest + post| - 1] == rest + post[..n];
      TrimEndPadded(rest, post[..n]);
    }
  }

  /** Trimming removes exactly the surrounding whitespace and nothing of a trimmed core. */
  lemma TrimPadded(pre: string, core: string, post: string)
    requires AllWhitespace(pre) && AllWhitespace(post) && Trimmed(core)
    ensures Trim(pre + core + post) == core
  {
    if core == [] {
      assert AllWhitespace(pre + core + post) by {
        assert pre + core + post == pre + post;
      }
    } else {
      assert pre + core + post == pre + (core + post);
      TrimStartPadded(pre, core + post);
      TrimEndPadded(core, post);
    }
  }

  lemma {:induction false} TrimStartSplits(s: string) returns (pre: string)
    ensures s == pre + TrimStart(s) && AllWhitespace(pre)
  {
    if |s| > 0 && IsWhitespace(s[0]) {
      var rest := TrimStartSplits(s[1..]);
      pre := [s[0]] + rest;
      assert s == [s[0]] + s[1..];
    } else {
      pre := [];
    }
  }

  lemma {:induction false} TrimEndSplits(s: string) returns (post: string)
    ensures s == TrimEnd(s) + post && AllWhitespace(post)
  {
    if |s| > 0 && IsWhitespace(s[|s| - 1]) {
      var rest := TrimEndSplits(s[..|s| - 1]);
      post := rest + [s[|s| - 1]];
      assert s == s[..|s| - 1] + [s[|s| - 1]];
    } else {
      post := [];
    }
  }

  /** Every string is its trimmed text surrounded by whitespace. */
  lemma TrimSplits(s: string) returns (pre: string, post: string)
    ensures s == pre + Trim(s) + post
    ensures AllWhitespace(pre) && AllWhitespace(post)
  {
    pre := TrimStartSplits(s);
    post := TrimEndSplits(TrimStart(s));
  }

  lemma TrimIdempotent(s: string)
    ensures Trim(Trim(s)) == Trim(s)
  {
  }

  /** Validating the trimmed text gives the same answer as validating the raw text. */
  lemma ValidityIsTrimInvariant(s: string)
    ensures IsValidTodoText(Trim(s)) == IsValidTodoText(s)
  {
    TrimIdempotent(s);
  }

  /** Surrounding whitespace is ignored: a padded text is valid iff its core has 1 to 500 characters. */
  lemma ValidIffCoreLengthInRange(pre: string, core: string, post: string)
    requires AllWhitespace(pre) && AllWhitespace(post) && Trimmed(core)
    ensures IsValidTodoText(pre + core + post) <==> 1 <= |core| <= 500
  {
    TrimPadded(pre, core, post);
  }

  /** Text made only of whitespace, the empty text included, is never valid. */
  lemma WhitespaceOnlyIsInvalid(s: string)
    requires AllWhitespace(s)
    ensures !IsValidTodoText(s)
  {
  }

  function Repeat(c: char, n: nat): (r: string)
    ensures |r| == n && forall i :: 0 <= i < n ==> r[i] == c
  {
    if n == 0 then [] else [c] + Repeat(c, n - 1)
  }

  /** The empty text and a tab-newline pair are invalid. */
  lemma EmptyAndBlankInvalid()
    ensures !IsValidTodoText("") && !IsValidTodoText("\t\n")
  {
    assert AllWhitespace("\t\n");
  }

  /** A run of n copies of a visible character is valid iff 1 <= n <= 500, with or without padding. */
  lemma RunValidity(c: char, n: nat, pad: nat)
    requires !IsWhitespace(c)
    ensures IsValidTodoText(Repeat(c, n)) <==> 1 <= n <= 500
    ensures IsValidTodoText(Repeat(' ', pad) + Repeat(c, n) + Repeat(' ', pad)) <==> 1 <= n <= 500
  {
    var core := Repeat(c, n);
    assert [] + core + [] == core;
    ValidIffCoreLengthInRange([], core, []);
    ValidIffCoreLengthInRange(Repeat(' ', pad), core, Repeat(' ', pad));
  }

  /** 500 characters pass and 501 fail, bare or inside 3 and 2 spaces of padding respectively. */
  lemma LengthBoundaries()
    ensures IsValidTodoText(Repeat('a', 500)) && !IsValidTodoText(Repeat('a', 501))
    ensures IsValidTodoText(Repeat(' ', 3) + Repeat('a', 500) + Repeat(' ', 3))
    ensures !IsValidTodoText(Repeat(' ', 2) + Repeat('a', 501) + Repeat(' ', 2))
  {
    RunValidity('a', 500, 3);
    RunValidity('a', 501, 2);
  }
}
