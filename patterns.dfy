/**
  The seven regular expressions the highlighter uses, each written out as a
  matcher with the leftmost-first, greedy semantics of Go's regexp package,
  and regexp's ReplaceAllStringFunc built on top of them. Go's `\s`, `\d` and
  `\w` classes are ASCII-only; `.` matches anything but a newline.
*/
module Patterns {
  import opened Wrappers
  import opened Text

  datatype Pattern =
    | JsonKey     // a quoted string immediately followed by a colon
    | JsonString  // a colon, optional white space, a quoted string
    | JsonNumber  // a colon, optional white space, an optionally signed decimal with fraction and exponent
    | JsonBool    // a colon, optional white space, `true` or `false`
    | JsonNull    // a colon, optional white space, `null`
    | Tag         // `<`, at least one character other than `>`, then `>`
    | Attribute   // a word, `=`, then a double- or single-quoted value

  /** Go's `\s`: space, tab, newline, form feed and carriage return. */
  predicate IsRegexSpace(c: char) {
    c == ' ' || c == '\t' || c == '\n' || c == '\U{000C}' || c == '\r'
  }

  /** Go's `\w`. */
  predicate IsWordChar(c: char) {
    ('a' <= c <= 'z') || ('A' <= c <= 'Z') || ('0' <= c <= '9') || c == '_'
  }

  /** End of the run of regexp white space starting at i. */
  function SpacesEnd(s: string, i: nat): (k: nat)
    requires i <= |s|
    ensures i <= k <= |s|
    ensures forall j :: i <= j < k ==> IsRegexSpace(s[j])
    ensures k < |s| ==> !IsRegexSpace(s[k])
    decreases |s| - i
  {
    if i < |s| && IsRegexSpace(s[i]) then SpacesEnd(s, i + 1) else i
  }

  /** End of the run of ASCII digits starting at i. */
  function DigitsEnd(s: string, i: nat): (k: nat)
    requires i <= |s|
    ensures i <= k <= |s|
    ensures forall j :: i <= j < k ==> IsDigitChar(s[j])
    ensures k < |s| ==> !IsDigitChar(s[k])
    decreases |s| - i
  {
    if i < |s| && IsDigitChar(s[i]) then DigitsEnd(s, i + 1) else i
  }

  /** End of the run of word characters starting at i. */
  function WordEnd(s: string, i: nat): (k: nat)
    requires i <= |s|
    ensures i <= k <= |s|
    ensures forall j :: i <= j < k ==> IsWordChar(s[j])
    ensures k < |s| ==> !IsWordChar(s[k])
    decreases |s| - i
  {
    if i < |s| && IsWordChar(s[i]) then WordEnd(s, i + 1) else i
  }

  /**
    The body of a quoted string starting at i (just after the opening quote):
    characters other than a quote or a backslash, or a backslash followed by
    any character but a newline. Gives the index just past the closing quote.
  */
  function QuotedEnd(s: string, i: nat): (r: Option<nat>)
    requires i <= |s|
    ensures r.Some? ==> i < r.value <= |s| && s[r.value - 1] == '"'
    decreases |s| - i
  {
    if i == |s| then None
    else if s[i] == '"' then Some(i + 1)
    else if s[i] == '\\' then (if i + 1 < |s| && s[i + 1] != '\n' then QuotedEnd(s, i + 2) else None)
    else QuotedEnd(s, i + 1)
  }

  /** The optional exponent of a number whose mantissa ends at f: a letter e, an optional sign, digits. */
  function ExponentEnd(s: string, f: nat): (e: nat)
    requires f <= |s|
    ensures f <= e <= |s|
    ensures forall j :: f <= j < e ==> s[j] != '"'
  {
    if f < |s| && (s[f] == 'e' || s[f] == 'E') then
      var g := if f + 1 < |s| && (s[f + 1] == '+' || s[f + 1] == '-') then f + 2 else f + 1;
      var d := DigitsEnd(s, g);
      if d > g then d else f
    else f
  }

  /** A literal word after the colon and white space of a value pattern. */
  function LiteralAfter(s: string, k: nat, word: string): (r: Option<nat>)
    requires k <= |s|
    ensures r.Some? ==> r.value == k + |word| <= |s| && s[k..r.value] == word
  {
    if HasPrefix(s[k..], word) then Some(k + |word|) else None
  }

  /** Where the match of `p` that starts exactly at i ends, if there is one. */
  function MatchAt(p: Pattern, s: string, i: nat): (r: Option<nat>)
    requires i < |s|
    ensures r.Some? ==> i < r.value <= |s|
  {
    match p
    case JsonKey =>
      if s[i] != '"' then None
      else (match QuotedEnd(s, i + 1)
            case Some(e) => if e < |s| && s[e] == ':' then Some(e + 1) else None
            case None => None)
    case JsonString =>
      if s[i] != ':' then None
      else
        var k := SpacesEnd(s, i + 1);
        if k < |s| && s[k] == '"' then QuotedEnd(s, k + 1) else None
    case JsonNumber =>
      if s[i] != ':' then None
      else
        var k := SpacesEnd(s, i + 1);
        var d0 := if k < |s| && s[k] == '-' then k + 1 else k;
        var d := DigitsEnd(s, d0);
        if d == d0 then None
        else
          var f := if d < |s| && s[d] == '.' then DigitsEnd(s, d + 1) else d;
          Some(ExponentEnd(s, f))
    case JsonBool =>
      if s[i] != ':' then None
      else
        var k := SpacesEnd(s, i + 1);
        if LiteralAfter(s, k, "true").Some? then LiteralAfter(s, k, "true") else LiteralAfter(s, k, "false")
    case JsonNull =>
      if s[i] != ':' then None
      else LiteralAfter(s, SpacesEnd(s, i + 1), "null")
    case Tag =>
      if s[i] != '<' then None
      else
        var e := i + 1 + IndexOf(s[i + 1..], '>');
        if e == i + 1 || e == |s| then None else Some(e + 1)
    case Attribute =>
      if !IsWordChar(s[i]) then None
      else
        var w := WordEnd(s, i);
        if w + 1 < |s| && s[w] == '=' && (s[w + 1] == '"' || s[w + 1] == '\'') then
          var c := w + 2 + IndexOf(s[w + 2..], s[w + 1]);
          if c < |s| then Some(c + 1) else None
        else None
  }

  /**
    regexp.ReplaceAllStringFunc from position i: scan for the leftmost match,
    replace it by the callback's result, continue after it.
  */
  function ReplaceFrom(p: Pattern, s: string, i: nat, f: string -> string): string
    requires i <= |s|
    decreases |s| - i
  {
    if i == |s| then ""
    else match MatchAt(p, s, i)
      case Some(j) => f(s[i..j]) + ReplaceFrom(p, s, j, f)
      case None => [s[i]] + ReplaceFrom(p, s, i + 1, f)
  }

  function ReplaceAll(p: Pattern, s: string, f: string -> string): string {
    ReplaceFrom(p, s, 0, f)
  }

  /** The callback gives back the text of the match of `p` at k unchanged (or there is none). */
  predicate KeepsMatchAt(p: Pattern, s: string, k: nat, f: string -> string)
    requires k < |s|
  {
    MatchAt(p, s, k).Some? ==> f(s[k..MatchAt(p, s, k).value]) == s[k..MatchAt(p, s, k).value]
  }

  lemma {:induction false} ReplaceFromUnchanged(p: Pattern, s: string, i: nat, f: string -> string)
    requires i <= |s|
    requires forall k :: i <= k < |s| ==> KeepsMatchAt(p, s, k, f)
    ensures ReplaceFrom(p, s, i, f) == s[i..]
    decreases |s| - i
  {
    if i < |s| {
      assert KeepsMatchAt(p, s, i, f);
      match MatchAt(p, s, i)
      case Some(j) =>
        ReplaceFromUnchanged(p, s, j, f);
        assert s[i..] == s[i..j] + s[j..];
      case None =>
        ReplaceFromUnchanged(p, s, i + 1, f);
        assert s[i..] == [s[i]] + s[i + 1..];
    }
  }

  /**
    Replacement changes only the matched spans: when the callback leaves
    every match as it is (in particular when nothing matches), the text comes
    back unchanged.
  */
  lemma ReplaceAllUnchanged(p: Pattern, s: string, f: string -> string)
    requires forall k :: 0 <= k < |s| ==> KeepsMatchAt(p, s, k, f)
    ensures ReplaceAll(p, s, f) == s
  {
    ReplaceFromUnchanged(p, s, 0, f);
  }

  /** A tag span: `<`, one or more characters none of which is `>`, then `>`. */
  predicate IsTagSpan(t: string) {
    |t| >= 3 && t[0] == '<' && t[|t| - 1] == '>' && '>' !in t[1..|t| - 1]
  }

  /** The tag pattern matches at i exactly the tag span that starts there. */
  lemma TagMatch(s: string, i: nat, j: nat)
    requires i < |s|
    ensures MatchAt(Tag, s, i) == Some(j) <==> i < j <= |s| && IsTagSpan(s[i..j])
  {
    var t := s[i + 1..];
    if i < j <= |s| && IsTagSpan(s[i..j]) {
      var u := s[i..j];
      assert t[j - i - 2] == u[|u| - 1] == '>';
      forall m | 0 <= m < j - i - 2 ensures t[m] != '>' {
        assert u[1..|u| - 1][m] == u[m + 1] == t[m];
      }
      assert IndexOf(t, '>') == j - i - 2;
    }
    if s[i] == '<' {
      var e := IndexOf(t, '>');
      if e != 0 && i + 1 + e != |s| {
        var u := s[i..i + e + 2];
        assert |u[1..|u| - 1]| == e;
        forall m | 0 <= m < e ensures u[1..|u| - 1][m] == t[..e][m] {
          assert u[1..|u| - 1][m] == u[m + 1];
          assert u[m + 1] == s[i + m + 1];
        }
        assert u[1..|u| - 1] == t[..e];
        assert IsTagSpan(u);
      }
    }
  }

  /** A null span: a colon, white space, then `null`. */
  predicate IsNullSpan(t: string) {
    |t| >= 5 && t[0] == ':' && t[|t| - 4..] == "null"
    && forall k :: 1 <= k < |t| - 4 ==> IsRegexSpace(t[k])
  }

  /** The null pattern matches at i exactly the null span that starts there. */
  lemma NullMatch(s: string, i: nat, j: nat)
    requires i < |s|
    ensures MatchAt(JsonNull, s, i) == Some(j) <==> i < j <= |s| && IsNullSpan(s[i..j])
  {
    if i < j <= |s| && IsNullSpan(s[i..j]) {
      forall k | i + 1 <= k < j - 4 ensures IsRegexSpace(s[k]) {
        assert s[k] == s[i..j][k - i];
      }
      assert s[j - 4] == s[i..j][j - 4 - i] == 'n';
      assert SpacesEnd(s, i + 1) == j - 4;
      assert s[j - 4..][..4] == s[i..j][j - i - 4..];
    }
  }

  /** No character between a and b is a double quote. */
  predicate QuoteFree(s: string, a: nat, b: nat)
    requires a <= b <= |s|
  {
    forall k :: a <= k < b ==> s[k] != '"'
  }

  /** Every match of a value pattern starts with its colon. */
  lemma ValueMatchColon(p: Pattern, s: string, i: nat)
    requires i < |s| && MatchAt(p, s, i).Some?
    requires p == JsonString || p == JsonNumber || p == JsonBool || p == JsonNull
    ensures s[i] == ':'
  {
  }

  /** A number match holds no double quote. */
  lemma NumberMatchQuoteFree(s: string, i: nat)
    requires i < |s| && MatchAt(JsonNumber, s, i).Some?
    ensures QuoteFree(s, i, MatchAt(JsonNumber, s, i).value)
  {
    var k := SpacesEnd(s, i + 1);
    var d0 := if k < |s| && s[k] == '-' then k + 1 else k;
    var d := DigitsEnd(s, d0);
    var f := if d < |s| && s[d] == '.' then DigitsEnd(s, d + 1) else d;
    assert QuoteFree(s, i, f);
  }

  /** A boolean or null match holds no double quote. */
  lemma LiteralMatchQuoteFree(p: Pattern, s: string, i: nat)
    requires i < |s| && MatchAt(p, s, i).Some?
    requires p == JsonBool || p == JsonNull
    ensures QuoteFree(s, i, MatchAt(p, s, i).value)
  {
    var j := MatchAt(p, s, i).value;
    var k := SpacesEnd(s, i + 1);
    var word := if p == JsonNull then "null" else if LiteralAfter(s, k, "true").Some? then "true" else "false";
    assert s[k..j] == word;
    forall m | k <= m < j ensures s[m] != '"' {
      assert s[m] == word[m - k];
    }
  }

  /** A string match ends with the closing quote of its value. */
  lemma StringMatchEndsQuoted(s: string, i: nat)
    requires i < |s| && MatchAt(JsonString, s, i).Some?
    ensures s[MatchAt(JsonString, s, i).value - 1] == '"'
  {
  }

  /** Every match of the key pattern starts with a quote and ends with a quote and a colon. */
  lemma KeyMatchShape(s: string, i: nat)
    requires i < |s| && MatchAt(JsonKey, s, i).Some?
    ensures var j := MatchAt(JsonKey, s, i).value;
      j >= i + 3 && s[i] == '"' && s[j - 2] == '"' && s[j - 1] == ':'
  {
  }
}
