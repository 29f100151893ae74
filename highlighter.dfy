/**
  encoding/json, which the workbench uses in three ways: to ask whether a
  text is well-formed JSON (an unmarshal into a raw message, which checks
  syntax only), to ask whether it decodes into Go values (an unmarshal into
  an empty interface, which also fails on a number beyond float64's range),
  and to re-serialise a decoded text with two-space indentation. All three
  are left abstract.
*/
module Json {
  datatype Codec = Codec(wellFormed: string -> bool, parses: string -> bool, indent: string -> string)

  /**
    What encoding/json guarantees of the three: a text that decodes is
    well-formed, an indented text decodes again, and indenting it again gives
    the same text.
  */
  ghost predicate Lawful(c: Codec) {
    forall s :: c.parses(s) ==> c.wellFormed(s) && c.parses(c.indent(s)) && c.indent(c.indent(s)) == c.indent(s)
  }

  /** Parse then re-serialise with two-space indentation, falling back to the text itself when it does not parse. */
  function Reformat(c: Codec, s: string): (r: string)
    ensures c.parses(s) ==> r == c.indent(s)
    ensures !c.parses(s) ==> r == s
  {
    if c.parses(s) then c.indent(s) else s
  }

  /** Formatting an already formatted body changes nothing. */
  lemma ReformatIdempotent(c: Codec, s: string)
    requires Lawful(c)
    ensures Reformat(c, Reformat(c, s)) == Reformat(c, s)
  {
  }
}

/**
  The response highlighter: content-type detection, dispatch by content type,
  and the regular-expression passes that colour JSON, HTML and XML text.
*/
module Highlighter {
  import opened Text
  import opened Styles
  import opened Patterns
  import opened Json

  // The styles NewHighlighter gives the highlighter.
  const JsonKeyStyle := Style(Blue, true)
  const JsonStringStyle := Style(Green, false)
  const JsonNumberStyle := Style(Purple, false)
  const JsonBoolStyle := Style(Orange, false)
  const JsonNullStyle := Style(DarkGray, false)
  const HtmlTagStyle := Style(HotPink, false)
  const HtmlAttrStyle := Style(Blue, false)
  const XmlTagStyle := Style(Purple, false)

  /** The JSON passes, in the order they run, each with the style of what it colours. */
  const JsonPasses: seq<(Pattern, Style)> := [
    (JsonKey, JsonKeyStyle),
    (JsonString, JsonStringStyle),
    (JsonNumber, JsonNumberStyle),
    (JsonBool, JsonBoolStyle),
    (JsonNull, JsonNullStyle)
  ]

  predicate BracketDelimited(t: string) {
    (HasPrefix(t, "{") && HasSuffix(t, "}")) || (HasPrefix(t, "[") && HasSuffix(t, "]"))
  }

  predicate AngleDelimited(t: string) {
    HasPrefix(t, "<") && HasSuffix(t, ">")
  }

  /** The text is classified as JSON: brackets at both ends once trimmed, and well-formed. */
  predicate LooksLikeJson(json: Codec, content: string) {
    BracketDelimited(TrimSpace(content)) && json.wellFormed(content)
  }

  /**
    The content type guessed from the text alone: JSON when it is bracketed
    and well-formed, HTML or XML when it is between angle brackets (HTML when it
    mentions "<html" in any letter case), plain text otherwise.
  */
  function DetectContentType(json: Codec, content: string): (ct: string)
    ensures ct == "application/json" <==> LooksLikeJson(json, content)
    ensures ct == "text/html" <==>
      !LooksLikeJson(json, content) && AngleDelimited(TrimSpace(content)) && Contains(ToLower(content), "<html")
    ensures ct == "application/xml" <==>
      !LooksLikeJson(json, content) && AngleDelimited(TrimSpace(content)) && !Contains(ToLower(content), "<html")
    ensures ct == "text/plain" <==> !LooksLikeJson(json, content) && !AngleDelimited(TrimSpace(content))
  {
    var trimmed := TrimSpace(content);
    if BracketDelimited(trimmed) && json.wellFormed(content) then "application/json"
    else if AngleDelimited(trimmed) then
      (if Contains(ToLower(content), "<html") then "text/html" else "application/xml")
    else "text/plain"
  }

  /**
    The callback of every JSON pass, given the pass's style and the matched
    text: a match with a colon is split at its first colon; the left part is
    coloured as a key when the match holds a quote and the right part none,
    otherwise the right part gets the pass's style. A match without a colon
    is coloured whole.
  */
  function Replacement(render: Renderer, style: Style, m: string): string {
    if ':' in m then
      var (left, right) := SplitFirst(m, ':');
      if '"' in m && '"' !in right then render(JsonKeyStyle, left) + ":" + right
      else left + ":" + render(style, right)
    else render(style, m)
  }

  /** The callback of a JSON pass with the given style. */
  function JsonCallback(render: Renderer, style: Style): string -> string {
    m => Replacement(render, style, m)
  }

  /** The callback of a markup pass: the whole match in the given style. */
  function Colour(render: Renderer, style: Style): string -> string {
    m => render(style, m)
  }

  /** One JSON pass: every match of its pattern replaced through the callback. */
  function JsonPass(render: Renderer, pass: (Pattern, Style), s: string): string {
    ReplaceAll(pass.0, s, JsonCallback(render, pass.1))
  }

  /** The passes run one after the other, each over the text the previous one produced. */
  function ApplyPasses(render: Renderer, passes: seq<(Pattern, Style)>, s: string): string
    decreases |passes|
  {
    if passes == [] then s
    else JsonPass(render, passes[|passes| - 1], ApplyPasses(render, passes[..|passes| - 1], s))
  }

  /** The JSON highlighting of a text: pretty-print when it parses, then the five passes in order. */
  function JsonHighlighted(json: Codec, render: Renderer, content: string): string {
    ApplyPasses(render, JsonPasses, Reformat(json, content))
  }

  /** highlightJSON: pretty-print when the text parses, then run the pattern list in order. */
  method HighlightJson(json: Codec, render: Renderer, content: string) returns (result: string)
    ensures result == JsonHighlighted(json, render, content)
    ensures !json.parses(content) ==> result == ApplyPasses(render, JsonPasses, content)
  {
    var text := content;
    if json.parses(content) {
      text := json.indent(content);
    }
    result := text;
    for i := 0 to |JsonPasses|
      invariant result == ApplyPasses(render, JsonPasses[..i], text)
    {
      assert JsonPasses[..i + 1][..i] == JsonPasses[..i];
      result := JsonPass(render, JsonPasses[i], result);
    }
    assert JsonPasses[..|JsonPasses|] == JsonPasses;
  }

  /** highlightHTML: colour every tag span, then every attribute pair in the result. */
  function HtmlHighlighted(render: Renderer, content: string): string {
    var tagged := ReplaceAll(Tag, content, Colour(render, HtmlTagStyle));
    ReplaceAll(Attribute, tagged, Colour(render, HtmlAttrStyle))
  }

  /** highlightXML: colour every tag span. */
  function XmlHighlighted(render: Renderer, content: string): string {
    ReplaceAll(Tag, content, Colour(render, XmlTagStyle))
  }

  /** The content type the highlighter goes by: the one given, or the detected one when none is given. */
  function EffectiveType(json: Codec, content: string, contentType: string): (ct: string)
    ensures contentType != "" ==> ct == contentType
    ensures contentType == "" ==> ct == DetectContentType(json, content)
  {
    if contentType == "" then DetectContentType(json, content) else contentType
  }

  /** Highlight: empty text as it is; otherwise dispatch on "json", then "html", then "xml" in the content type. */
  function Highlight(json: Codec, render: Renderer, content: string, contentType: string): (r: string)
    ensures content == "" ==> r == ""
  {
    if content == "" then content
    else
      var ct := EffectiveType(json, content, contentType);
      if Contains(ct, "json") then JsonHighlighted(json, render, content)
      else if Contains(ct, "html") then HtmlHighlighted(render, content)
      else if Contains(ct, "xml") then XmlHighlighted(render, content)
      else content
  }

  // ---------------------------------------------------------------------
  // Properties of the passes

  /** With a colourless terminal the callback gives back the match itself. */
  lemma PlainReplacementIsIdentity(style: Style, m: string)
    ensures Replacement(PlainRenderer, style, m) == m
  {
    if ':' in m {
      var (left, right) := SplitFirst(m, ':');
      assert left + ":" + right == m;
    }
  }

  lemma {:induction false} PlainPassesKeepText(passes: seq<(Pattern, Style)>, s: string)
    ensures ApplyPasses(PlainRenderer, passes, s) == s
    decreases |passes|
  {
    if passes != [] {
      PlainPassesKeepText(passes[..|passes| - 1], s);
      var pass := passes[|passes| - 1];
      var f := JsonCallback(PlainRenderer, pass.1);
      forall k | 0 <= k < |s| ensures KeepsMatchAt(pass.0, s, k, f) {
        if MatchAt(pass.0, s, k).Some? {
          PlainReplacementIsIdentity(pass.1, s[k..MatchAt(pass.0, s, k).value]);
        }
      }
      ReplaceAllUnchanged(pass.0, s, f);
    }
  }

  /** Highlighting only adds styling: with a colourless terminal JSON comes back pretty-printed and nothing else. */
  lemma PlainJsonHighlightIsReformat(json: Codec, content: string)
    ensures JsonHighlighted(json, PlainRenderer, content) == Reformat(json, content)
  {
    PlainPassesKeepText(JsonPasses, Reformat(json, content));
  }

  /** Text that does not parse keeps its layout: the passes run over the text exactly as received. */
  lemma InvalidJsonKeepsLayout(json: Codec, render: Renderer, content: string)
    requires !json.parses(content)
    ensures JsonHighlighted(json, render, content) == ApplyPasses(render, JsonPasses, content)
    ensures JsonHighlighted(json, PlainRenderer, content) == content
  {
    PlainJsonHighlightIsReformat(json, content);
  }

  lemma PlainColourKeepsText(p: Pattern, s: string, style: Style)
    ensures ReplaceAll(p, s, Colour(PlainRenderer, style)) == s
  {
    forall k | 0 <= k < |s| ensures KeepsMatchAt(p, s, k, Colour(PlainRenderer, style)) {
      if MatchAt(p, s, k).Some? {
        var t := s[k..MatchAt(p, s, k).value];
        assert Colour(PlainRenderer, style)(t) == PlainRenderer(style, t);
      }
    }
    ReplaceAllUnchanged(p, s, Colour(PlainRenderer, style));
  }

  /** With a colourless terminal, HTML and XML highlighting give back the text unchanged. */
  lemma PlainMarkupHighlightKeepsText(content: string)
    ensures HtmlHighlighted(PlainRenderer, content) == content
    ensures XmlHighlighted(PlainRenderer, content) == content
  {
    PlainColourKeepsText(Tag, content, HtmlTagStyle);
    PlainColourKeepsText(Attribute, content, HtmlAttrStyle);
    PlainColourKeepsText(Tag, content, XmlTagStyle);
  }

  /**
    Each value pass (string, number, boolean, null) keeps the colon of its
    match verbatim and colours exactly the text after it with its own style.
  */
  lemma ValuePassColoursAfterColon(render: Renderer, p: Pattern, style: Style, s: string, i: nat)
    requires p == JsonString || p == JsonNumber || p == JsonBool || p == JsonNull
    requires i < |s| && MatchAt(p, s, i).Some?
    ensures var j := MatchAt(p, s, i).value;
      Replacement(render, style, s[i..j]) == ":" + render(style, s[i + 1..j])
  {
    var j := MatchAt(p, s, i).value;
    var m := s[i..j];
    ValueMatchColon(p, s, i);
    assert m[1..] == s[i + 1..j];
    if p == JsonString {
      StringMatchEndsQuoted(s, i);
      assert m[|m| - 1] == '"';
    } else {
      if p == JsonNumber {
        NumberMatchQuoteFree(s, i);
      } else {
        LiteralMatchQuoteFree(p, s, i);
      }
      forall k | 0 <= k < |m| ensures m[k] != '"' {
        assert m[k] == s[i + k];
      }
    }
    ColonLedReplacement(render, style, m);
  }

  /**
    A match that starts with its colon and either holds no quote or ends in
    one keeps the colon and colours what follows it.
  */
  lemma ColonLedReplacement(render: Renderer, style: Style, m: string)
    requires |m| >= 1 && m[0] == ':'
    requires '"' !in m || m[|m| - 1] == '"'
    ensures Replacement(render, style, m) == ":" + render(style, m[1..])
  {
    assert IndexOf(m, ':') == 0;
    var (left, right) := SplitFirst(m, ':');
    assert left == [] && right == m[1..];
    if '"' in m {
      assert right[|right| - 1] == '"';
    }
  }

  /**
    The key pass colours a key, quotes included, in the key style and keeps
    the colon after it verbatim, provided the key itself holds no colon.
  */
  lemma KeyPassColoursKey(render: Renderer, s: string, i: nat)
    requires i < |s| && MatchAt(JsonKey, s, i).Some?
    requires ':' !in s[i..MatchAt(JsonKey, s, i).value - 1]
    ensures var j := MatchAt(JsonKey, s, i).value;
      Replacement(render, JsonKeyStyle, s[i..j]) == render(JsonKeyStyle, s[i..j - 1]) + ":"
  {
    var j := MatchAt(JsonKey, s, i).value;
    KeyMatchShape(s, i);
    var m := s[i..j];
    assert m[..|m| - 1] == s[i..j - 1];
    assert m[|m| - 1] == ':';
    assert IndexOf(m, ':') == |m| - 1;
    assert m[0] == '"';
  }

  /**
    A key that holds a colon is split at that inner colon: the key pass then
    colours only what follows it, closing quote and colon included.
  */
  lemma KeyWithColonSplitsInside(render: Renderer)
    ensures Replacement(render, JsonKeyStyle, "\"a:b\":") == "\"a" + ":" + render(JsonKeyStyle, "b\":")
  {
    var m := "\"a:b\":";
    assert IndexOf(m, ':') == 2;
    assert m[..2] == "\"a" && m[3..] == "b\":";
  }

  // ---------------------------------------------------------------------
  // Properties of detection and dispatch

  /** Lower-casing cannot produce an h from text that has neither h nor H. */
  lemma LowerLacksH(s: string)
    requires 'h' !in s && 'H' !in s
    ensures 'h' !in ToLower(s)
  {
    forall i | 0 <= i < |s|
      ensures ToLower(s)[i] != 'h'
    {
      assert s[i] != 'h' && s[i] != 'H';
    }
  }

  /** Markup in which no letter h occurs, in either case, is XML. */
  lemma MarkupWithoutHIsXml(json: Codec, content: string)
    requires !LooksLikeJson(json, content) && AngleDelimited(TrimSpace(content))
    requires 'h' !in content && 'H' !in content
    ensures DetectContentType(json, content) == "application/xml"
  {
    LowerLacksH(content);
    LacksChar(ToLower(content), "<html", 'h');
  }

  /** Bracketed text that is not well-formed JSON is neither JSON nor markup: it is plain text. */
  lemma InvalidBracketedIsPlain(json: Codec, content: string)
    requires BracketDelimited(TrimSpace(content)) && !json.wellFormed(content)
    ensures DetectContentType(json, content) == "text/plain"
  {
  }

  /** Bracketed text that decodes is detected as JSON, for any lawful codec. */
  lemma DecodableBracketedIsJson(json: Codec, content: string)
    requires Lawful(json)
    requires BracketDelimited(TrimSpace(content)) && json.parses(content)
    ensures DetectContentType(json, content) == "application/json"
  {
  }

  /**
    Bracketed text that is well-formed but does not decode (a number beyond
    float64's range, say) is detected as JSON, yet it is not re-indented: the
    passes colour it exactly as received.
  */
  lemma WellFormedUndecodableColouredAsReceived(json: Codec, render: Renderer, content: string)
    requires BracketDelimited(TrimSpace(content)) && json.wellFormed(content) && !json.parses(content)
    ensures DetectContentType(json, content) == "application/json"
    ensures Highlight(json, render, content, "") == ApplyPasses(render, JsonPasses, content)
  {
    ContainsAt("application/json", "json", 12);
    InvalidJsonKeepsLayout(json, render, content);
  }

  /** A content type without one of the letters of a word does not contain the word. */
  lemma LacksChar(ct: string, word: string, c: char)
    requires c in word && c !in ct
    ensures !Contains(ct, word)
  {
    if Contains(ct, word) {
      ContainsChar(ct, word, c);
    }
  }

  lemma NotKnownType(ct: string)
    requires 'j' !in ct && 'h' !in ct && 'm' !in ct
    ensures !Contains(ct, "json") && !Contains(ct, "html") && !Contains(ct, "xml")
  {
    LacksChar(ct, "json", 'j');
    LacksChar(ct, "html", 'h');
    LacksChar(ct, "xml", 'm');
  }

  /** A content type naming none of JSON, HTML and XML leaves the text as it is. */
  lemma OtherTypeKeepsText(json: Codec, render: Renderer, content: string, contentType: string)
    requires var ct := EffectiveType(json, content, contentType);
      !Contains(ct, "json") && !Contains(ct, "html") && !Contains(ct, "xml")
    ensures Highlight(json, render, content, contentType) == content
  {
  }

  /** Text without a content type and classified as plain text is returned unchanged. */
  lemma PlainTextUnchanged(json: Codec, render: Renderer, content: string)
    requires DetectContentType(json, content) == "text/plain"
    ensures Highlight(json, render, content, "") == content
  {
    NotKnownType("text/plain");
    OtherTypeKeepsText(json, render, content, "");
  }

  /** A content type that is given is used as it is, whatever the text looks like. */
  lemma GivenJsonTypeWins(json: Codec, render: Renderer, content: string)
    requires content != ""
    ensures Highlight(json, render, content, "application/json") == JsonHighlighted(json, render, content)
  {
    ContainsAt("application/json", "json", 12);
  }

  lemma GivenHtmlTypeWins(json: Codec, render: Renderer, content: string)
    requires content != ""
    ensures Highlight(json, render, content, "text/html") == HtmlHighlighted(render, content)
  {
    LacksChar("text/html", "json", 'j');
    ContainsAt("text/html", "html", 5);
  }

  lemma GivenXmlTypeWins(json: Codec, render: Renderer, content: string)
    requires content != ""
    ensures Highlight(json, render, content, "text/xml") == XmlHighlighted(render, content)
  {
    var ct := "text/xml";
    assert !Contains(ct, "json") by {
      assert 'j' !in ct;
      LacksChar(ct, "json", 'j');
    }
    assert !Contains(ct, "html") by {
      assert 'h' !in ct;
      LacksChar(ct, "html", 'h');
    }
    assert Contains(ct, "xml") by {
      assert ct[5..8] == "xml";
      ContainsAt(ct, "xml", 5);
    }
  }

  /**
    The dispatch for any text and content type: "json" anywhere in the
    content type wins, then "html", then "xml"; any other type keeps the text.
  */
  lemma HighlightDispatch(json: Codec, render: Renderer, content: string, contentType: string)
    requires content != ""
    ensures var ct, r := EffectiveType(json, content, contentType), Highlight(json, render, content, contentType);
      && (Contains(ct, "json") ==> r == JsonHighlighted(json, render, content))
      && (!Contains(ct, "json") && Contains(ct, "html") ==> r == HtmlHighlighted(render, content))
      && (!Contains(ct, "json") && !Contains(ct, "html") && Contains(ct, "xml") ==> r == XmlHighlighted(render, content))
      && (!Contains(ct, "json") && !Contains(ct, "html") && !Contains(ct, "xml") ==> r == content)
  {
  }

  /** A content type naming both HTML and XML, such as XHTML's, is highlighted as HTML. */
  lemma XhtmlIsHtml(json: Codec, render: Renderer, content: string)
    requires content != ""
    ensures Highlight(json, render, content, "application/xhtml+xml") == HtmlHighlighted(render, content)
  {
    XhtmlNamesHtml();
    HighlightDispatch(json, render, content, "application/xhtml+xml");
  }

  lemma XhtmlNamesHtml()
    ensures !Contains("application/xhtml+xml", "json") && Contains("application/xhtml+xml", "html")
  {
    var ct := "application/xhtml+xml";
    assert ct[13..17] == "html";
    ContainsAt(ct, "html", 13);
    XhtmlLacksJ();
    LacksChar(ct, "json", 'j');
  }

  lemma XhtmlLacksJ()
    ensures 'j' !in "application/xhtml+xml"
  {
  }

  lemma GivenPlainTypeKeepsText(json: Codec, render: Renderer, content: string)
    ensures Highlight(json, render, content, "text/plain") == content
  {
    NotKnownType("text/plain");
  }

  /**
    Highlighting never changes the words: with a colourless terminal every
    content type gives back the text, pretty-printed when it is dispatched
    as JSON.
  */
  lemma PlainHighlightKeepsText(json: Codec, content: string, contentType: string)
    ensures var ct := EffectiveType(json, content, contentType);
      Highlight(json, PlainRenderer, content, contentType)
      == if content != "" && Contains(ct, "json") then Reformat(json, content) else content
  {
    PlainJsonHighlightIsReformat(json, content);
    PlainMarkupHighlightKeepsText(content);
  }

  /** Markup without a tag span keeps its text under the XML highlighter. */
  lemma XmlWithoutTagsUnchanged(render: Renderer, content: string)
    requires forall i, j :: 0 <= i < j <= |content| ==> !IsTagSpan(content[i..j])
    ensures XmlHighlighted(render, content) == content
  {
    var f := Colour(render, XmlTagStyle);
    forall k | 0 <= k < |content| ensures KeepsMatchAt(Tag, content, k, f) {
      if MatchAt(Tag, content, k).Some? {
        TagMatch(content, k, MatchAt(Tag, content, k).value);
      }
    }
    ReplaceAllUnchanged(Tag, content, f);
  }
}
