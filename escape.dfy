/** The client's `esc` helper, which HTML-escapes a value before it is placed in markup. */
module HtmlEscape {
  import opened Wrappers

  /** `s.replace(/c/g, rep)` for a one-character pattern `c`: every occurrence of `c` becomes `rep`. */
  function ReplaceAll(s: string, c: char, rep: string): string {
    if |s| == 0 then "" else (if s[0] == c then rep else [s[0]]) + ReplaceAll(s[1..], c, rep)
  }

  /**
   * `esc(s)`: `String(s || '')` followed by the four global replacements, `&` first.
   * An absent value (null/undefined) and the empty string both give "".
   */
  function Esc(s: Option<string>): string {
    var str := if s.Some? then s.value else "";
    ReplaceAll(ReplaceAll(ReplaceAll(ReplaceAll(str, '&', "&amp;"), '"', "&quot;"), '<', "&lt;"), '>', "&gt;")
  }

  /** The character-by-character reference definition of HTML escaping. */
  function EscapeChar(c: char): string {
    if c == '&' then "&amp;"
    else if c == '"' then "&quot;"
    else if c == '<' then "&lt;"
    else if c == '>' then "&gt;"
    else [c]
  }

  function EscapeEach(s: string): string {
    if |s| == 0 then "" else EscapeChar(s[0]) + EscapeEach(s[1..])
  }

  /** Markup characters that must never appear raw in escaped output. */
  predicate NoMarkup(s: string) {
    forall i :: 0 <= i < |s| ==> s[i] != '<' && s[i] != '>' && s[i] != '"'
  }

  predicate IsPlainText(s: string) {
    forall i :: 0 <= i < |s| ==> s[i] != '&' && s[i] != '<' && s[i] != '>' && s[i] != '"'
  }

  /** Decodes the four entities `esc` produces; the browser does this when it reads an attribute back. */
  function Unescape(s: string): string {
    if |s| >= 5 && s[..5] == "&amp;" then "&" + Unescape(s[5..])
    else if |s| >= 6 && s[..6] == "&quot;" then "\"" + Unescape(s[6..])
    else if |s| >= 4 && s[..4] == "&lt;" then "<" + Unescape(s[4..])
    else if |s| >= 4 && s[..4] == "&gt;" then ">" + Unescape(s[4..])
    else if |s| == 0 then ""
    else [s[0]] + Unescape(s[1..])
  }

  lemma {:induction false} ReplaceAllConcat(a: string, b: string, c: char, rep: string)
    ensures ReplaceAll(a + b, c, rep) == ReplaceAll(a, c, rep) + ReplaceAll(b, c, rep)
  {
    if |a| > 0 {
      assert (a + b)[1..] == a[1..] + b;
      ReplaceAllConcat(a[1..], b, c, rep);
    } else {
      assert a + b == b;
    }
  }

  lemma {:induction false} ReplaceAllAbsent(s: string, c: char, rep: string)
    requires forall i :: 0 <= i < |s| ==> s[i] != c
    ensures ReplaceAll(s, c, rep) == s
  {
    if |s| > 0 {
      ReplaceAllAbsent(s[1..], c, rep);
      assert [s[0]] + s[1..] == s;
    }
  }

  function Chain(s: string): string {
    ReplaceAll(ReplaceAll(ReplaceAll(ReplaceAll(s, '&', "&amp;"), '"', "&quot;"), '<', "&lt;"), '>', "&gt;")
  }

  lemma ChainConcat(a: string, b: string)
    ensures Chain(a + b) == Chain(a) + Chain(b)
  {
    var a1, b1 := ReplaceAll(a, '&', "&amp;"), ReplaceAll(b, '&', "&amp;");
    ReplaceAllConcat(a, b, '&', "&amp;");
    var a2, b2 := ReplaceAll(a1, '"', "&quot;"), ReplaceAll(b1, '"', "&quot;");
    ReplaceAllConcat(a1, b1, '"', "&quot;");
    var a3, b3 := ReplaceAll(a2, '<', "&lt;"), ReplaceAll(b2, '<', "&lt;");
    ReplaceAllConcat(a2, b2, '<', "&lt;");
    ReplaceAllConcat(a3, b3, '>', "&gt;");
  }

  lemma ReplaceSingle(x: char, c: char, rep: string)
    ensures ReplaceAll([x], c, rep) == if x == c then rep else [x]
  {
    assert [x][1..] == "";
  }

  // Each entity contains none of the characters replaced after it.
  lemma AmpPasses()
    ensures ReplaceAll("&amp;", '"', "&quot;") == "&amp;"
    ensures ReplaceAll("&amp;", '<', "&lt;") == "&amp;"
    ensures ReplaceAll("&amp;", '>', "&gt;") == "&amp;"
  {
  }

  lemma QuotPasses()
    ensures ReplaceAll("&quot;", '<', "&lt;") == "&quot;"
    ensures ReplaceAll("&quot;", '>', "&gt;") == "&quot;"
  {
  }

  lemma LtPasses()
    ensures ReplaceAll("&lt;", '>', "&gt;") == "&lt;"
  {
  }

  lemma ChainAmp(x: char)
    requires x == '&'
    ensures Chain([x]) == "&amp;"
  {
    ReplaceSingle(x, '&', "&amp;");
    AmpPasses();
  }

  lemma ChainQuot(x: char)
    requires x == '"'
    ensures Chain([x]) == "&quot;"
  {
    ReplaceSingle(x, '&', "&amp;");
    ReplaceSingle(x, '"', "&quot;");
    QuotPasses();
  }

  lemma ChainLt(x: char)
    requires x == '<'
    ensures Chain([x]) == "&lt;"
  {
    ReplaceSingle(x, '&', "&amp;");
    ReplaceSingle(x, '"', "&quot;");
    ReplaceSingle(x, '<', "&lt;");
    LtPasses();
  }

  lemma ChainGt(x: char)
    requires x == '>'
    ensures Chain([x]) == "&gt;"
  {
    ReplaceSingle(x, '&', "&amp;");
    ReplaceSingle(x, '"', "&quot;");
    ReplaceSingle(x, '<', "&lt;");
    ReplaceSingle(x, '>', "&gt;");
  }

  lemma ChainPlain(x: char)
    requires x != '&' && x != '"' && x != '<' && x != '>'
    ensures Chain([x]) == [x]
  {
    ReplaceSingle(x, '&', "&amp;");
    ReplaceSingle(x, '"', "&quot;");
    ReplaceSingle(x, '<', "&lt;");
    ReplaceSingle(x, '>', "&gt;");
  }

  lemma ChainChar(x: char)
    ensures Chain([x]) == EscapeChar(x)
  {
    if x == '&' {
      ChainAmp(x);
    } else if x == '"' {
      ChainQuot(x);
    } else if x == '<' {
      ChainLt(x);
    } else if x == '>' {
      ChainGt(x);
    } else {
      ChainPlain(x);
    }
  }

  /** The four chained replacements escape each character independently (`&` goes first, so no entity is escaped twice). */
  lemma {:induction false} EscIsPerCharacter(s: string)
    ensures Esc(Some(s)) == EscapeEach(s)
  {
    if |s| > 0 {
      assert s == [s[0]] + s[1..];
      ChainConcat([s[0]], s[1..]);
      ChainChar(s[0]);
      EscIsPerCharacter(s[1..]);
    }
  }

  lemma {:induction false} EscapeEachNoMarkup(s: string)
    ensures NoMarkup(EscapeEach(s))
  {
    if |s| > 0 {
      EscapeEachNoMarkup(s[1..]);
    }
  }

  /** Escaped output never contains a raw `<`, `>` or `"`; an absent or empty value escapes to "". */
  lemma EscNoMarkup(s: Option<string>)
    ensures NoMarkup(Esc(s))
    ensures s.None? || s == Some("") ==> Esc(s) == ""
  {
    var str := if s.Some? then s.value else "";
    EscIsPerCharacter(str);
    EscapeEachNoMarkup(str);
  }

  /** A string containing none of `& " < >` is returned unchanged. */
  lemma {:induction false} EscPlainUnchanged(s: string)
    requires IsPlainText(s)
    ensures Esc(Some(s)) == s
  {
    EscIsPerCharacter(s);
    EscapeEachPlain(s);
  }

  lemma {:induction false} EscapeEachPlain(s: string)
    requires IsPlainText(s)
    ensures EscapeEach(s) == s
  {
    if |s| > 0 {
      EscapeEachPlain(s[1..]);
      assert [s[0]] + s[1..] == s;
    }
  }

  /** Decoding the escape of one character followed by any text yields that character first. */
  lemma UnescapeAmp(rest: string)
    ensures Unescape("&amp;" + rest) == "&" + Unescape(rest)
  {
    var e := "&amp;" + rest;
    assert e[..5] == "&amp;" && e[5..] == rest;
  }

  lemma UnescapeQuot(rest: string)
    ensures Unescape("&quot;" + rest) == "\"" + Unescape(rest)
  {
    var e := "&quot;" + rest;
    assert e[..5] != "&amp;" by { assert e[1] == 'q'; }
    assert e[..6] == "&quot;" && e[6..] == rest;
  }

  lemma UnescapeLt(rest: string)
    ensures Unescape("&lt;" + rest) == "<" + Unescape(rest)
  {
    var e := "&lt;" + rest;
    assert (|e| >= 5 ==> e[..5] != "&amp;") && (|e| >= 6 ==> e[..6] != "&quot;") by { assert e[1] == 'l'; }
    assert e[..4] == "&lt;" && e[4..] == rest;
  }

  lemma UnescapeGt(rest: string)
    ensures Unescape("&gt;" + rest) == ">" + Unescape(rest)
  {
    var e := "&gt;" + rest;
    assert (|e| >= 5 ==> e[..5] != "&amp;") && (|e| >= 6 ==> e[..6] != "&quot;") && e[..4] != "&lt;" by {
      assert e[1] == 'g';
    }
    assert e[..4] == "&gt;" && e[4..] == rest;
  }

  lemma UnescapePlain(c: char, rest: string)
    requires c != '&'
    ensures Unescape([c] + rest) == [c] + Unescape(rest)
  {
    var e := [c] + rest;
    assert e[0] == c && e[1..] == rest;
    assert |e| >= 4 ==> e[..4] != "&lt;" && e[..4] != "&gt;" by { assert e[0] != '&'; }
    assert |e| >= 5 ==> e[..5] != "&amp;" by { assert e[0] != '&'; }
    assert |e| >= 6 ==> e[..6] != "&quot;" by { assert e[0] != '&'; }
  }

  lemma UnescapeStep(c: char, rest: string)
    ensures Unescape(EscapeChar(c) + rest) == [c] + Unescape(rest)
  {
    if c == '&' {
      UnescapeAmp(rest);
    } else if c == '"' {
      UnescapeQuot(rest);
    } else if c == '<' {
      UnescapeLt(rest);
    } else if c == '>' {
      UnescapeGt(rest);
    } else {
      UnescapePlain(c, rest);
    }
  }

  lemma {:induction false} UnescapeEscapeEach(s: string)
    ensures Unescape(EscapeEach(s)) == s
  {
    if |s| > 0 {
      UnescapeStep(s[0], EscapeEach(s[1..]));
      UnescapeEscapeEach(s[1..]);
      assert [s[0]] + s[1..] == s;
    }
  }

  /** Escaping loses no information: decoding the entities gives back the original text. */
  lemma EscRoundTrip(s: string)
    ensures Unescape(Esc(Some(s))) == s
  {
    EscIsPerCharacter(s);
    UnescapeEscapeEach(s);
  }

  /** Hence distinct texts always escape to distinct markup. */
  lemma EscInjective(a: string, b: string)
    requires Esc(Some(a)) == Esc(Some(b))
    ensures a == b
  {
    EscRoundTrip(a);
    EscRoundTrip(b);
  }
}
