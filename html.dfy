/** `html.escape(s)` of the Python standard library, with its default
    quote=True, and the decoding that shows it loses nothing. */
module Html {
  import opened Strings

  /** What `html.escape` does to one character; its five replacements are
      applied in an order that never rewrites a produced entity, so they act
      character by character. */
  function EscapeChar(c: char): string {
    if c == '&' then "&amp;"
    else if c == '<' then "&lt;"
    else if c == '>' then "&gt;"
    else if c == '"' then "&quot;"
    else if c == '\'' then "&#x27;"
    else [c]
  }

  /** `html.escape`: the escapes of the characters, in order. */
  function HtmlEscape(s: string): string
    decreases |s|
  {
    if s == [] then "" else EscapeChar(s[0]) + HtmlEscape(s[1..])
  }

  /** The characters that can open markup or end an attribute value. */
  predicate IsMarkupChar(c: char) {
    c == '<' || c == '>' || c == '"' || c == '\''
  }

  /** Reads the five entities back; used to show that escaping loses nothing. */
  function Unescape(s: string): string
    decreases |s|
  {
    if s == [] then ""
    else if StartsWith(s, "&amp;") then "&" + Unescape(s[5..])
    else if StartsWith(s, "&lt;") then "<" + Unescape(s[4..])
    else if StartsWith(s, "&gt;") then ">" + Unescape(s[4..])
    else if StartsWith(s, "&quot;") then "\"" + Unescape(s[6..])
    else if StartsWith(s, "&#x27;") then "'" + Unescape(s[6..])
    else [s[0]] + Unescape(s[1..])
  }

  lemma {:induction false} HtmlEscapeConcat(a: string, b: string)
    ensures HtmlEscape(a + b) == HtmlEscape(a) + HtmlEscape(b)
    decreases |a|
  {
    if a != [] {
      assert (a + b)[1..] == a[1..] + b;
      HtmlEscapeConcat(a[1..], b);
    } else {
      assert a + b == b;
    }
  }

  /** Each character becomes one to six characters (the six of "&quot;"
      and "&#x27;"), so escaping never shortens text. */
  lemma {:induction false} HtmlEscapeLength(s: string)
    ensures |s| <= |HtmlEscape(s)| <= 6 * |s|
    decreases |s|
  {
    if s != [] {
      HtmlEscapeLength(s[1..]);
    }
  }

  /** Escaped text contains no character that could start a tag or close a
      quoted attribute. */
  lemma {:induction false} HtmlEscapeHasNoMarkup(s: string)
    ensures forall i :: 0 <= i < |HtmlEscape(s)| ==> !IsMarkupChar(HtmlEscape(s)[i])
    decreases |s|
  {
    if s != [] {
      HtmlEscapeHasNoMarkup(s[1..]);
      var e := EscapeChar(s[0]);
      var r := HtmlEscape(s[1..]);
      forall i | 0 <= i < |e + r|
        ensures !IsMarkupChar((e + r)[i])
      {
        if i < |e| { assert (e + r)[i] == e[i]; } else { assert (e + r)[i] == r[i - |e|]; }
      }
    }
  }

  /** Text without any of the five special characters is left as it is. */
  lemma {:induction false} HtmlEscapePlainText(s: string)
    requires forall i :: 0 <= i < |s| ==> !IsMarkupChar(s[i]) && s[i] != '&'
    ensures HtmlEscape(s) == s
    decreases |s|
  {
    if s != [] {
      HtmlEscapePlainText(s[1..]);
      assert [s[0]] + s[1..] == s;
    }
  }

  /** A string that differs from `p` at position `k` does not start with `p`. */
  lemma DiffersAt(s: string, p: string, k: nat)
    requires k < |p| && (k < |s| ==> s[k] != p[k])
    ensures !StartsWith(s, p)
  {
  }

  lemma UnescapeAmp(rest: string)
    ensures Unescape("&amp;" + rest) == "&" + Unescape(rest)
  {
    var t := "&amp;" + rest;
    assert t[..5] == "&amp;" && t[5..] == rest;
  }

  lemma UnescapeLt(rest: string)
    ensures Unescape("&lt;" + rest) == "<" + Unescape(rest)
  {
    var t := "&lt;" + rest;
    DiffersAt(t, "&amp;", 1);
    assert t[..4] == "&lt;" && t[4..] == rest;
  }

  lemma UnescapeGt(rest: string)
    ensures Unescape("&gt;" + rest) == ">" + Unescape(rest)
  {
    var t := "&gt;" + rest;
    DiffersAt(t, "&amp;", 1);
    DiffersAt(t, "&lt;", 1);
    assert t[..4] == "&gt;" && t[4..] == rest;
  }

  lemma UnescapeQuot(rest: string)
    ensures Unescape("&quot;" + rest) == "\"" + Unescape(rest)
  {
    var t := "&quot;" + rest;
    DiffersAt(t, "&amp;", 1);
    DiffersAt(t, "&lt;", 1);
    DiffersAt(t, "&gt;", 1);
    assert t[..6] == "&quot;" && t[6..] == rest;
  }

  lemma UnescapeApos(rest: string)
    ensures Unescape("&#x27;" + rest) == "'" + Unescape(rest)
  {
    var t := "&#x27;" + rest;
    DiffersAt(t, "&amp;", 1);
    DiffersAt(t, "&lt;", 1);
    DiffersAt(t, "&gt;", 1);
    DiffersAt(t, "&quot;", 1);
    assert t[..6] == "&#x27;" && t[6..] == rest;
  }

  lemma UnescapeOther(c: char, rest: string)
    requires c != '&'
    ensures Unescape([c] + rest) == [c] + Unescape(rest)
  {
    var t := [c] + rest;
    DiffersAt(t, "&amp;", 0);
    DiffersAt(t, "&lt;", 0);
    DiffersAt(t, "&gt;", 0);
    DiffersAt(t, "&quot;", 0);
    DiffersAt(t, "&#x27;", 0);
    assert t[1..] == rest;
  }

  lemma EscapeCharUnescape(c: char, rest: string)
    ensures Unescape(EscapeChar(c) + rest) == [c] + Unescape(rest)
  {
    if c == '&' { UnescapeAmp(rest); }
    else if c == '<' { UnescapeLt(rest); }
    else if c == '>' { UnescapeGt(rest); }
    else if c == '"' { UnescapeQuot(rest); }
    else if c == '\'' { UnescapeApos(rest); }
    else { UnescapeOther(c, rest); }
  }

  /** Escaping is injective: the original text can be read back. */
  lemma {:induction false} UnescapeHtmlEscape(s: string)
    ensures Unescape(HtmlEscape(s)) == s
    decreases |s|
  {
    if s != [] {
      EscapeCharUnescape(s[0], HtmlEscape(s[1..]));
      UnescapeHtmlEscape(s[1..]);
      assert [s[0]] + s[1..] == s;
    }
  }
}
