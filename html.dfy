/** `escapeHtml` (app.js:410-414): every text placed in a table cell is
    passed through it, so the characters that end a tag or an attribute value
    never reach the markup. */
module Html {
  import opened Wrappers
  import opened Text

  /** The five characters the regular expression `/[&<>"']/g` matches. */
  predicate IsSpecial(c: char)
  {
    c == '&' || c == '<' || c == '>' || c == '"' || c == '\''
  }

  /** The replacement the callback looks up for one character. */
  function EscapeChar(c: char): (r: string)
    ensures IsSpecial(c) ==> |r| >= 4 && r[0] == '&'
    ensures !IsSpecial(c) ==> r == [c]
  {
    if c == '&' then "&amp;"
    else if c == '<' then "&lt;"
    else if c == '>' then "&gt;"
    else if c == '"' then "&quot;"
    else if c == '\'' then "&#39;"
    else [c]
  }

  /** The replace: each character by its replacement, left to right. The
      result holds none of `< > " '`. */
  function Escape(s: string): (r: string)
    ensures |r| >= |s|
    ensures forall i :: 0 <= i < |r| ==> r[i] != '<' && r[i] != '>' && r[i] != '"' && r[i] != '\''
  {
    if s == [] then [] else EscapeChar(s[0]) + Escape(s[1..])
  }

  /** `escapeHtml(s)`: `null` and `undefined` become "", any other text is
      escaped without losing information. */
  function EscapeHtml(s: Option<string>): (r: string)
    ensures s.None? ==> r == ""
    ensures s.Some? ==> Unescape(r) == s.value
    ensures forall i :: 0 <= i < |r| ==> r[i] != '<' && r[i] != '>' && r[i] != '"' && r[i] != '\''
  {
    UnescapeEscape(OrEmpty(s));
    Escape(OrEmpty(s))
  }

  /** Escaping works character by character, so it distributes over concatenation. */
  lemma {:induction false} EscapeConcat(a: string, b: string)
    ensures Escape(a + b) == Escape(a) + Escape(b)
    decreases |a|
  {
    if a != [] {
      assert (a + b)[1..] == a[1..] + b;
      EscapeConcat(a[1..], b);
    } else {
      assert a + b == b;
    }
  }

  /** Text without any of the five characters is left exactly as it is. */
  lemma {:induction false} EscapePlain(s: string)
    requires forall i :: 0 <= i < |s| ==> !IsSpecial(s[i])
    ensures Escape(s) == s
    decreases |s|
  {
    if s != [] {
      EscapePlain(s[1..]);
    }
  }

  /** Reverses the five entities; any other character is copied. */
  function Unescape(s: string): string
    decreases |s|
  {
    if s == [] then []
    else if IsPrefix("&amp;", s) then "&" + Unescape(s[5..])
    else if IsPrefix("&lt;", s) then "<" + Unescape(s[4..])
    else if IsPrefix("&gt;", s) then ">" + Unescape(s[4..])
    else if IsPrefix("&quot;", s) then "\"" + Unescape(s[6..])
    else if IsPrefix("&#39;", s) then "'" + Unescape(s[5..])
    else [s[0]] + Unescape(s[1..])
  }

  /** An entity followed by any text is recognised as that entity and no other. */
  lemma EntityPrefix(e: string, t: string)
    ensures IsPrefix(e, e + t) && (e + t)[|e|..] == t
  {
    assert (e + t)[..|e|] == e;
  }

  /** Unescaping the replacement of one character restores it. */
  lemma UnescapeEscapeChar(c: char, t: string)
    ensures Unescape(EscapeChar(c) + t) == [c] + Unescape(t)
  {
    var s := EscapeChar(c) + t;
    EntityPrefix(EscapeChar(c), t);
    if c == '&' {
    } else if c == '<' {
      assert !IsPrefix("&amp;", s) by { assert s[1] == 'l'; }
    } else if c == '>' {
      assert s[1] == 'g';
      assert !IsPrefix("&amp;", s) && !IsPrefix("&lt;", s);
    } else if c == '"' {
      assert s[1] == 'q';
      assert !IsPrefix("&amp;", s) && !IsPrefix("&lt;", s) && !IsPrefix("&gt;", s);
    } else if c == '\'' {
      assert s[1] == '#';
      assert !IsPrefix("&amp;", s) && !IsPrefix("&lt;", s) && !IsPrefix("&gt;", s) && !IsPrefix("&quot;", s);
    } else {
      assert s[0] == c && s[1..] == t;
      assert !IsPrefix("&amp;", s) && !IsPrefix("&lt;", s) && !IsPrefix("&gt;", s);
      assert !IsPrefix("&quot;", s) && !IsPrefix("&#39;", s);
    }
  }

  /** Unescaping the escaped text returns the original. */
  lemma {:induction false} UnescapeEscape(s: string)
    ensures Unescape(Escape(s)) == s
    decreases |s|
  {
    if s != [] {
      UnescapeEscapeChar(s[0], Escape(s[1..]));
      UnescapeEscape(s[1..]);
    }
  }
}
