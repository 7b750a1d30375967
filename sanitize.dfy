/**
 * The string sanitizers of `src/utils/sanitize.js`: HTML escaping of the
 * six markup characters and blocking of script-bearing URL schemes.
 */
module Sanitize {
  import opened Text

  /** A JavaScript argument: a string, or any other value (kept opaque). */
  datatype Value = Str(s: string) | NonString(id: nat)

  /** The six characters `escapeHTML` replaces. */
  predicate IsSpecial(c: char) {
    c in {'&', '<', '>', '"', '\'', '/'}
  }

  /** The replacement table. */
  function Entity(c: char): (e: string)
    requires IsSpecial(c)
    ensures |e| >= 4 && e[0] == '&' && e[|e| - 1] == ';'
  {
    match c
    case '&' => "&amp;"
    case '<' => "&lt;"
    case '>' => "&gt;"
    case '"' => "&quot;"
    case '\'' => "&#x27;"
    case '/' => "&#x2F;"
  }

  function EscapeChar(c: char): string {
    if IsSpecial(c) then Entity(c) else [c]
  }

  /** The global `replace` of the escaping regular expression on a string. */
  function Escape(s: string): (r: string)
    ensures |r| >= |s|
    decreases |s|
  {
    if s == [] then [] else EscapeChar(s[0]) + Escape(s[1..])
  }

  /**
   * `escapeHTML`: any other value is returned unchanged; a string comes back
   * as a string with no markup character left in it, from which the original
   * text can still be read back.
   */
  function EscapeHTML(v: Value): (r: Value)
    ensures v.NonString? ==> r == v
    ensures v.Str? ==> r.Str? && Inert(r.s) && Unescape(r.s) == v.s
  {
    if v.NonString? then v
    else
      EscapeIsInert(v.s);
      UnescapeEscape(v.s);
      Str(Escape(v.s))
  }

  /** None of the five markup characters other than `&` survives escaping. */
  predicate Inert(s: string) {
    forall i :: 0 <= i < |s| ==> s[i] !in {'<', '>', '"', '\'', '/'}
  }

  lemma {:induction false} EscapeIsInert(s: string)
    ensures Inert(Escape(s))
    decreases |s|
  {
    if s != [] {
      EscapeIsInert(s[1..]);
      var head, tail := EscapeChar(s[0]), Escape(s[1..]);
      forall i | 0 <= i < |head + tail| ensures (head + tail)[i] !in {'<', '>', '"', '\'', '/'} {
        if i >= |head| {
          assert (head + tail)[i] == tail[i - |head|];
        }
      }
    }
  }

  /** A string free of the six characters is left as it is. */
  lemma {:induction false} EscapeIdentityOnPlain(s: string)
    requires forall i :: 0 <= i < |s| ==> !IsSpecial(s[i])
    ensures Escape(s) == s
    decreases |s|
  {
    if s != [] {
      EscapeIdentityOnPlain(s[1..]);
      assert s == [s[0]] + s[1..];
    }
  }

  /** Escaping is not idempotent: an ampersand is escaped again. */
  lemma EscapeNotIdempotent()
    ensures Escape("&") == "&amp;"
    ensures Escape(Escape("&")) == "&amp;amp;"
  {
    assert Escape("&") == "&amp;" + Escape("");
    var e := "&amp;";
    assert Escape(e) == "&amp;" + Escape("amp;") by { assert e[1..] == "amp;"; }
    assert Escape("amp;") == "amp;" by { EscapeIdentityOnPlain("amp;"); }
  }

  /** Decoding of the six entities: the inverse that shows escaping loses nothing. */
  function Unescape(s: string): string
    decreases |s|
  {
    if s == [] then []
    else if StartsWith(s, "&amp;") then "&" + Unescape(s[5..])
    else if StartsWith(s, "&lt;") then "<" + Unescape(s[4..])
    else if StartsWith(s, "&gt;") then ">" + Unescape(s[4..])
    else if StartsWith(s, "&quot;") then "\"" + Unescape(s[6..])
    else if StartsWith(s, "&#x27;") then "'" + Unescape(s[6..])
    else if StartsWith(s, "&#x2F;") then "/" + Unescape(s[6..])
    else [s[0]] + Unescape(s[1..])
  }

  lemma NotPrefix(x: string, p: string, i: nat)
    requires i < |p| && i < |x| && x[i] != p[i]
    ensures !StartsWith(x, p)
  {
    if |p| <= |x| {
      assert x[..|p|][i] == x[i];
    }
  }

  lemma UnescapeEntity(c: char, rest: string)
    requires IsSpecial(c)
    ensures Unescape(Entity(c) + rest) == [c] + Unescape(rest)
  {
    var e := Entity(c);
    var x := e + rest;
    assert x[..|e|] == e;
    assert x[|e|..] == rest;
    assert forall i :: 0 <= i < |e| ==> x[i] == e[i];
    match c
    case '&' =>
    case '<' =>
      NotPrefix(x, "&amp;", 1);
    case '>' =>
      NotPrefix(x, "&amp;", 1);
      NotPrefix(x, "&lt;", 1);
    case '"' =>
      NotPrefix(x, "&amp;", 1);
      NotPrefix(x, "&lt;", 1);
      NotPrefix(x, "&gt;", 1);
    case '\'' =>
      NotPrefix(x, "&amp;", 1);
      NotPrefix(x, "&lt;", 1);
      NotPrefix(x, "&gt;", 1);
      NotPrefix(x, "&quot;", 1);
    case '/' =>
      NotPrefix(x, "&amp;", 1);
      NotPrefix(x, "&lt;", 1);
      NotPrefix(x, "&gt;", 1);
      NotPrefix(x, "&quot;", 1);
      NotPrefix(x, "&#x27;", 4);
  }

  /** Decoding an escaped string gives the original back, so escaping is injective. */
  lemma {:induction false} UnescapeEscape(s: string)
    ensures Unescape(Escape(s)) == s
    decreases |s|
  {
    if s != [] {
      UnescapeEscape(s[1..]);
      var c, rest := s[0], Escape(s[1..]);
      if IsSpecial(c) {
        UnescapeEntity(c, rest);
      } else {
        assert ([c] + rest)[0] == c;
        assert ([c] + rest)[1..] == rest;
      }
      assert s == [c] + s[1..];
    }
  }

  /** The schemes `sanitizeURL` blocks. */
  predicate BlockedScheme(t: string) {
    StartsWith(t, "javascript:") || StartsWith(t, "data:") || StartsWith(t, "vbscript:")
  }

  /**
   * `sanitizeURL`: the result never carries a blocked scheme, whatever its
   * case or leading whitespace; it is either "" or the given string itself,
   * untrimmed, and a string that carries no blocked scheme is always kept.
   */
  function SanitizeURL(v: Value): (r: string)
    ensures !BlockedScheme(Lower(Trim(r)))
    ensures r == "" || (v.Str? && r == v.s)
    ensures v.Str? && !BlockedScheme(Lower(Trim(v.s))) ==> r == v.s
  {
    if v.NonString? then ""
    else if BlockedScheme(Lower(Trim(v.s))) then ""
    else v.s
  }

  /** Sanitizing a sanitized URL changes nothing. */
  lemma SanitizeURLIdempotent(v: Value)
    ensures SanitizeURL(Str(SanitizeURL(v))) == SanitizeURL(v)
  {
    assert Lower(Trim("")) == "";
  }

  /** Trimming the end never cuts into a prefix whose last character is not whitespace. */
  lemma TrimEndKeepsPrefix(x: string, p: string)
    requires |p| > 0 && |x| >= |p| && x[..|p|] == p && !IsJsWhitespace(p[|p| - 1])
    ensures |TrimEnd(x)| >= |p| && TrimEnd(x)[..|p|] == p
  {
    var e := TrimEnd(x);
    assert x[|p| - 1] == p[|p| - 1];
  }

  /** Trimming a padded string keeps a prefix that neither starts nor ends with whitespace. */
  lemma TrimKeepsPrefix(ws: string, p: string, rest: string)
    requires AllWhitespace(ws)
    requires |p| > 0 && !IsJsWhitespace(p[0]) && !IsJsWhitespace(p[|p| - 1])
    ensures |Trim(ws + p + rest)| >= |p| && Trim(ws + p + rest)[..|p|] == p
  {
    var x := p + rest;
    assert x[0] == p[0];
    TrimStartSkipsWhitespace(ws, x);
    assert ws + x == ws + p + rest;
    assert x[..|p|] == p;
    TrimEndKeepsPrefix(x, p);
  }

  lemma LowerKeepsPrefix(t: string, p: string)
    requires |t| >= |p| && t[..|p|] == p
    ensures Lower(t)[..|p|] == Lower(p)
  {
    forall i | 0 <= i < |p| ensures Lower(t)[..|p|][i] == Lower(p)[i] {
      assert t[i] == t[..|p|][i];
    }
  }

  lemma StartsWithThroughPrefix(t: string, p: string, q: string)
    requires StartsWith(p, q) && |t| >= |p| && t[..|p|] == p
    ensures StartsWith(t, q)
  {
    assert t[..|q|] == t[..|p|][..|q|];
  }

  /**
   * Blocking ignores case and surrounding whitespace: a blocked scheme in
   * any letter case, after any run of whitespace, is blocked.
   */
  lemma BlockedInAnyCase(ws: string, scheme: string, rest: string)
    requires AllWhitespace(ws)
    requires BlockedScheme(Lower(scheme)) && |scheme| > 0 && !IsJsWhitespace(scheme[0])
    requires !IsJsWhitespace(scheme[|scheme| - 1])
    ensures SanitizeURL(Str(ws + scheme + rest)) == ""
  {
    var t := Trim(ws + scheme + rest);
    TrimKeepsPrefix(ws, scheme, rest);
    LowerKeepsPrefix(t, scheme);
    var ls := Lower(scheme);
    if StartsWith(ls, "javascript:") {
      StartsWithThroughPrefix(Lower(t), ls, "javascript:");
    } else if StartsWith(ls, "data:") {
      StartsWithThroughPrefix(Lower(t), ls, "data:");
    } else {
      StartsWithThroughPrefix(Lower(t), ls, "vbscript:");
    }
  }

  lemma {:induction false} TrimStartSkipsWhitespace(ws: string, s: string)
    requires AllWhitespace(ws)
    requires |s| > 0 && !IsJsWhitespace(s[0])
    ensures TrimStart(ws + s) == s
    decreases |ws|
  {
    if ws == [] {
      assert ws + s == s;
    } else {
      assert (ws + s)[1..] == ws[1..] + s;
      TrimStartSkipsWhitespace(ws[1..], s);
    }
  }
}
