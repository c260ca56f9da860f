/** The text helpers of the review page: HTML escaping, escaping for a
    JSON string literal, and the file extension of a media URL. */
module ReviewText {
  import opened Text

  // ---------------------------------------------------------------------
  // Character replacement
  // ---------------------------------------------------------------------

  /** Rust's `str::replace(c, r)` for a single character `c`. */
  function Replace(s: string, c: char, r: string): (t: string)
    ensures c !in r ==> c !in t
  {
    if s == [] then []
    else (if s[0] == c then r else [s[0]]) + Replace(s[1..], c, r)
  }

  /** Replacing works piece by piece. */
  lemma {:induction false} ReplaceAppend(a: string, b: string, c: char, r: string)
    ensures Replace(a + b, c, r) == Replace(a, c, r) + Replace(b, c, r)
  {
    if a == [] {
      assert a + b == b;
    } else {
      assert (a + b)[1..] == a[1..] + b;
      ReplaceAppend(a[1..], b, c, r);
    }
  }

  /** A string without `c` is left alone. */
  lemma {:induction false} ReplaceAbsent(s: string, c: char, r: string)
    requires forall i :: 0 <= i < |s| ==> s[i] != c
    ensures Replace(s, c, r) == s
  {
    if s != [] {
      assert s[0] != c;
      assert forall i :: 0 <= i < |s| - 1 ==> s[1..][i] == s[i + 1];
      ReplaceAbsent(s[1..], c, r);
    }
  }

  lemma ReplaceOne(d: char, c: char, r: string)
    ensures Replace([d], c, r) == if d == c then r else [d]
  {
    assert [d][1..] == [];
  }

  // ---------------------------------------------------------------------
  // escape_html
  // ---------------------------------------------------------------------

  /** The five replacements of `escape_html`, `&` first. */
  function EscapeHtml(s: string): string {
    Replace(Replace(Replace(Replace(Replace(s, '&', "&amp;"), '<', "&lt;"), '>', "&gt;"), '"', "&quot;"),
            '\'', "&#39;")
  }

  /** The entity each character becomes. */
  function HtmlEntity(c: char): string {
    if c == '&' then "&amp;"
    else if c == '<' then "&lt;"
    else if c == '>' then "&gt;"
    else if c == '"' then "&quot;"
    else if c == '\'' then "&#39;"
    else [c]
  }

  /** Escaping one character at a time, the reference for `EscapeHtml`. */
  function EscapeHtmlByChar(s: string): string {
    if s == [] then [] else HtmlEntity(s[0]) + EscapeHtmlByChar(s[1..])
  }

  /** An entity made by one replacement holds none of the characters the
      later ones look for. */
  lemma EntityKept(e: string, d: char, r: string)
    requires forall i :: 0 <= i < |e| ==> e[i] == '&' || e[i] == ';' || e[i] == '#' || 'a' <= e[i] <= 'z'
                                          || '0' <= e[i] <= '9'
    requires d == '<' || d == '>' || d == '"' || d == '\''
    ensures Replace(e, d, r) == e
  {
    ReplaceAbsent(e, d, r);
  }

  lemma EscapeAmp()
    ensures EscapeHtml("&") == "&amp;"
  {
    ReplaceOne('&', '&', "&amp;");
    EntityKept("&amp;", '<', "&lt;");
    EntityKept("&amp;", '>', "&gt;");
    EntityKept("&amp;", '"', "&quot;");
    EntityKept("&amp;", '\'', "&#39;");
  }

  lemma EscapeLt()
    ensures EscapeHtml("<") == "&lt;"
  {
    ReplaceOne('<', '&', "&amp;");
    ReplaceOne('<', '<', "&lt;");
    EntityKept("&lt;", '>', "&gt;");
    EntityKept("&lt;", '"', "&quot;");
    EntityKept("&lt;", '\'', "&#39;");
  }

  lemma EscapeGt()
    ensures EscapeHtml(">") == "&gt;"
  {
    ReplaceOne('>', '&', "&amp;");
    ReplaceOne('>', '<', "&lt;");
    ReplaceOne('>', '>', "&gt;");
    EntityKept("&gt;", '"', "&quot;");
    EntityKept("&gt;", '\'', "&#39;");
  }

  lemma EscapeQuot()
    ensures EscapeHtml("\"") == "&quot;"
  {
    ReplaceOne('"', '&', "&amp;");
    ReplaceOne('"', '<', "&lt;");
    ReplaceOne('"', '>', "&gt;");
    ReplaceOne('"', '"', "&quot;");
    EntityKept("&quot;", '\'', "&#39;");
  }

  lemma EscapeOther(c: char)
    requires c != '&' && c != '<' && c != '>' && c != '"'
    ensures EscapeHtml([c]) == if c == '\'' then "&#39;" else [c]
  {
    ReplaceOne(c, '&', "&amp;");
    ReplaceOne(c, '<', "&lt;");
    ReplaceOne(c, '>', "&gt;");
    ReplaceOne(c, '"', "&quot;");
    ReplaceOne(c, '\'', "&#39;");
  }

  lemma EscapeHtmlOne(c: char)
    ensures EscapeHtml([c]) == HtmlEntity(c)
  {
    if c == '&' {
      EscapeAmp();
    } else if c == '<' {
      EscapeLt();
    } else if c == '>' {
      EscapeGt();
    } else if c == '"' {
      EscapeQuot();
    } else {
      EscapeOther(c);
    }
  }

  lemma EscapeHtmlAppend(a: string, b: string)
    ensures EscapeHtml(a + b) == EscapeHtml(a) + EscapeHtml(b)
  {
    ReplaceAppend(a, b, '&', "&amp;");
    var a1, b1 := Replace(a, '&', "&amp;"), Replace(b, '&', "&amp;");
    ReplaceAppend(a1, b1, '<', "&lt;");
    var a2, b2 := Replace(a1, '<', "&lt;"), Replace(b1, '<', "&lt;");
    ReplaceAppend(a2, b2, '>', "&gt;");
    var a3, b3 := Replace(a2, '>', "&gt;"), Replace(b2, '>', "&gt;");
    ReplaceAppend(a3, b3, '"', "&quot;");
    var a4, b4 := Replace(a3, '"', "&quot;"), Replace(b3, '"', "&quot;");
    ReplaceAppend(a4, b4, '\'', "&#39;");
  }

  /** Because `&` is replaced first, the chain escapes every character to
      its own entity: no entity is escaped twice. */
  lemma {:induction false} EscapeHtmlIsByChar(s: string)
    ensures EscapeHtml(s) == EscapeHtmlByChar(s)
  {
    if s != [] {
      assert s == [s[0]] + s[1..];
      EscapeHtmlAppend([s[0]], s[1..]);
      EscapeHtmlOne(s[0]);
      EscapeHtmlIsByChar(s[1..]);
    }
  }

  /** The escaped text holds none of `<`, `>`, `"`, `'`; each `&` in it
      starts an entity. */
  lemma {:induction false} EscapeHtmlSafe(s: string)
    ensures var t := EscapeHtml(s); '<' !in t && '>' !in t && '"' !in t && '\'' !in t
  {
    EscapeHtmlIsByChar(s);
    ByCharLacks(s, '<');
    ByCharLacks(s, '>');
    ByCharLacks(s, '"');
    ByCharLacks(s, '\'');
  }

  lemma {:induction false} ByCharLacks(s: string, d: char)
    requires d == '<' || d == '>' || d == '"' || d == '\''
    ensures d !in EscapeHtmlByChar(s)
  {
    if s != [] {
      ByCharLacks(s[1..], d);
      assert d !in HtmlEntity(s[0]);
    }
  }

  /** Text without special characters is left alone. */
  lemma {:induction false} EscapeHtmlPlain(s: string)
    requires forall i :: 0 <= i < |s| ==> s[i] !in "&<>\"'"
    ensures EscapeHtml(s) == s
  {
    EscapeHtmlIsByChar(s);
    EscapeByCharPlain(s);
  }

  lemma {:induction false} EscapeByCharPlain(s: string)
    requires forall i :: 0 <= i < |s| ==> s[i] !in "&<>\"'"
    ensures EscapeHtmlByChar(s) == s
  {
    if s != [] {
      assert s[0] !in "&<>\"'";
      EscapeByCharPlain(s[1..]);
    }
  }

  // ---------------------------------------------------------------------
  // escape_json_string
  // ---------------------------------------------------------------------

  /** Backslashes are doubled first, then quotes get a backslash. */
  function EscapeJsonString(s: string): (t: string) {
    Replace(Replace(s, '\\', "\\\\"), '"', "\\\"")
  }

  function JsonCharEscape(c: char): string {
    if c == '\\' then "\\\\" else if c == '"' then "\\\"" else [c]
  }

  function EscapeJsonByChar(s: string): string {
    if s == [] then [] else JsonCharEscape(s[0]) + EscapeJsonByChar(s[1..])
  }

  /** Reading a JSON string body back: a backslash takes the next
      character literally. */
  function UnescapeJson(t: string): string
    decreases |t|
  {
    if t == [] then []
    else if t[0] == '\\' && |t| >= 2 then [t[1]] + UnescapeJson(t[2..])
    else [t[0]] + UnescapeJson(t[1..])
  }

  lemma {:induction false} EscapeJsonIsByChar(s: string)
    ensures EscapeJsonString(s) == EscapeJsonByChar(s)
  {
    if s != [] {
      var c := s[0];
      assert s == [c] + s[1..];
      ReplaceAppend([c], s[1..], '\\', "\\\\");
      ReplaceOne(c, '\\', "\\\\");
      ReplaceAppend(Replace([c], '\\', "\\\\"), Replace(s[1..], '\\', "\\\\"), '"', "\\\"");
      if c == '\\' {
        assert Replace("\\\\", '"', "\\\"") == "\\\\";
      } else {
        ReplaceOne(c, '"', "\\\"");
      }
      EscapeJsonIsByChar(s[1..]);
    }
  }

  /** Every string survives escaping and reading back. */
  lemma {:induction false} EscapeJsonRoundTrip(s: string)
    ensures UnescapeJson(EscapeJsonString(s)) == s
  {
    EscapeJsonIsByChar(s);
    ByCharRoundTrip(s);
  }

  lemma {:induction false} ByCharRoundTrip(s: string)
    ensures UnescapeJson(EscapeJsonByChar(s)) == s
  {
    if s != [] {
      var t := EscapeJsonByChar(s);
      var rest := EscapeJsonByChar(s[1..]);
      ByCharRoundTrip(s[1..]);
      if s[0] == '\\' || s[0] == '"' {
        assert t == [ '\\', s[0] ] + rest;
        assert t[2..] == rest;
      } else {
        assert t == [s[0]] + rest;
        assert t[1..] == rest;
      }
    }
  }

  // ---------------------------------------------------------------------
  // extract_url_extension
  // ---------------------------------------------------------------------

  /** The path of a URL: the query string and then the fragment cut off. */
  function UrlPath(url: string): (p: string)
    ensures '?' !in p && '#' !in p
  {
    BeforeChar(BeforeChar(url, '?'), '#')
  }

  /** The last path segment of a URL. */
  function LastSegment(url: string): (seg: string)
    ensures forall i :: 0 <= i < |seg| ==> seg[i] != '?' && seg[i] != '#' && seg[i] != '/'
  {
    var path := UrlPath(url);
    var seg := AfterLastChar(path, '/');
    assert forall i :: 0 <= i < |seg| ==> seg[i] == path[|path| - |seg| + i];
    seg
  }

  /** The suffix of `seg` from its last dot. */
  function DotSuffix(seg: string): (x: string)
    requires '.' in seg
    ensures |x| >= 1 && x[0] == '.' && '.' !in x[1..] && |x| <= |seg| && x == seg[|seg| - |x|..]
  {
    var k := LastIndexOf(seg, '.');
    assert seg[k..][1..] == seg[k + 1..];
    seg[k..]
  }

  /** The suffix of a path segment from its last dot, lower-cased, or ""
      when it has no dot. */
  function SegmentExtension(seg: string): string {
    if '.' in seg then AsciiLower(DotSuffix(seg)) else []
  }

  /** `extract_url_extension`. */
  function ExtractUrlExtension(url: string): string {
    SegmentExtension(LastSegment(url))
  }

  /** Lower-casing keeps every character that is not a letter, and leaves
      no upper-case letter. */
  lemma LowerKeeps(x: string, d: char)
    requires !('A' <= d <= 'Z') && !('a' <= d <= 'z')
    ensures forall i :: 0 <= i < |x| ==> (AsciiLower(x)[i] == d <==> x[i] == d)
    ensures forall i :: 0 <= i < |x| ==> !('A' <= AsciiLower(x)[i] <= 'Z')
  {
  }

  /** A segment's extension is empty or a dot followed by no other dot. */
  lemma SegmentExtensionDot(seg: string)
    ensures var e := SegmentExtension(seg); e == [] || (e[0] == '.' && '.' !in e[1..])
  {
    if '.' in seg {
      var x := DotSuffix(seg);
      var e := AsciiLower(x);
      LowerKeeps(x, '.');
      forall i | 0 <= i < |e| - 1
        ensures e[1..][i] != '.'
      {
        assert e[1..][i] == e[i + 1];
        assert x[i + 1] == x[1..][i];
      }
    }
  }

  /** A segment's extension holds no upper-case letter and no character
      the segment lacks. */
  lemma SegmentExtensionChars(seg: string, d: char)
    requires !('A' <= d <= 'Z') && !('a' <= d <= 'z') && d !in seg
    ensures var e := SegmentExtension(seg); (forall i :: 0 <= i < |e| ==> !('A' <= e[i] <= 'Z')) && d !in e
  {
    if '.' in seg {
      var x := DotSuffix(seg);
      var e := AsciiLower(x);
      LowerKeeps(x, d);
      forall i | 0 <= i < |e|
        ensures e[i] != d
      {
        assert x[i] == seg[|seg| - |x| + i];
      }
    }
  }

  /** The extension is empty or a dot followed by no other dot; it holds no
      upper-case letter and none of `?`, `#`, `/`. */
  lemma ExtensionShape(url: string)
    ensures var e := ExtractUrlExtension(url);
      (e == [] || (e[0] == '.' && '.' !in e[1..]))
      && (forall i :: 0 <= i < |e| ==> !('A' <= e[i] <= 'Z'))
      && '?' !in e && '#' !in e && '/' !in e
  {
    var seg := LastSegment(url);
    SegmentExtensionDot(seg);
    SegmentExtensionChars(seg, '?');
    SegmentExtensionChars(seg, '#');
    SegmentExtensionChars(seg, '/');
  }

  /** The query string does not matter. */
  lemma QueryIgnored(p: string, q: string)
    requires '?' !in p
    ensures ExtractUrlExtension(p + "?" + q) == ExtractUrlExtension(p)
  {
    var u := p + "?" + q;
    assert u[|p|] == '?' && u[..|p|] == p;
    assert '?' in u;
    assert IndexOf(u, '?') == |p|;
  }

  /** Cutting at the first `c` keeps a prefix that holds no `c`. */
  lemma BeforeCharPrefix(u: string, pre: string, c: char)
    requires |pre| <= |u| && u[..|pre|] == pre && c !in pre
    ensures |BeforeChar(u, c)| >= |pre| && BeforeChar(u, c)[..|pre|] == pre
  {
    if c in u {
      var k := IndexOf(u, c);
      assert u[..k][..|pre|] == pre;
    }
  }

  /** Nor does the fragment. */
  lemma FragmentIgnored(p: string, f: string)
    requires '?' !in p && '#' !in p
    ensures ExtractUrlExtension(p + "#" + f) == ExtractUrlExtension(p)
  {
    var u := p + "#" + f;
    var pre := p + "#";
    assert u[..|pre|] == pre;
    BeforeCharPrefix(u, pre, '?');
    var v := BeforeChar(u, '?');
    assert v[|p|] == pre[|p|] == '#';
    assert v[..|p|] == p;
    assert '#' in v;
    assert IndexOf(v, '#') == |p|;
  }

  /** The last index of a character that occurs only at position `k`
      or before it. */
  lemma LastIndexAt(u: string, c: char, k: nat)
    requires k < |u| && u[k] == c && c !in u[k + 1..]
    ensures LastIndexOf(u, c) == k
  {
  }

  lemma UrlPathPlain(u: string)
    requires '?' !in u && '#' !in u
    ensures UrlPath(u) == u
  {
  }

  lemma LastSegmentOf(dir: string, seg: string)
    requires '?' !in dir && '#' !in dir && '?' !in seg && '#' !in seg && '/' !in seg
    ensures LastSegment(dir + "/" + seg) == seg
  {
    var u := dir + "/" + seg;
    assert '?' !in u && '#' !in u;
    UrlPathPlain(u);
    assert u[|dir|] == '/' && u[|dir| + 1..] == seg;
    LastIndexAt(u, '/', |dir|);
  }

  lemma DotSuffixOf(name: string, ext: string)
    requires '.' !in ext
    ensures DotSuffix(name + "." + ext) == "." + ext
  {
    var seg := name + "." + ext;
    assert seg[|name|] == '.' && seg[|name| + 1..] == ext;
    LastIndexAt(seg, '.', |name|);
  }

  /** The extension of `dir/name.ext` is `.ext` lower-cased. */
  lemma ExtensionOfFile(dir: string, name: string, ext: string)
    requires '?' !in dir && '#' !in dir && '?' !in name && '#' !in name && '?' !in ext && '#' !in ext
    requires '/' !in name && '/' !in ext && '.' !in ext
    ensures ExtractUrlExtension(dir + "/" + (name + "." + ext)) == AsciiLower("." + ext)
  {
    var seg := name + "." + ext;
    assert '?' !in seg && '#' !in seg && '/' !in seg && '.' in seg;
    LastSegmentOf(dir, seg);
    DotSuffixOf(name, ext);
  }
}
