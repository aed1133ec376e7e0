/** The sitemap printer and a reader that inverts it (backend/src/routes/sitemap.ts). */
module Sitemap {
  import opened Options
  import opened Text

  // ---- escaping -------------------------------------------------------------------------

  /** `s.replace(/c/g, with)` for one character. */
  function ReplaceAll(s: string, c: char, into: string): string {
    if s == [] then [] else (if s[0] == c then into else [s[0]]) + ReplaceAll(s[1..], c, into)
  }

  /** `escapeXml`: three global replacements, one after another. */
  function EscapeXml(s: string): string {
    ReplaceAll(ReplaceAll(ReplaceAll(s, '&', "&amp;"), '<', "&lt;"), '>', "&gt;")
  }

  /** Character data's escape of one character (section 2.4 of XML 1.0). */
  function EscapeChar(c: char): string {
    if c == '&' then "&amp;" else if c == '<' then "&lt;" else if c == '>' then "&gt;" else [c]
  }

  function EscapeEach(s: string): string {
    if s == [] then [] else EscapeChar(s[0]) + EscapeEach(s[1..])
  }

  /** Reads the three entities back, left to right. */
  function Unescape(s: string): string
    decreases |s|
  {
    if s == [] then []
    else if "&amp;" <= s then "&" + Unescape(s[5..])
    else if "&lt;" <= s then "<" + Unescape(s[4..])
    else if "&gt;" <= s then ">" + Unescape(s[4..])
    else [s[0]] + Unescape(s[1..])
  }

  lemma {:induction false} ReplaceAllConcat(s: string, t: string, c: char, into: string)
    ensures ReplaceAll(s + t, c, into) == ReplaceAll(s, c, into) + ReplaceAll(t, c, into)
  {
    if s == [] {
      assert s + t == t;
    } else {
      assert (s + t)[1..] == s[1..] + t;
      ReplaceAllConcat(s[1..], t, c, into);
    }
  }

  lemma {:induction false} ReplaceAbsent(s: string, c: char, into: string)
    requires c !in s
    ensures ReplaceAll(s, c, into) == s
  {
    if s == [] {
    } else {
      assert s[0] in s;
      ReplaceAbsent(s[1..], c, into);
    }
  }

  lemma ReplaceAllOne(x: char, c: char, into: string)
    ensures ReplaceAll([x], c, into) == (if x == c then into else [x])
  {
    assert [x][1..] == "";
  }

  lemma EscapeXmlOfChar(c: char)
    ensures EscapeXml([c]) == EscapeChar(c)
  {
    ReplaceAllOne(c, '&', "&amp;");
    ReplaceAllOne(c, '<', "&lt;");
    ReplaceAllOne(c, '>', "&gt;");
    ReplaceAbsent("&amp;", '<', "&lt;");
    ReplaceAbsent("&amp;", '>', "&gt;");
    ReplaceAbsent("&lt;", '>', "&gt;");
  }

  /** The three sequential replacements are one per-character escape: no replacement touches what an
      earlier one wrote. */
  lemma {:induction false} SequentialEscapeIsEach(s: string)
    ensures EscapeXml(s) == EscapeEach(s)
  {
    if s == [] {
    } else {
      SequentialEscapeIsEach(s[1..]);
      EscapeXmlOfChar(s[0]);
      assert s == [s[0]] + s[1..];
      var once, rest := ReplaceAll([s[0]], '&', "&amp;"), ReplaceAll(s[1..], '&', "&amp;");
      ReplaceAllConcat([s[0]], s[1..], '&', "&amp;");
      ReplaceAllConcat(once, rest, '<', "&lt;");
      ReplaceAllConcat(ReplaceAll(once, '<', "&lt;"), ReplaceAll(rest, '<', "&lt;"), '>', "&gt;");
    }
  }

  lemma UnescapeChar(c: char, rest: string)
    ensures Unescape(EscapeChar(c) + rest) == [c] + Unescape(rest)
  {
    var s := EscapeChar(c) + rest;
    if c == '&' {
      assert s[5..] == rest;
    } else if c == '<' {
      assert s[1] == 'l' && s[4..] == rest;
    } else if c == '>' {
      assert s[1] == 'g' && s[4..] == rest;
    } else {
      assert s[0] == c && s[1..] == rest;
    }
  }

  /** Unescaping recovers every string, and an escaped string has no markup left in it. */
  lemma {:induction false} EscapeRoundTrip(s: string)
    ensures Unescape(EscapeXml(s)) == s
    ensures '<' !in EscapeXml(s) && '>' !in EscapeXml(s)
  {
    SequentialEscapeIsEach(s);
    if s == [] {
    } else {
      EscapeRoundTrip(s[1..]);
      SequentialEscapeIsEach(s[1..]);
      UnescapeChar(s[0], EscapeEach(s[1..]));
    }
  }

  // ---- the document ------------------------------------------------------------------------

  datatype Entry = Entry(path: string, lastmod: Option<string>)

  /** `baseUrl.replace(/\/+$/, "")`. */
  function Origin(baseUrl: string): string {
    if baseUrl != [] && baseUrl[|baseUrl| - 1] == '/' then Origin(baseUrl[..|baseUrl| - 1]) else baseUrl
  }

  const HEAD :=
    "<?xml version=\"1.0\" encoding=\"UTF-8\"?>\n" + "<urlset xmlns=\"http://www.sitemaps.org/schemas/sitemap/0.9\">\n"
  const TAIL := "</urlset>\n"
  const OPEN_URL := "  <url>\n    <loc>"
  const CLOSE_LOC := "</loc>"
  const OPEN_MOD := "\n    <lastmod>"
  const CLOSE_MOD := "</lastmod>"
  const CLOSE_URL := "\n  </url>"

  /** An absent and an empty `lastmod` are both left out. */
  function Stamped(lastmod: Option<string>): Option<string> {
    if lastmod == Some("") then None else lastmod
  }

  function RenderMod(lastmod: Option<string>): string {
    if Stamped(lastmod).None? then "" else OPEN_MOD + EscapeXml(lastmod.value) + CLOSE_MOD
  }

  function RenderUrl(origin: string, e: Entry): string {
    OPEN_URL + EscapeXml(origin + e.path) + CLOSE_LOC + RenderMod(e.lastmod) + CLOSE_URL
  }

  function RenderUrls(origin: string, entries: seq<Entry>): seq<string> {
    seq(|entries|, k requires 0 <= k < |entries| => RenderUrl(origin, entries[k]))
  }

  /** `renderSitemap`. */
  function RenderSitemap(baseUrl: string, entries: seq<Entry>): string {
    HEAD + Glue(RenderUrls(Origin(baseUrl), entries), '\n') + "\n" + TAIL
  }

  // ---- a reader ------------------------------------------------------------------------------

  datatype Location = Location(url: string, lastmod: Option<string>)

  function Expect(s: string, prefix: string): Option<string> {
    if prefix <= s then Some(s[|prefix|..]) else None
  }

  function TextLength(s: string): (n: nat)
    ensures n <= |s|
  {
    if s == [] || s[0] == '<' then 0 else 1 + TextLength(s[1..])
  }

  /** Character data up to the next tag, unescaped, and what follows. */
  function ReadText(s: string): (string, string) { (Unescape(s[..TextLength(s)]), s[TextLength(s)..]) }

  function ReadMod(s: string): (Option<string>, string) {
    var inner := Expect(s, "\n    <lastmod>");
    if inner.None? then (None, s)
    else
      var (text, rest) := ReadText(inner.value);
      var closed := Expect(rest, "</lastmod>");
      if closed.None? then (None, s) else (Some(text), closed.value)
  }

  /** The `<loc>` element that opens a `<url>`. */
  function ReadLoc(s: string): Option<(string, string)> {
    var inner := Expect(s, "  <url>\n    <loc>");
    if inner.None? then None
    else
      var (url, rest) := ReadText(inner.value);
      var closed := Expect(rest, "</loc>");
      if closed.None? then None else Some((url, closed.value))
  }

  /** One `<url>` element with its line break. */
  function ReadUrl(s: string): Option<(Location, string)> {
    var loc := ReadLoc(s);
    if loc.None? then None
    else
      var (lastmod, rest) := ReadMod(loc.value.1);
      var closed := Expect(rest, "\n  </url>\n");
      if closed.None? then None else Some((Location(loc.value.0, lastmod), closed.value))
  }

  /** Reads element after element until only `end` is left. */
  function ReadAll<T>(read: string -> Option<(T, string)>, s: string, end: string, fuel: nat): Option<seq<T>>
    decreases fuel
  {
    if s == end then Some([])
    else if fuel == 0 then None
    else
      var first := read(s);
      if first.None? then None
      else
        var rest := ReadAll(read, first.value.1, end, fuel - 1);
        if rest.None? then None else Some([first.value.0] + rest.value)
  }

  // What the reader expects; it spells every tag itself.
  const XML_DECLARATION := "<?xml version=\"1.0\" encoding=\"UTF-8\"?>\n"
  const URLSET_START := "<urlset xmlns=\"http://www.sitemaps.org/schemas/sitemap/0.9\">\n"
  const URLSET_END := "</urlset>\n"

  /** Reads a sitemap document: its locations in order. */
  function ParseSitemap(doc: string): Option<seq<Location>> {
    var declared := Expect(doc, XML_DECLARATION);
    if declared.None? then None
    else
      var body := Expect(declared.value, URLSET_START);
      if body.None? then None
      else if body.value == "\n" + URLSET_END then Some([])
      else ReadAll(ReadUrl, body.value, URLSET_END, |body.value|)
  }

  lemma {:induction false} TextLengthOf(text: string, rest: string)
    requires '<' !in text && rest != [] && rest[0] == '<'
    ensures TextLength(text + rest) == |text|
  {
    if text == [] {
      assert text + rest == rest;
    } else {
      assert text[0] in text;
      assert (text + rest)[1..] == text[1..] + rest;
      TextLengthOf(text[1..], rest);
    }
  }

  lemma ReadTextOf(s: string, rest: string)
    requires rest != [] && rest[0] == '<'
    ensures ReadText(EscapeXml(s) + rest) == (s, rest)
  {
    EscapeRoundTrip(s);
    var escaped := EscapeXml(s);
    TextLengthOf(escaped, rest);
    assert (escaped + rest)[..|escaped|] == escaped;
    assert (escaped + rest)[|escaped|..] == rest;
  }

  lemma ReadModOf(lastmod: Option<string>, rest: string)
    ensures ReadMod(RenderMod(lastmod) + (CLOSE_URL + rest)) == (Stamped(lastmod), CLOSE_URL + rest)
  {
    hide EscapeXml, ReadText;
    var after := CLOSE_URL + rest;
    if Stamped(lastmod).None? {
      assert RenderMod(lastmod) + after == after;
      assert after[3] == '<' && OPEN_MOD[3] == ' ';
    } else {
      var s := RenderMod(lastmod) + after;
      assert s == OPEN_MOD + (EscapeXml(lastmod.value) + (CLOSE_MOD + after));
      assert s[|OPEN_MOD|..] == EscapeXml(lastmod.value) + (CLOSE_MOD + after);
      ReadTextOf(lastmod.value, CLOSE_MOD + after);
      assert (CLOSE_MOD + after)[|CLOSE_MOD|..] == after;
    }
  }

  function LocationOf(origin: string, e: Entry): Location { Location(origin + e.path, Stamped(e.lastmod)) }

  lemma ExpectOf(prefix: string, rest: string)
    ensures Expect(prefix + rest, prefix) == Some(rest)
  {
  }

  lemma ReadLocOf(url: string, rest: string)
    ensures ReadLoc(OPEN_URL + (EscapeXml(url) + (CLOSE_LOC + rest))) == Some((url, rest))
  {
    ExpectOf(OPEN_URL, EscapeXml(url) + (CLOSE_LOC + rest));
    ReadTextOf(url, CLOSE_LOC + rest);
    ExpectOf(CLOSE_LOC, rest);
  }

  lemma Regroup(a: string, b: string, c: string, d: string, e: string, n: string, rest: string)
    ensures (a + b + c + d + e) + n + rest == a + (b + (c + (d + (e + (n + rest)))))
  {
  }

  lemma UrlCloses()
    ensures CLOSE_URL + "\n" == "\n  </url>\n"
  {
  }

  lemma ReadUrlOf(origin: string, e: Entry, rest: string)
    ensures ReadUrl(RenderUrl(origin, e) + "\n" + rest) == Some((LocationOf(origin, e), rest))
  {
    hide EscapeXml, RenderMod, ReadMod, ReadLoc, Stamped, OPEN_URL, CLOSE_LOC, CLOSE_URL;
    Regroup(OPEN_URL, EscapeXml(origin + e.path), CLOSE_LOC, RenderMod(e.lastmod), CLOSE_URL, "\n", rest);
    ReadLocOf(origin + e.path, RenderMod(e.lastmod) + (CLOSE_URL + ("\n" + rest)));
    ReadModOf(e.lastmod, "\n" + rest);
    assert CLOSE_URL + ("\n" + rest) == (CLOSE_URL + "\n") + rest;
    UrlCloses();
    ExpectOf("\n  </url>\n", rest);
  }

  function Concat(chunks: seq<string>): string { if chunks == [] then "" else chunks[0] + Concat(chunks[1..]) }

  /** A reader that inverts each chunk, whatever follows it, inverts their concatenation. */
  lemma {:induction false} ReadAllInverts<T>(read: string -> Option<(T, string)>, chunks: seq<string>, items: seq<T>,
                                             end: string, fuel: nat)
    requires |chunks| == |items| <= fuel && end != []
    requires forall k :: 0 <= k < |chunks| ==> chunks[k] != [] && chunks[k][0] != end[0]
    requires forall k, rest :: 0 <= k < |chunks| ==> read(chunks[k] + rest) == Some((items[k], rest))
    ensures ReadAll(read, Concat(chunks) + end, end, fuel) == Some(items)
  {
    if chunks == [] {
      assert Concat(chunks) + end == end;
    } else {
      var rest := Concat(chunks[1..]) + end;
      assert Concat(chunks) + end == chunks[0] + rest;
      assert (chunks[0] + rest)[0] == chunks[0][0];
      forall k, more | 0 <= k < |chunks[1..]| ensures read(chunks[1..][k] + more) == Some((items[1..][k], more)) {
        assert chunks[1..][k] == chunks[k + 1];
      }
      ReadAllInverts(read, chunks[1..], items[1..], end, fuel - 1);
      assert items == [items[0]] + items[1..];
    }
  }

  /** The elements with a line break after each. */
  function Lines(origin: string, entries: seq<Entry>): seq<string> {
    seq(|entries|, k requires 0 <= k < |entries| => RenderUrl(origin, entries[k]) + "\n")
  }

  lemma {:induction false} GluedIsLines(urls: seq<string>, lines: seq<string>)
    requires urls != [] && |lines| == |urls| && forall k :: 0 <= k < |urls| ==> lines[k] == urls[k] + "\n"
    ensures Glue(urls, '\n') + "\n" == Concat(lines)
    ensures |Concat(lines)| >= |lines|
  {
    if |urls| == 1 {
      assert lines[1..] == [];
      assert lines[0] + "" == lines[0];
    } else {
      GluedIsLines(urls[1..], lines[1..]);
      assert Glue(urls, '\n') == urls[0] + "\n" + Glue(urls[1..], '\n');
    }
  }

  lemma RenderUrlStart(origin: string, e: Entry)
    ensures (RenderUrl(origin, e) + "\n")[0] == ' '
  {
    Regroup(OPEN_URL, EscapeXml(origin + e.path), CLOSE_LOC, RenderMod(e.lastmod), CLOSE_URL, "\n", "");
    assert OPEN_URL[0] == ' ';
  }

  function Locations(origin: string, entries: seq<Entry>): seq<Location> {
    seq(|entries|, k requires 0 <= k < |entries| => LocationOf(origin, entries[k]))
  }

  lemma ReadLines(origin: string, entries: seq<Entry>, fuel: nat)
    requires fuel >= |entries|
    ensures ReadAll(ReadUrl, Concat(Lines(origin, entries)) + TAIL, TAIL, fuel) == Some(Locations(origin, entries))
  {
    var lines, locations := Lines(origin, entries), Locations(origin, entries);
    forall k, rest | 0 <= k < |lines| ensures ReadUrl(lines[k] + rest) == Some((locations[k], rest)) {
      ReadUrlOf(origin, entries[k], rest);
    }
    forall k | 0 <= k < |lines| ensures lines[k] != [] && lines[k][0] != TAIL[0] {
      RenderUrlStart(origin, entries[k]);
    }
    ReadAllInverts(ReadUrl, lines, locations, TAIL, fuel);
  }

  lemma BodyRead(body: string)
    ensures ParseSitemap(HEAD + body) ==
            (if body == "\n" + TAIL then Some([]) else ReadAll(ReadUrl, body, TAIL, |body|))
  {
    hide Expect, ReadAll, HEAD, TAIL, XML_DECLARATION, URLSET_START, URLSET_END;
    FrameIsSpelt();
    assert (XML_DECLARATION + URLSET_START) + body == XML_DECLARATION + (URLSET_START + body);
    ExpectOf(XML_DECLARATION, URLSET_START + body);
    ExpectOf(URLSET_START, body);
  }

  lemma FrameIsSpelt()
    ensures HEAD == XML_DECLARATION + URLSET_START && TAIL == URLSET_END
  {
  }

  /** The document reads back as exactly the origin-prefixed paths and the timestamps, in order; an empty
      timestamp is the only one that does not come back, being printed as none. */
  lemma SitemapRoundTrip(baseUrl: string, entries: seq<Entry>)
    ensures var read := ParseSitemap(RenderSitemap(baseUrl, entries));
            && read.Some? && |read.value| == |entries|
            && forall k :: 0 <= k < |entries| ==>
                 && read.value[k].url == Origin(baseUrl) + entries[k].path
                 && read.value[k].lastmod == (if entries[k].lastmod == Some("") then None else entries[k].lastmod)
  {
    hide ParseSitemap, ReadUrl, ReadAll, HEAD, TAIL;
    var origin := Origin(baseUrl);
    var doc := RenderSitemap(baseUrl, entries);
    if entries == [] {
      assert RenderUrls(origin, entries) == [] && Locations(origin, entries) == [];
      assert doc == HEAD + ("\n" + TAIL);
      BodyRead("\n" + TAIL);
    } else {
      var lines := Lines(origin, entries);
      GluedIsLines(RenderUrls(origin, entries), lines);
      var body := Concat(lines) + TAIL;
      assert doc == HEAD + body;
      BodyRead(body);
      RenderUrlStart(origin, entries[0]);
      assert body[0] == lines[0][0] == ' ';
      ReadLines(origin, entries, |body|);
    }
  }

  /** The origin has no slash at its end, and drops nothing but slashes. */
  lemma {:induction false} OriginDropsSlashes(baseUrl: string)
    ensures Origin(baseUrl) <= baseUrl
    ensures Origin(baseUrl) != [] ==> Origin(baseUrl)[|Origin(baseUrl)| - 1] != '/'
    ensures forall k :: |Origin(baseUrl)| <= k < |baseUrl| ==> baseUrl[k] == '/'
  {
    if baseUrl != [] && baseUrl[|baseUrl| - 1] == '/' {
      OriginDropsSlashes(baseUrl[..|baseUrl| - 1]);
    }
  }
}
