/** The two configuration strings: the build-time generator that writes
    them into `config.js`, and the start-up guard that refuses missing or
    placeholder values before any backend client is created. */
module SupabaseConfig {
  import opened Options
  import opened JsText

  // ---------------------------------------------------------------------
  // Start-up guard

  const Placeholder := "YOUR_SUPABASE"

  /** The guard of `getSupabaseClient`: a value is missing when it is empty
      or still holds the template placeholder. */
  predicate ConfigMissing(url: string, key: string) {
    url == "" || key == "" || Contains(url, Placeholder) || Contains(key, Placeholder)
  }

  /** What start-up does: show the warning and issue no request at all, or
      create a client for the two values. */
  datatype Startup = ShowConfigWarning | CreateClient(url: string, key: string)

  function Start(url: string, key: string): (r: Startup)
    ensures r.ShowConfigWarning? <==> ConfigMissing(url, key)
    ensures r.CreateClient? ==> r.url == url && r.key == key && url != "" && key != ""
  {
    if ConfigMissing(url, key) then ShowConfigWarning else CreateClient(url, key)
  }

  // ---------------------------------------------------------------------
  // Build-time generator

  const UrlPrefix := "export const SUPABASE_URL = '"
  const KeyPrefix := "';\nexport const SUPABASE_ANON_KEY = '"
  const LineEnd := "';\n"

  /** The generated module: two `export const` lines, URL first, each value
      between single quotes and each line ending in a newline. */
  function ConfigContent(url: string, key: string): string {
    UrlPrefix + (url + (KeyPrefix + (key + LineEnd)))
  }

  /** The result of the build script: exit code 1 before anything is
      written, or the content written to `config.js`. */
  datatype BuildOutcome = ExitWithError(code: int) | WriteConfig(content: string)

  /** `generate-config.js` given the two environment variables (None when
      unset). Only presence is checked. */
  function GenerateConfig(url: Option<string>, key: Option<string>): (r: BuildOutcome)
    ensures r.ExitWithError? <==> !Truthy(url) || !Truthy(key)
    ensures r.ExitWithError? ==> r.code == 1
    ensures r.WriteConfig? ==> r.content == ConfigContent(url.value, key.value)
  {
    if !Truthy(url) || !Truthy(key) then ExitWithError(1)
    else WriteConfig(ConfigContent(url.value, key.value))
  }

  // ---------------------------------------------------------------------
  // Reading the generated module back

  /** A character that may appear inside a single-quoted JavaScript literal
      without ending it or starting an escape. */
  predicate PlainChar(c: char) {
    c != '\'' && c != '\\' && c != '\n' && c != '\r'
  }

  predicate PlainText(s: string) {
    forall i :: 0 <= i < |s| ==> PlainChar(s[i])
  }

  /** The longest plain prefix of `s`: the body of a literal that starts
      just before `s`. */
  function LiteralBody(s: string): (r: string)
    ensures |r| <= |s| && r == s[..|r|]
    ensures PlainText(r)
    ensures |r| == |s| || !PlainChar(s[|r|])
    decreases |s|
  {
    if s != [] && PlainChar(s[0]) then [s[0]] + LiteralBody(s[1..]) else []
  }

  lemma {:induction false} LiteralBodyStops(body: string, rest: string)
    requires PlainText(body)
    requires rest != [] && !PlainChar(rest[0])
    ensures LiteralBody(body + rest) == body
    decreases |body|
  {
    if body != [] {
      assert (body + rest)[1..] == body[1..] + rest;
      LiteralBodyStops(body[1..], rest);
    }
  }

  /** The rest of `s` after the fixed text `lit`, if `s` starts with it. */
  function Expect(s: string, lit: string): (r: Option<string>)
    ensures r.Some? <==> StartsWith(s, lit)
    ensures r.Some? ==> s == lit + r.value
  {
    if StartsWith(s, lit) then Some(s[|lit|..]) else None
  }

  /** Extracts the two plain literals of a text laid out as
      `open` literal `mid` literal `close`; None for any other text. */
  function ParseBetween(s: string, open: string, mid: string, close: string): (r: Option<(string, string)>)
    ensures r.Some? ==> s == open + (r.value.0 + (mid + (r.value.1 + close)))
    ensures r.Some? ==> PlainText(r.value.0) && PlainText(r.value.1)
  {
    match Expect(s, open)
    case None => None
    case Some(rest) =>
      var first := LiteralBody(rest);
      match Expect(rest[|first|..], mid)
      case None => None
      case Some(rest2) =>
        var second := LiteralBody(rest2);
        if rest2[|second|..] != close then None
        else
          SplitAt(rest, |first|);
          SplitAt(rest2, |second|);
          Some((first, second))
  }

  /** Reads the two values back from a generated module; None when the text
      does not have exactly that shape. */
  function ParseConfig(s: string): (r: Option<(string, string)>)
    ensures r.Some? ==> s == ConfigContent(r.value.0, r.value.1)
    ensures r.Some? ==> PlainText(r.value.0) && PlainText(r.value.1)
  {
    ParseBetween(s, UrlPrefix, KeyPrefix, LineEnd)
  }

  lemma SplitAt(s: string, n: nat)
    requires n <= |s|
    ensures s == s[..n] + s[n..]
  {
  }

  lemma ExpectPrefix(lit: string, rest: string)
    ensures Expect(lit + rest, lit) == Some(rest)
  {
  }

  /** Plain literals between separators that each start by closing the
      literal read back unchanged. */
  lemma BetweenRoundTrip(open: string, mid: string, close: string, first: string, second: string)
    requires PlainText(first) && PlainText(second)
    requires mid != [] && !PlainChar(mid[0])
    requires close != [] && !PlainChar(close[0])
    ensures ParseBetween(open + (first + (mid + (second + close))), open, mid, close) == Some((first, second))
  {
    var rest2 := second + close;
    var rest := first + (mid + rest2);
    ExpectPrefix(open, rest);
    LiteralBodyStops(first, mid + rest2);
    assert rest[|first|..] == mid + rest2;
    ExpectPrefix(mid, rest2);
    LiteralBodyStops(second, close);
    assert rest2[|second|..] == close;
  }

  /** Values without quote, backslash or line break read back unchanged. */
  lemma ConfigRoundTrip(url: string, key: string)
    requires PlainText(url) && PlainText(key)
    ensures ParseConfig(ConfigContent(url, key)) == Some((url, key))
  {
    BetweenRoundTrip(UrlPrefix, KeyPrefix, LineEnd, url, key);
  }

  /** The reader accepts only plain literals, so a value holding a quote,
      backslash or line break is never read back from any text. */
  lemma UnplainValueBreaksRoundTrip(url: string, key: string, s: string)
    requires !PlainText(url) || !PlainText(key)
    ensures ParseConfig(s) != Some((url, key))
  {
  }

  /** The generator writes both values verbatim between the quotes, with no
      escaping: each value occurs unchanged right after its opening quote. */
  lemma ValuesWrittenVerbatim(url: string, key: string)
    ensures var s := ConfigContent(url, key);
      && s[|UrlPrefix| - 1] == '\''
      && SliceAt(s, url, |UrlPrefix|)
      && s[|UrlPrefix| + |url| + |KeyPrefix| - 1] == '\''
      && SliceAt(s, key, |UrlPrefix| + |url| + |KeyPrefix|)
  {
    var s := ConfigContent(url, key);
    var n := |UrlPrefix| + |url| + |KeyPrefix|;
    assert s[..|UrlPrefix|] == UrlPrefix;
    assert s[|UrlPrefix|..] == url + (KeyPrefix + (key + LineEnd));
    assert s[|UrlPrefix| + |url|..] == KeyPrefix + (key + LineEnd);
    assert s[n..] == key + LineEnd;
    assert s[n - 1] == KeyPrefix[|KeyPrefix| - 1];
  }

  // ---------------------------------------------------------------------
  // Build guard against start-up guard

  /** The build only checks presence: any non-empty values are written
      out, and the page refuses the ones that still hold the placeholder. */
  lemma PlaceholderPassesBuildOnly(url: string, key: string)
    requires url != "" && key != ""
    requires Contains(url, Placeholder) || Contains(key, Placeholder)
    ensures GenerateConfig(Some(url), Some(key)).WriteConfig?
    ensures ConfigMissing(url, key)
  {
  }

  /** For any values the build writes and the page reads back, the page
      refuses them exactly when one of them holds the placeholder. */
  lemma BuildThenStart(url: string, key: string)
    requires PlainText(url) && PlainText(key)
    requires GenerateConfig(Some(url), Some(key)).WriteConfig?
    ensures var parsed := ParseConfig(GenerateConfig(Some(url), Some(key)).content);
      && parsed.Some?
      && (Start(parsed.value.0, parsed.value.1).ShowConfigWarning?
          <==> Contains(url, Placeholder) || Contains(key, Placeholder))
  {
    ConfigRoundTrip(url, key);
  }
}
