/** `lib/googleAuth.js`: the OAuth client configuration, the `Cookie` header parser, the
    `Set-Cookie` writer for the Google tokens and the authentication check the calendar
    handlers run first. The tokens are represented by their JSON text; `isJson` stands for
    `JSON.parse` succeeding on that text. */
module GoogleAuth {
  import opened Wrappers
  import opened Http
  import Text
  import Seqs
  import UriComponent

  const TokenCookie := "google_tokens"
  const CallbackPath := "/api/auth/google/callback"
  const LocalOrigin := "http://localhost:3000"

  datatype OAuthClient = OAuthClient(clientId: string, clientSecret: string, redirectUri: string)

  /** `getOAuth2Client`: no client unless both the id and the secret are set. */
  function OAuth2Client(env: ServerEnv): (r: Option<OAuthClient>)
    ensures r.None? <==> env.googleClientId == "" || env.googleClientSecret == ""
    ensures r.Some? ==> (r.value.clientId == env.googleClientId
                      && r.value.clientSecret == env.googleClientSecret)
    ensures r.Some? && env.googleRedirectUri != "" ==> r.value.redirectUri == env.googleRedirectUri
    ensures r.Some? && env.googleRedirectUri == "" ==>
              r.value.redirectUri == (if env.vercelUrl != "" then env.vercelUrl else LocalOrigin) + CallbackPath
  {
    if env.googleClientId == "" || env.googleClientSecret == "" then None
    else
      var origin := if env.vercelUrl != "" then env.vercelUrl else LocalOrigin;
      var redirect := if env.googleRedirectUri != "" then env.googleRedirectUri else origin + CallbackPath;
      Some(OAuthClient(env.googleClientId, env.googleClientSecret, redirect))
  }

  // ----- Reading the Cookie header -----

  /** `cookie.trim().split('=')` destructured as `[key, value]`: the text before the first
      `=` and the text up to the next one (empty when there is none). */
  function Entry(segment: string): (string, string) {
    var parts := Text.Split(Text.Trim(segment), '=');
    (parts[0], if |parts| > 1 then parts[1] else "")
  }

  /** Every key and every value of the map is non-empty. */
  predicate NoEmptyEntries(m: map<string, string>) {
    forall k :: k in m ==> |k| > 0 && |m[k]| > 0
  }

  /** The `reduce` over the segments: entries with a key and a value are decoded into the
      map, a later key overwriting an earlier one; `None` when a decode throws. */
  function Collect(segments: seq<string>, acc: map<string, string>): Option<map<string, string>> {
    if |segments| == 0 then Some(acc)
    else
      var (key, value) := Entry(segments[0]);
      if key != "" && value != "" then
        match UriComponent.Decode(value)
        case None => None
        case Some(v) => Collect(segments[1..], acc[key := v])
      else Collect(segments[1..], acc)
  }

  /** Collecting only adds to the map, and only entries with a key and a value. */
  lemma {:induction false} CollectKeeps(segments: seq<string>, acc: map<string, string>)
    ensures Collect(segments, acc).Some? ==> acc.Keys <= Collect(segments, acc).value.Keys
    ensures Collect(segments, acc).Some? && NoEmptyEntries(acc) ==>
              NoEmptyEntries(Collect(segments, acc).value)
  {
    if |segments| > 0 {
      var (key, value) := Entry(segments[0]);
      if key != "" && value != "" {
        var decoded := UriComponent.Decode(value);
        if decoded.Some? {
          AddEntry(acc, key, decoded.value);
          CollectKeeps(segments[1..], acc[key := decoded.value]);
        }
      } else {
        CollectKeeps(segments[1..], acc);
      }
    }
  }

  /** A segment with a key and a value that cannot be decoded fails the whole parse,
      wherever it stands: `decodeURIComponent` throws out of the `reduce`. */
  lemma UndecodableFailsParse(segments: seq<string>, acc: map<string, string>, i: int)
    requires 0 <= i < |segments|
    requires Entry(segments[i]).0 != "" && Entry(segments[i]).1 != ""
    requires UriComponent.Decode(Entry(segments[i]).1).None?
    ensures Collect(segments, acc).None?
  {
    assert segments == segments[..i] + segments[i..];
    CollectAppend(segments[..i], segments[i..], acc);
    match Collect(segments[..i], acc)
    case None =>
    case Some(m) => assert segments[i..][0] == segments[i];
  }

  /** Recording a non-empty value under a non-empty key keeps every key and keeps the map
      free of empty entries. */
  lemma AddEntry(acc: map<string, string>, key: string, value: string)
    requires key != "" && value != ""
    ensures acc.Keys <= acc[key := value].Keys
    ensures NoEmptyEntries(acc) ==> NoEmptyEntries(acc[key := value])
  {
  }

  /** Collecting over two runs of segments is collecting the first, then the second. */
  lemma {:induction false} CollectAppend(a: seq<string>, b: seq<string>, acc: map<string, string>)
    ensures Collect(a + b, acc) ==
      (match Collect(a, acc) case None => None case Some(m) => Collect(b, m))
  {
    if |a| == 0 {
      assert a + b == b;
    } else {
      assert (a + b)[0] == a[0] && (a + b)[1..] == a[1..] + b;
      var (key, value) := Entry(a[0]);
      if key != "" && value != "" {
        match UriComponent.Decode(value)
        case None =>
        case Some(v) => CollectAppend(a[1..], b, acc[key := v]);
      } else {
        CollectAppend(a[1..], b, acc);
      }
    }
  }

  /** The cookies of a `Cookie` header (`req.headers.cookie || ''`). */
  function ParseCookies(header: string): Option<map<string, string>> {
    Collect(Text.Split(header, ';'), map[])
  }

  /** `getTokensFromCookies`: the tokens, or `None` (JavaScript's `null`) when the cookie is
      missing or empty, when a cookie value cannot be decoded, or when the text is not JSON;
      it never throws. */
  function TokensFromCookies(header: string, isJson: string -> bool): (r: Option<string>)
    ensures ParseCookies(header).None? ==> r.None?
    ensures ParseCookies(header).Some? && TokenCookie !in ParseCookies(header).value ==> r.None?
    ensures r.Some? ==> (isJson(r.value) && ParseCookies(header).Some?
                      && TokenCookie in ParseCookies(header).value
                      && ParseCookies(header).value[TokenCookie] == r.value)
    ensures ParseCookies(header).Some? && TokenCookie in ParseCookies(header).value
            && isJson(ParseCookies(header).value[TokenCookie]) ==>
              r == Some(ParseCookies(header).value[TokenCookie])
  {
    CollectKeeps(Text.Split(header, ';'), map[]);
    match ParseCookies(header)
    case None => None
    case Some(cookies) =>
      if TokenCookie in cookies && cookies[TokenCookie] != "" && isJson(cookies[TokenCookie])
      then Some(cookies[TokenCookie])
      else None
  }

  // ----- Writing the Set-Cookie header -----

  /** The `name=value` pair `setTokensInCookies` writes. */
  function CookiePair(tokensJson: string): string {
    TokenCookie + "=" + UriComponent.Encode(tokensJson)
  }

  /** `setTokensInCookies`: the attributes joined by `'; '` after the empty ones are
      filtered out, so `Secure` appears only when `VERCEL_URL` is set and no segment is empty. */
  function SetCookieHeader(tokensJson: string, vercelUrl: string): (r: string)
    ensures vercelUrl != "" ==>
      r == CookiePair(tokensJson) + "; " + "Path=/" + "; " + "SameSite=Lax" + "; " + "Secure"
           + "; " + "Max-Age=31536000"
    ensures vercelUrl == "" ==>
      r == CookiePair(tokensJson) + "; " + "Path=/" + "; " + "SameSite=Lax"
           + "; " + "Max-Age=31536000"
  {
    var secure := if vercelUrl != "" then "Secure" else "";
    JoinKept(CookiePair(tokensJson), "Path=/", "SameSite=Lax", secure, "Max-Age=31536000", "; ");
    Text.Join(Seqs.Filter([CookiePair(tokensJson), "Path=/", "SameSite=Lax", secure, "Max-Age=31536000"],
                          NonEmpty), "; ")
  }

  /** The `filter(Boolean)` test on a text. */
  predicate NonEmpty(o: string) { o != "" }

  /** Filtering then joining five attributes whose only candidate for emptiness is the
      fourth: the fourth and its separator appear exactly when it is non-empty. */
  lemma JoinKept(a: string, b: string, c: string, d: string, e: string, sep: string)
    requires a != "" && b != "" && c != "" && e != ""
    ensures Text.Join(Seqs.Filter([a, b, c, d, e], NonEmpty), sep)
         == if d != "" then a + sep + b + sep + c + sep + d + sep + e else a + sep + b + sep + c + sep + e
  {
    Seqs.FilterFive(a, b, c, d, e, NonEmpty);
    if d != "" {
      Text.JoinFive(a, b, c, d, e, sep);
    } else {
      Text.JoinFour(a, b, c, e, sep);
    }
  }

  // ----- Round trip -----

  /** The pair written for the tokens is one segment without surrounding whitespace. */
  lemma {:induction false} PairIsOneSegment(tokensJson: string)
    requires tokensJson != ""
    ensures Text.Split(CookiePair(tokensJson), ';') == [CookiePair(tokensJson)]
    ensures Text.Trim(CookiePair(tokensJson)) == CookiePair(tokensJson)
  {
    PairFacts(tokensJson);
    Text.SplitWithoutSeparator(CookiePair(tokensJson), ';');
    Text.TrimOfTrimmed(CookiePair(tokensJson));
  }

  /** The pair's key is the cookie name and its value the encoded tokens. */
  lemma {:induction false} PairEntry(tokensJson: string)
    requires tokensJson != ""
    ensures Entry(CookiePair(tokensJson)) == (TokenCookie, UriComponent.Encode(tokensJson))
  {
    PairFacts(tokensJson);
    TokenCookieIsPlain();
    Text.TrimOfTrimmed(CookiePair(tokensJson));
    EntryOfPair(TokenCookie, UriComponent.Encode(tokensJson));
  }

  /** What the written pair is made of: no `;`, no surrounding whitespace, and a value
      without `=`. */
  lemma PairFacts(tokensJson: string)
    requires tokensJson != ""
    ensures ';' !in CookiePair(tokensJson) && Text.IsTrimmed(CookiePair(tokensJson))
    ensures '=' !in UriComponent.Encode(tokensJson)
  {
    var enc := UriComponent.Encode(tokensJson);
    TokenCookieIsPlain();
    UriComponent.EncodedHasNoDelimiters(tokensJson);
    PlainPair(TokenCookie, enc);
  }

  /** The cookie name holds no delimiter and does not start with whitespace. */
  lemma TokenCookieIsPlain()
    ensures |TokenCookie| > 0 && !Text.IsWhitespace(TokenCookie[0])
    ensures ';' !in TokenCookie && '=' !in TokenCookie
  {
  }

  /** `key=value` from delimiter-free parts holds no `;` and is trimmed when the key does
      not start and the value does not end with whitespace. */
  lemma PlainPair(key: string, value: string)
    requires key != "" && value != "" && ';' !in key && ';' !in value
    requires !Text.IsWhitespace(key[0]) && !Text.IsWhitespace(value[|value| - 1])
    ensures ';' !in key + "=" + value && Text.IsTrimmed(key + "=" + value)
  {
    var pair := key + "=" + value;
    assert pair[0] == key[0] && pair[|pair| - 1] == value[|value| - 1];
    assert ';' !in key + "=";
  }

  /** A trimmed `key=value` with no other `=` reads as that key and value. */
  lemma {:induction false} EntryOfPair(key: string, value: string)
    requires '=' !in key && '=' !in value
    requires Text.Trim(key + "=" + value) == key + "=" + value
    ensures Entry(key + "=" + value) == (key, value)
  {
    SplitPair(key, value);
  }

  /** `key=value` splits on `=` into the key and the value when neither holds `=`. */
  lemma {:induction false} SplitPair(key: string, value: string)
    requires '=' !in key && '=' !in value
    ensures Text.Split(key + "=" + value, '=') == [key, value]
  {
    assert key + "=" + value == key + ['='] + value;
    Text.SplitAround(key, '=', value);
    Text.SplitWithoutSeparator(key, '=');
    Text.SplitWithoutSeparator(value, '=');
  }

  /** Collecting a segment that reads as the written pair records the tokens under the
      cookie name. */
  lemma {:induction false} CollectPairSegment(segment: string, tokensJson: string, acc: map<string, string>)
    requires tokensJson != "" && UriComponent.IsAscii(tokensJson)
    requires Entry(segment) == (TokenCookie, UriComponent.Encode(tokensJson))
    ensures Collect([segment], acc) == Some(acc[TokenCookie := tokensJson])
  {
    UriComponent.DecodeEncode(tokensJson);
    var segments := [segment];
    assert segments[1..] == [];
  }

  /** The pair after the `'; '` separator, leading space included, is still one segment
      reading as the pair. */
  lemma {:induction false} SpacedPair(tokensJson: string)
    requires tokensJson != ""
    ensures Text.Split(" " + CookiePair(tokensJson), ';') == [" " + CookiePair(tokensJson)]
    ensures Entry(" " + CookiePair(tokensJson)) == (TokenCookie, UriComponent.Encode(tokensJson))
  {
    var pair := CookiePair(tokensJson);
    PairFacts(tokensJson);
    PairEntry(tokensJson);
    assert ';' !in " " + pair;
    Text.SplitWithoutSeparator(" " + pair, ';');
    Text.TrimLeadingWhitespace(" ", pair);
  }

  /** A `Cookie` header holding just the pair `setTokensInCookies` wrote reads back the
      tokens it was given. */
  lemma {:induction false} CookieRoundTrip(tokensJson: string, isJson: string -> bool)
    requires tokensJson != "" && UriComponent.IsAscii(tokensJson) && isJson(tokensJson)
    ensures TokensFromCookies(CookiePair(tokensJson), isJson) == Some(tokensJson)
  {
    PairIsOneSegment(tokensJson);
    PairEntry(tokensJson);
    CollectPairSegment(CookiePair(tokensJson), tokensJson, map[]);
  }

  /** Appending the written pair to any readable `Cookie` header reads back the tokens it was
      given, whatever cookies come before it, an older `google_tokens` included. */
  lemma {:induction false} CookieRoundTripAfter(header: string, tokensJson: string, isJson: string -> bool)
    requires ParseCookies(header).Some?
    requires tokensJson != "" && UriComponent.IsAscii(tokensJson) && isJson(tokensJson)
    ensures TokensFromCookies(header + "; " + CookiePair(tokensJson), isJson) == Some(tokensJson)
  {
    SpacedPair(tokensJson);
    PairFacts(tokensJson);
    ParseAppended(header, CookiePair(tokensJson));
    CollectPairSegment(" " + CookiePair(tokensJson), tokensJson, ParseCookies(header).value);
  }

  /** `'; '` then a segment without `;` adds exactly one segment to the header's. */
  lemma {:induction false} SplitAppended(header: string, segment: string)
    requires ';' !in segment
    ensures Text.Split(header + "; " + segment, ';') == Text.Split(header, ';') + [" " + segment]
  {
    assert header + "; " + segment == header + [';'] + (" " + segment);
    Text.SplitAround(header, ';', " " + segment);
    Text.SplitWithoutSeparator(" " + segment, ';');
  }

  /** Appending `'; '` and a segment to a readable header collects that segment on top of
      the header's cookies. */
  lemma {:induction false} ParseAppended(header: string, segment: string)
    requires ParseCookies(header).Some? && ';' !in segment
    ensures ParseCookies(header + "; " + segment)
         == Collect([" " + segment], ParseCookies(header).value)
  {
    SplitAppended(header, segment);
    CollectAppend(Text.Split(header, ';'), [" " + segment], map[]);
  }

  // ----- requireAuth -----

  datatype AuthResult =
    | Denied(status: int, message: string)
    | Granted(client: OAuthClient, tokens: string)

  /** `requireAuth`: 500 when OAuth is not configured (checked first), 401 when there are no
      tokens, otherwise the configured client with the tokens. */
  function RequireAuth(env: ServerEnv, cookieHeader: string, isJson: string -> bool): (r: AuthResult)
    ensures r.Denied? ==> r.status == 500 || r.status == 401
    ensures r.Denied? && r.status == 500 <==> OAuth2Client(env).None?
    ensures r.Denied? && r.status == 401 <==>
              OAuth2Client(env).Some? && TokensFromCookies(cookieHeader, isJson).None?
    ensures r.Granted? ==> (Some(r.client) == OAuth2Client(env)
                         && Some(r.tokens) == TokensFromCookies(cookieHeader, isJson))
  {
    match OAuth2Client(env)
    case None => Denied(500, "Google OAuth non configuré")
    case Some(client) =>
      match TokensFromCookies(cookieHeader, isJson)
      case None => Denied(401, "Non authentifié Google")
      case Some(tokens) => Granted(client, tokens)
  }
}
