/**
 * The Spotify resolver: a client-credentials token request, then a track request for
 * the last path segment of the track URL. Both HTTP endpoints are given as functions
 * from the request to the response; the client id and secret are the environment
 * variables, which may be unset.
 */
module Spotify {
  import opened Common
  import opened Strings
  import opened Encoding

  const SPOTIFY_API_URL := "https://api.spotify.com/v1"
  const TOKEN_URL := "https://accounts.spotify.com/api/token"
  const FORM_CONTENT_TYPE := "application/x-www-form-urlencoded"
  /** The body of a client credentials grant (section 4.4.2 of RFC 6749). */
  const CLIENT_CREDENTIALS_BODY := "grant_type=client_credentials"

  /** `trackUrl.split('/').pop()`: the text after the last `/`, or the whole text when there is none. */
  function TrackId(trackUrl: string): (id: string)
    ensures !Includes(id, "/")
    ensures !Includes(trackUrl, "/") ==> id == trackUrl
    ensures Includes(trackUrl, "/") ==> exists i :: OccursAt(trackUrl, "/", i) && trackUrl == trackUrl[..i] + "/" + id
  {
    LastPieceAfterSeparator(trackUrl, "/");
    LastPiece(trackUrl, "/")
  }

  /** A path of `/`-free segments yields its last segment, query string and all. */
  lemma TrackIdOfPath(segments: seq<string>)
    requires |segments| >= 1
    requires forall k :: 0 <= k < |segments| ==> !Includes(segments[k], "/")
    ensures TrackId(Join(segments, "/")) == segments[|segments| - 1]
  {
    assert BorderFree("/");
    LastPieceOfJoin(segments, "/");
  }

  /**
   * The Basic authentication credentials of section 2 of RFC 7617: `Basic `, then the
   * base 64 encoding (section 4 of RFC 4648) of the UTF-8 bytes of `user-id:password`.
   */
  function BasicCredentials(userId: string, password: string): string {
    "Basic " + Base64Encode(Utf8Encode(userId + ":" + password))
  }

  /** A server's reading of Basic credentials: decode, then split at the first colon. */
  function ParseBasicCredentials(header: string): Option<(string, string)> {
    if !StartsWith(header, "Basic ") then None
    else match Base64Decode(header[6..])
      case None => None
      case Some(bytes) =>
        match Utf8Decode(bytes)
        case None => None
        case Some(pass) =>
          match IndexOf(pass, ":")
          case None => None
          case Some(i) => Some((pass[..i], pass[i + 1..]))
  }

  /** Credentials whose user id has no colon are read back as the same user id and password. */
  lemma BasicCredentialsRoundTrip(userId: string, password: string)
    requires ':' !in userId
    ensures ParseBasicCredentials(BasicCredentials(userId, password)) == Some((userId, password))
  {
    var pass := userId + ":" + password;
    var header := BasicCredentials(userId, password);
    assert header[..6] == "Basic " && header[6..] == Base64Encode(Utf8Encode(pass));
    Base64RoundTrip(Utf8Encode(pass));
    Utf8RoundTrip(pass);
    var n := |userId|;
    forall k | 0 <= k < n ensures !OccursAt(pass, ":", k) {
      assert pass[k] == userId[k];
      assert pass[k..k + 1] == [pass[k]];
    }
    assert pass[n..n + 1] == ":";
    IndexOfIsFirstOccurrence(pass, ":", n);
    assert pass[..n] == userId && pass[n + 1..] == password;
  }

  /** The `Authorization` header of the token request: `SPOTIFY_CLIENT_ID + ':' + SPOTIFY_CLIENT_SECRET`, where an unset variable reads `undefined`. */
  function TokenAuthorization(clientId: Option<string>, clientSecret: Option<string>): string {
    BasicCredentials(Stringify(clientId), Stringify(clientSecret))
  }

  /** An HTTP request as `fetch` is given it; `body` is absent for a GET. */
  datatype Request = Request(httpMethod: string, url: string, headers: seq<(string, string)>, body: Option<string>)

  /** The token request of `getAccessToken`. */
  function TokenRequest(clientId: Option<string>, clientSecret: Option<string>): Request {
    Request("POST", TOKEN_URL,
            [("Content-Type", FORM_CONTENT_TYPE), ("Authorization", TokenAuthorization(clientId, clientSecret))],
            Some(CLIENT_CREDENTIALS_BODY))
  }

  /**
   * The token request is a client credentials grant: a form-encoded POST to the token
   * endpoint whose Basic credentials carry the client id and secret, `undefined` standing
   * in for an unset one.
   */
  lemma TokenRequestCarriesCredentials(clientId: Option<string>, clientSecret: Option<string>)
    requires ':' !in Stringify(clientId)
    ensures var r := TokenRequest(clientId, clientSecret);
            && r.httpMethod == "POST" && r.url == TOKEN_URL
            && r.body == Some("grant_type=client_credentials")
            && ("Content-Type", "application/x-www-form-urlencoded") in r.headers
            && exists h :: h in r.headers && h.0 == "Authorization"
                 && ParseBasicCredentials(h.1) == Some((Stringify(clientId), Stringify(clientSecret)))
  {
    var r := TokenRequest(clientId, clientSecret);
    BasicCredentialsRoundTrip(Stringify(clientId), Stringify(clientSecret));
    assert r.headers[1] in r.headers;
  }

  /** With the client id unset the server is sent the user id `undefined`. */
  lemma UnsetClientIdIsSentAsUndefined(clientSecret: Option<string>)
    ensures ParseBasicCredentials(TokenAuthorization(None, clientSecret)) == Some(("undefined", Stringify(clientSecret)))
  {
    BasicCredentialsRoundTrip("undefined", Stringify(clientSecret));
  }

  /**
   * What the awaited token `fetch` and `response.json()` produce: `TokenFailed` for a
   * rejection, else the status and `data.access_token`, which may be missing.
   */
  datatype TokenResponse = TokenFailed | TokenReply(ok: bool, accessToken: Option<string>)

  /** `getAccessToken()`: the token of an ok response; null (None) on a failure or a non-ok status. */
  function GetAccessToken(clientId: Option<string>, clientSecret: Option<string>, tokenApi: Request -> TokenResponse)
    : (token: Option<string>)
    ensures token.Some? ==>
              && tokenApi(TokenRequest(clientId, clientSecret)).TokenReply?
              && tokenApi(TokenRequest(clientId, clientSecret)).ok
              && tokenApi(TokenRequest(clientId, clientSecret)).accessToken == token
    ensures tokenApi(TokenRequest(clientId, clientSecret)).TokenReply? && tokenApi(TokenRequest(clientId, clientSecret)).ok ==>
              token == tokenApi(TokenRequest(clientId, clientSecret)).accessToken
    ensures tokenApi(TokenRequest(clientId, clientSecret)) == TokenFailed ==> token.None?
  {
    match tokenApi(TokenRequest(clientId, clientSecret))
    case TokenFailed => None
    case TokenReply(ok, accessToken) => if !ok then None else accessToken
  }

  /** `!accessToken` is false only for a present, non-empty token. */
  predicate Truthy(token: Option<string>) {
    token.Some? && token.value != []
  }

  /** The track request: `${SPOTIFY_API_URL}/tracks/<id>` with a Bearer token. */
  function TrackRequest(trackUrl: string, accessToken: string): Request {
    Request("GET", SPOTIFY_API_URL + "/tracks/" + TrackId(trackUrl), [("Authorization", "Bearer " + accessToken)], None)
  }

  /** The fields of a track object the bot reads: `name`, `external_urls.spotify`, `duration_ms`, `album.images[*].url`. */
  datatype Track = Track(name: string, spotifyUrl: string, durationMs: int, albumImageUrls: seq<string>)

  /** What the awaited track `fetch` and `response.json()` produce; `TrackFailed` also covers a missing `external_urls` or `album`. */
  datatype TrackResponse = TrackFailed | TrackReply(ok: bool, track: Track)

  /**
   * `getTrackInfo(trackUrl)`: the song and the requests made, in order. A falsy token
   * ends it after the token request; a failure, a non-ok status or an album without
   * images (reading `images[0].url` throws) gives null. It never rejects.
   */
  function GetTrackInfo(trackUrl: string, clientId: Option<string>, clientSecret: Option<string>,
                        tokenApi: Request -> TokenResponse, trackApi: Request -> TrackResponse)
    : (r: (Lookup, seq<Request>))
    ensures r.0 != Threw
    ensures 1 <= |r.1| <= 2 && r.1[0] == TokenRequest(clientId, clientSecret)
    ensures |r.1| == 2 <==> Truthy(GetAccessToken(clientId, clientSecret, tokenApi))
    ensures |r.1| == 2 ==>
              && r.1[1].url == SPOTIFY_API_URL + "/tracks/" + TrackId(trackUrl)
              && r.1[1].headers == [("Authorization", "Bearer " + GetAccessToken(clientId, clientSecret, tokenApi).value)]
    ensures r.0.Found? <==>
              && |r.1| == 2
              && trackApi(r.1[1]).TrackReply? && trackApi(r.1[1]).ok
              && |trackApi(r.1[1]).track.albumImageUrls| > 0
    ensures r.0.Found? ==>
              var t := trackApi(r.1[1]).track;
              r.0.song == Song(t.name, t.spotifyUrl, Millis(t.durationMs), t.albumImageUrls[0])
  {
    var tokenRequest := TokenRequest(clientId, clientSecret);
    var accessToken := GetAccessToken(clientId, clientSecret, tokenApi);
    if !Truthy(accessToken) then (NotFound, [tokenRequest])
    else
      var trackRequest := TrackRequest(trackUrl, accessToken.value);
      var requests := [tokenRequest, trackRequest];
      match trackApi(trackRequest)
      case TrackFailed => (NotFound, requests)
      case TrackReply(ok, data) =>
        if !ok || |data.albumImageUrls| == 0 then (NotFound, requests)
        else (Found(Song(data.name, data.spotifyUrl, Millis(data.durationMs), data.albumImageUrls[0])), requests)
  }

  /** A failed token request, or an ok one whose token is missing or empty, means no track request and null. */
  lemma NoTokenNoTrackRequest(trackUrl: string, clientId: Option<string>, clientSecret: Option<string>,
                              tokenApi: Request -> TokenResponse, trackApi: Request -> TrackResponse)
    requires || tokenApi(TokenRequest(clientId, clientSecret)) == TokenFailed
             || !tokenApi(TokenRequest(clientId, clientSecret)).ok
             || !Truthy(tokenApi(TokenRequest(clientId, clientSecret)).accessToken)
    ensures GetTrackInfo(trackUrl, clientId, clientSecret, tokenApi, trackApi) == (NotFound, [TokenRequest(clientId, clientSecret)])
  {
  }
}
