/** The OAuth 1.0a (RFC 5849) client of `OAuth.cs`: the three legs of the token
    handshake and the assembly of a signed request URI.

    What the client cannot see is handed in: the nonce and the timestamp of each
    request, the HMAC-SHA1 signature generator, `HttpUtility.UrlEncode`, Uri
    resolution and rendering (`Collaborators`), and the body the server sends back
    for a URI (`fetch`). A Uri is its text. */
module OAuthClient {
  import opened Text
  import opened QueryString

  type Uri = String

  datatype Option<T> = None | Some(value: T)

  /** A request token or an access token; the role is contextual. */
  datatype OAuthToken = OAuthToken(token: String, secret: String)

  /** The consumer's own identity, fixed for the lifetime of an `OAuth` object. */
  datatype Credentials = Credentials(consumerKey: String, consumerSecret: String)

  /** `parts[1]` does not exist: the response body holds no `&`. */
  datatype ParseError = MissingTokenSegment

  datatype Result<T> = Ok(value: T) | Err(error: ParseError)

  /** `OAuthBase.SignatureTypes`; the client only ever asks for HMAC-SHA1. */
  datatype SignatureType = HmacSha1

  /** Everything the client hands to `OAuthBase.GenerateSignature`. */
  datatype SignatureInput = SignatureInput(
    uri: Uri,
    consumerKey: String,
    consumerSecret: String,
    token: String,
    tokenSecret: String,
    httpMethod: String,
    timestamp: String,
    nonce: String,
    signatureType: SignatureType)

  /** Library code the client calls but that is not part of this model. */
  datatype Collaborators = Collaborators(
    resolve: (Uri, String) -> Uri,                 // new Uri(baseUri, relative)
    render: Uri -> String,                         // Uri.ToString()
    generateSignature: SignatureInput -> String,   // OAuthBase.GenerateSignature
    urlEncode: String -> String)                   // HttpUtility.UrlEncode

  // ---------------------------------------------------------------------------
  // Token responses

  /** How both token legs read the response body: split on `&`, the secret is the
      text after the first `=` of the FIRST piece and the token that of the SECOND
      piece, whatever the names say; pieces after the second are ignored. */
  function ParseTokenResponse(body: String): (r: Result<OAuthToken>)
    ensures r.Err? <==> '&' !in body
    ensures r.Ok? ==> r.value.secret == ValueOf(body[..IndexOf(body, '&')])
  {
    var parts := Split(body, '&');
    if |parts| < 2 then Err(MissingTokenSegment)
    else
      assert body == parts[0] + "&" + Join(parts[1..], '&');
      SplitFirst(parts[0], '&', Join(parts[1..], '&'));
      Ok(OAuthToken(ValueOf(parts[1]), ValueOf(parts[0])))
  }

  /** Any body with an `&` parses, and the secret is read from the first piece. */
  lemma SecretFromFirstPiece(first: String, rest: String)
    requires '&' !in first
    ensures ParseTokenResponse(first + "&" + rest).Ok?
    ensures ParseTokenResponse(first + "&" + rest).value.secret == ValueOf(first)
  {
    var body := first + "&" + rest;
    SplitFirst(first, '&', rest);
    assert Split(body, '&') == [first] + Split(rest, '&');
  }

  /** The first two `&`-pieces decide the result; the rest of the body is ignored. */
  lemma TokenResponseByPosition(first: String, second: String, rest: String)
    requires '&' !in first && '&' !in second
    ensures ParseTokenResponse(first + "&" + second)
            == Ok(OAuthToken(ValueOf(second), ValueOf(first)))
    ensures ParseTokenResponse(first + "&" + second + "&" + rest)
            == Ok(OAuthToken(ValueOf(second), ValueOf(first)))
  {
    var short := first + "&" + second;
    SplitFirst(first, '&', second);
    var parts := Split(short, '&');
    assert parts == [first] + Split(second, '&');
    assert parts[1] == second;
    var long := first + "&" + second + "&" + rest;
    assert long == first + "&" + (second + "&" + rest);
    SplitFirst(first, '&', second + "&" + rest);
    SplitFirst(second, '&', rest);
    var longParts := Split(long, '&');
    assert longParts == [first] + ([second] + Split(rest, '&'));
    assert longParts[0] == first && longParts[1] == second;
  }

  /** For `name=value` pieces the names play no part: the secret is the value of
      the first pair and the token the value of the second, and a value keeps any
      further `=` it holds. */
  lemma TokenResponseIgnoresNames(
    name0: String, value0: String, name1: String, value1: String)
    requires PlainName(name0) && '&' !in value0
    requires PlainName(name1) && '&' !in value1
    ensures ParseTokenResponse(name0 + "=" + value0 + "&" + name1 + "=" + value1)
            == Ok(OAuthToken(value1, value0))
  {
    var first := name0 + "=" + value0;
    var second := name1 + "=" + value1;
    assert name0 + "=" + value0 + "&" + name1 + "=" + value1 == first + "&" + second;
    assert '&' !in first && '&' !in second;
    TokenResponseByPosition(first, second, "");
    ValueAfterName(name0, value0);
    ValueAfterName(name1, value1);
  }

  /** Literal fact: the two token parameter names hold neither `=` nor `&`. */
  lemma TokenNamesPlain()
    ensures PlainName("oauth_token") && PlainName("oauth_token_secret")
  {
  }

  /** The positional reading misassigns a response that lists `oauth_token`
      before `oauth_token_secret`: the fields come back swapped. */
  lemma TokenResponseSwappedOrder(token: String, secret: String)
    requires '&' !in token && '&' !in secret
    ensures ParseTokenResponse(
              "oauth_token" + "=" + token + "&" + "oauth_token_secret" + "=" + secret)
            == Ok(OAuthToken(secret, token))
  {
    TokenNamesPlain();
    TokenResponseIgnoresNames("oauth_token", token, "oauth_token_secret", secret);
  }

  // ---------------------------------------------------------------------------
  // Authorize URI

  /** The query of the authorize URI, `oauth_token_secret={0}&oauth_token={1}`:
      the secret first, then the token. */
  function AuthorizeQuery(requestToken: OAuthToken): String
  {
    "oauth_token_secret" + "=" + requestToken.secret + "&"
    + "oauth_token" + "=" + requestToken.token
  }

  /** Reading the authorize query with the token-response rule gives back the
      request token exactly when neither of its parts holds an `&`. */
  lemma AuthorizeQueryRoundTrip(t: OAuthToken)
    ensures ParseTokenResponse(AuthorizeQuery(t)) == Ok(t)
            <==> '&' !in t.token && '&' !in t.secret
  {
    if '&' !in t.secret && '&' !in t.token {
      TokenNamesPlain();
      TokenResponseIgnoresNames("oauth_token_secret", t.secret, "oauth_token", t.token);
    } else if '&' !in t.secret {
      AuthorizeQueryCutsToken(t);
    } else {
      AuthorizeQueryCutsSecret(t);
    }
  }

  /** A token holding `&` comes back cut at its first `&`. */
  lemma AuthorizeQueryCutsToken(t: OAuthToken)
    requires '&' !in t.secret && '&' in t.token
    ensures ParseTokenResponse(AuthorizeQuery(t))
            == Ok(t.(token := t.token[..IndexOf(t.token, '&')]))
  {
    var j := IndexOf(t.token, '&');
    var first := "oauth_token_secret" + "=" + t.secret;
    var second := "oauth_token" + "=" + t.token[..j];
    var rest := t.token[j + 1..];
    assert t.token == t.token[..j] + "&" + rest;
    assert AuthorizeQuery(t) == first + "&" + second + "&" + rest;
    TokenNamesPlain();
    assert '&' !in first && '&' !in second;
    TokenResponseByPosition(first, second, rest);
    ValueAfterName("oauth_token", t.token[..j]);
    ValueAfterName("oauth_token_secret", t.secret);
  }

  /** A secret holding `&` comes back cut at its first `&`. */
  lemma AuthorizeQueryCutsSecret(t: OAuthToken)
    requires '&' in t.secret
    ensures ParseTokenResponse(AuthorizeQuery(t)).Ok?
    ensures ParseTokenResponse(AuthorizeQuery(t)).value.secret
            == t.secret[..IndexOf(t.secret, '&')]
  {
    var i := IndexOf(t.secret, '&');
    var first := "oauth_token_secret" + "=" + t.secret[..i];
    var rest := t.secret[i + 1..] + "&" + "oauth_token" + "=" + t.token;
    assert t.secret == t.secret[..i] + "&" + t.secret[i + 1..];
    assert AuthorizeQuery(t) == first + "&" + rest;
    TokenNamesPlain();
    assert '&' !in first;
    SecretFromFirstPiece(first, rest);
    ValueAfterName("oauth_token_secret", t.secret[..i]);
  }

  /** The authorize query is the two-pair query of the secret and the token. */
  lemma AuthorizeQueryFormat(t: OAuthToken)
    ensures AuthorizeQuery(t)
            == FormatQuery([Parameter("oauth_token_secret", t.secret)]
                           + [Parameter("oauth_token", t.token)])
  {
    FormatQuerySnoc([Parameter("oauth_token_secret", t.secret)],
                    Parameter("oauth_token", t.token));
    FormatQuerySingle(Parameter("oauth_token_secret", t.secret));
  }

  /** What follows the base and `oauth/authorize?` (16 characters) in the
      authorize URI is the authorize query. */
  lemma AuthorizeUriQuery(base: String, t: OAuthToken)
    ensures var r := base + "oauth/authorize" + "?" + AuthorizeQuery(t);
      |base| + 16 <= |r| && r[|base| + 16..] == AuthorizeQuery(t)
  {
    var prefix := base + "oauth/authorize" + "?";
    assert |"oauth/authorize"| == 15;
    assert (prefix + AuthorizeQuery(t))[|prefix|..] == AuthorizeQuery(t);
  }

  // ---------------------------------------------------------------------------
  // Signed requests

  /** The token and token secret handed to the signer: empty when no request
      token is supplied. */
  function TokenOf(requestToken: Option<OAuthToken>): String
  {
    if requestToken.None? then "" else requestToken.value.token
  }

  function TokenSecretOf(requestToken: Option<OAuthToken>): String
  {
    if requestToken.None? then "" else requestToken.value.secret
  }

  function SignatureInputFor(
    credentials: Credentials, uri: Uri, requestToken: Option<OAuthToken>,
    nonce: String, timestamp: String): SignatureInput
  {
    SignatureInput(uri, credentials.consumerKey, credentials.consumerSecret,
                   TokenOf(requestToken), TokenSecretOf(requestToken),
                   "GET", timestamp, nonce, HmacSha1)
  }

  /** The signature as it is placed in the URI: URL-encoded once. */
  function EncodedSignature(
    credentials: Credentials, uri: Uri, requestToken: Option<OAuthToken>,
    nonce: String, timestamp: String, env: Collaborators): String
  {
    env.urlEncode(env.generateSignature(
      SignatureInputFor(credentials, uri, requestToken, nonce, timestamp)))
  }

  /** The OAuth protocol parameters in wire order; `oauth_token` only when the
      token is non-empty, the signature last. */
  function ProtocolParameters(
    consumerKey: String, token: String, nonce: String, timestamp: String,
    signature: String): seq<Parameter>
  {
    [Parameter("oauth_consumer_key", consumerKey)]
    + (if token != "" then [Parameter("oauth_token", token)] else [])
    + [Parameter("oauth_nonce", nonce)]
    + [Parameter("oauth_timestamp", timestamp)]
    + [Parameter("oauth_signature_method", "HMAC-SHA1")]
    + [Parameter("oauth_version", "1.0")]
    + [Parameter("oauth_signature", signature)]
  }

  function SignedQuery(
    credentials: Credentials, uri: Uri, requestToken: Option<OAuthToken>,
    nonce: String, timestamp: String, env: Collaborators): String
  {
    FormatQuery(ProtocolParameters(
      credentials.consumerKey, TokenOf(requestToken), nonce, timestamp,
      EncodedSignature(credentials, uri, requestToken, nonce, timestamp, env)))
  }

  /** The URI `SignRequest` builds: the rendered URI, `?`, and the signed query. */
  function SignedRequestUri(
    credentials: Credentials, uri: Uri, requestToken: Option<OAuthToken>,
    nonce: String, timestamp: String, env: Collaborators): Uri
  {
    env.render(uri) + "?" + SignedQuery(credentials, uri, requestToken, nonce, timestamp, env)
  }

  /** No value placed in the signed query holds an `&`, so the query can be read
      back pair by pair. */
  ghost predicate Unambiguous(
    credentials: Credentials, uri: Uri, requestToken: Option<OAuthToken>,
    nonce: String, timestamp: String, env: Collaborators)
  {
    && '&' !in credentials.consumerKey
    && '&' !in TokenOf(requestToken)
    && '&' !in nonce
    && '&' !in timestamp
    && '&' !in EncodedSignature(credentials, uri, requestToken, nonce, timestamp, env)
  }

  /** Literal facts about the protocol parameter names, stated once for the
      proofs that read the signed query back. */
  lemma ProtocolNamesPlain()
    ensures PlainName("oauth_consumer_key") && PlainName("oauth_token")
    ensures PlainName("oauth_nonce") && PlainName("oauth_timestamp")
  {
  }

  /** The remaining names and the two fixed values, likewise. */
  lemma MoreProtocolNamesPlain()
    ensures PlainName("oauth_signature_method") && PlainName("oauth_version")
    ensures PlainName("oauth_signature") && '&' !in "HMAC-SHA1" && '&' !in "1.0"
  {
  }

  lemma ProtocolParametersWellFormed(
    consumerKey: String, token: String, nonce: String, timestamp: String, signature: String)
    requires '&' !in consumerKey && '&' !in token && '&' !in nonce && '&' !in timestamp
    requires '&' !in signature
    ensures WellFormed(ProtocolParameters(consumerKey, token, nonce, timestamp, signature))
  {
    ProtocolNamesPlain();
    MoreProtocolNamesPlain();
    var ps := [Parameter("oauth_consumer_key", consumerKey)];
    if token != "" {
      ps := WellFormedSnoc(ps, Parameter("oauth_token", token));
    }
    ps := WellFormedSnoc(ps, Parameter("oauth_nonce", nonce));
    ps := WellFormedSnoc(ps, Parameter("oauth_timestamp", timestamp));
    ps := WellFormedSnoc(ps, Parameter("oauth_signature_method", "HMAC-SHA1"));
    ps := WellFormedSnoc(ps, Parameter("oauth_version", "1.0"));
    ps := WellFormedSnoc(ps, Parameter("oauth_signature", signature));
    assert ps == ProtocolParameters(consumerKey, token, nonce, timestamp, signature);
  }

  /** Reading the signed query back pair by pair gives exactly the protocol
      parameters that were written, in the same order. */
  lemma SignedQueryParses(
    credentials: Credentials, uri: Uri, requestToken: Option<OAuthToken>,
    nonce: String, timestamp: String, env: Collaborators)
    requires Unambiguous(credentials, uri, requestToken, nonce, timestamp, env)
    ensures ParseQuery(SignedQuery(credentials, uri, requestToken, nonce, timestamp, env))
            == ProtocolParameters(
                 credentials.consumerKey, TokenOf(requestToken), nonce, timestamp,
                 EncodedSignature(credentials, uri, requestToken, nonce, timestamp, env))
  {
    var signature := EncodedSignature(credentials, uri, requestToken, nonce, timestamp, env);
    ProtocolParametersWellFormed(
      credentials.consumerKey, TokenOf(requestToken), nonce, timestamp, signature);
    QueryRoundTrip(ProtocolParameters(
      credentials.consumerKey, TokenOf(requestToken), nonce, timestamp, signature));
  }

  /** Read back pair by pair, the signed query carries the OAuth parameters in the
      fixed wire order, with `oauth_token` second exactly when a non-empty token is
      supplied. */
  lemma SignedQueryWireOrder(
    credentials: Credentials, uri: Uri, requestToken: Option<OAuthToken>,
    nonce: String, timestamp: String, env: Collaborators)
    requires Unambiguous(credentials, uri, requestToken, nonce, timestamp, env)
    ensures Names(ParseQuery(SignedQuery(credentials, uri, requestToken, nonce, timestamp, env)))
            == ["oauth_consumer_key"]
               + (if requestToken.Some? && requestToken.value.token != ""
                  then ["oauth_token"] else [])
               + ["oauth_nonce"] + ["oauth_timestamp"] + ["oauth_signature_method"]
               + ["oauth_version"] + ["oauth_signature"]
  {
    SignedQueryParses(credentials, uri, requestToken, nonce, timestamp, env);
    ProtocolNames(credentials.consumerKey, TokenOf(requestToken), nonce, timestamp,
                  EncodedSignature(credentials, uri, requestToken, nonce, timestamp, env));
  }

  lemma ProtocolNames(
    consumerKey: String, token: String, nonce: String, timestamp: String, signature: String)
    ensures Names(ProtocolParameters(consumerKey, token, nonce, timestamp, signature))
            == ["oauth_consumer_key"] + (if token != "" then ["oauth_token"] else [])
               + ["oauth_nonce"] + ["oauth_timestamp"] + ["oauth_signature_method"]
               + ["oauth_version"] + ["oauth_signature"]
  {
  }

  /** `oauth_token` is among the parameters of the signed query if and only if a
      request token with a non-empty token is supplied, and then it carries that
      token. */
  lemma SignedQueryTokenPresence(
    credentials: Credentials, uri: Uri, requestToken: Option<OAuthToken>,
    nonce: String, timestamp: String, env: Collaborators)
    requires Unambiguous(credentials, uri, requestToken, nonce, timestamp, env)
    ensures var ps := ParseQuery(SignedQuery(credentials, uri, requestToken, nonce, timestamp, env));
      && ("oauth_token" in Names(ps) <==> requestToken.Some? && requestToken.value.token != "")
      && (forall i :: 0 <= i < |ps| && ps[i].name == "oauth_token" ==>
            requestToken.Some? && ps[i].value == requestToken.value.token)
  {
    var signature := EncodedSignature(credentials, uri, requestToken, nonce, timestamp, env);
    var qs := ProtocolParameters(credentials.consumerKey, TokenOf(requestToken), nonce,
                                 timestamp, signature);
    SignedQueryParses(credentials, uri, requestToken, nonce, timestamp, env);
    ProtocolTokenPresence(credentials.consumerKey, TokenOf(requestToken), nonce, timestamp,
                          signature);
    NamesAt(qs);
  }

  lemma ProtocolTokenPresence(
    consumerKey: String, token: String, nonce: String, timestamp: String, signature: String)
    ensures var ps := ProtocolParameters(consumerKey, token, nonce, timestamp, signature);
      && ("oauth_token" in Names(ps) <==> token != "")
      && (forall i :: 0 <= i < |ps| && ps[i].name == "oauth_token" ==> ps[i].value == token)
  {
    ProtocolNames(consumerKey, token, nonce, timestamp, signature);
    DistinctFromTokenName();
  }

  /** `oauth_token` differs from every other protocol parameter name. */
  lemma DistinctFromTokenName()
    ensures "oauth_token" != "oauth_consumer_key" && "oauth_token" != "oauth_nonce"
    ensures "oauth_token" != "oauth_timestamp" && "oauth_token" != "oauth_signature_method"
    ensures "oauth_token" != "oauth_version" && "oauth_token" != "oauth_signature"
  {
  }

  /** The last parameter is the signature, URL-encoded once, computed for a GET
      with HMAC-SHA1 over the consumer's own key and secret and the supplied token
      (empty token and secret when none is supplied). */
  lemma SignedQuerySignatureLast(
    credentials: Credentials, uri: Uri, requestToken: Option<OAuthToken>,
    nonce: String, timestamp: String, env: Collaborators)
    requires Unambiguous(credentials, uri, requestToken, nonce, timestamp, env)
    ensures var ps := ParseQuery(SignedQuery(credentials, uri, requestToken, nonce, timestamp, env));
      var token := if requestToken.Some? then requestToken.value.token else "";
      var secret := if requestToken.Some? then requestToken.value.secret else "";
      ps[|ps| - 1] == Parameter("oauth_signature", env.urlEncode(env.generateSignature(
        SignatureInput(uri, credentials.consumerKey, credentials.consumerSecret,
                       token, secret, "GET", timestamp, nonce, HmacSha1))))
  {
    SignedQueryParses(credentials, uri, requestToken, nonce, timestamp, env);
  }

  /** Whatever the values hold, the signed URI ends with `&oauth_signature=` and
      the once-encoded signature: the signature comes last and no `&` trails it. */
  lemma SignedUriEndsWithSignature(
    credentials: Credentials, uri: Uri, requestToken: Option<OAuthToken>,
    nonce: String, timestamp: String, env: Collaborators)
    ensures var u := SignedRequestUri(credentials, uri, requestToken, nonce, timestamp, env);
      var token := if requestToken.Some? then requestToken.value.token else "";
      var secret := if requestToken.Some? then requestToken.value.secret else "";
      var tail := "&" + "oauth_signature" + "=" + env.urlEncode(env.generateSignature(
        SignatureInput(uri, credentials.consumerKey, credentials.consumerSecret,
                       token, secret, "GET", timestamp, nonce, HmacSha1)));
      |tail| <= |u| && u[|u| - |tail|..] == tail
  {
    var signature := EncodedSignature(credentials, uri, requestToken, nonce, timestamp, env);
    var token := TokenOf(requestToken);
    var front := [Parameter("oauth_consumer_key", credentials.consumerKey)]
                 + (if token != "" then [Parameter("oauth_token", token)] else [])
                 + [Parameter("oauth_nonce", nonce)]
                 + [Parameter("oauth_timestamp", timestamp)]
                 + [Parameter("oauth_signature_method", "HMAC-SHA1")]
                 + [Parameter("oauth_version", "1.0")];
    var last := Parameter("oauth_signature", signature);
    assert ProtocolParameters(credentials.consumerKey, token, nonce, timestamp, signature)
           == front + [last];
    FormatQuerySnoc(front, last);
  }

  /** The handshake hands tokens on: a token read from a response body and then
      used to sign a request travels as that request's second parameter. */
  lemma ReadTokenIsSentBack(
    body: String, credentials: Credentials, uri: Uri, nonce: String, timestamp: String,
    env: Collaborators)
    requires ParseTokenResponse(body).Ok?
    requires var t := ParseTokenResponse(body).value;
      t.token != "" && Unambiguous(credentials, uri, Some(t), nonce, timestamp, env)
    ensures var t := ParseTokenResponse(body).value;
      var ps := ParseQuery(SignedQuery(credentials, uri, Some(t), nonce, timestamp, env));
      |ps| == 7 && ps[1] == Parameter("oauth_token", t.token)
  {
    var t := ParseTokenResponse(body).value;
    SignedQueryParses(credentials, uri, Some(t), nonce, timestamp, env);
    ProtocolTokenSecond(credentials.consumerKey, t.token, nonce, timestamp,
                        EncodedSignature(credentials, uri, Some(t), nonce, timestamp, env));
  }

  lemma ProtocolTokenSecond(
    consumerKey: String, token: String, nonce: String, timestamp: String, signature: String)
    requires token != ""
    ensures var ps := ProtocolParameters(consumerKey, token, nonce, timestamp, signature);
      |ps| == 7 && ps[1] == Parameter("oauth_token", token)
  {
  }

  // ---------------------------------------------------------------------------
  // The client object

  class OAuth {
    const consumerKey: String
    const consumerSecret: String

    constructor (consumerKey: String, consumerSecret: String)
      ensures this.consumerKey == consumerKey && this.consumerSecret == consumerSecret
    {
      this.consumerKey := consumerKey;
      this.consumerSecret := consumerSecret;
    }

    /** Signs a GET to `uri`, with `requestToken` when there is one, and appends
        the protocol parameters to the rendered URI one pair at a time. */
    method SignRequest(
      uri: Uri, requestToken: Option<OAuthToken>, nonce: String, timestamp: String,
      env: Collaborators)
      returns (signed: Uri)
      ensures signed == SignedRequestUri(Credentials(consumerKey, consumerSecret),
                                         uri, requestToken, nonce, timestamp, env)
    {
      var token := if requestToken.None? then "" else requestToken.value.token;
      var secret := if requestToken.None? then "" else requestToken.value.secret;

      var signature := env.generateSignature(SignatureInput(
        uri, consumerKey, consumerSecret, token, secret, "GET", timestamp, nonce, HmacSha1));
      signature := env.urlEncode(signature);

      var requestUri := env.render(uri);
      ghost var head := requestUri + "?";
      ghost var written := [Parameter("oauth_consumer_key", consumerKey)];
      requestUri := requestUri + "?" + "oauth_consumer_key" + "=" + consumerKey + "&";
      FormatQuerySingle(written[0]);
      if token != "" {
        written := Appended(head, written, requestUri, Parameter("oauth_token", token));
        requestUri := requestUri + "oauth_token" + "=" + token + "&";
      }
      written := Appended(head, written, requestUri, Parameter("oauth_nonce", nonce));
      requestUri := requestUri + "oauth_nonce" + "=" + nonce + "&";
      written := Appended(head, written, requestUri, Parameter("oauth_timestamp", timestamp));
      requestUri := requestUri + "oauth_timestamp" + "=" + timestamp + "&";
      written := Appended(head, written, requestUri,
                          Parameter("oauth_signature_method", "HMAC-SHA1"));
      requestUri := requestUri + "oauth_signature_method" + "=" + "HMAC-SHA1" + "&";
      written := Appended(head, written, requestUri, Parameter("oauth_version", "1.0"));
      requestUri := requestUri + "oauth_version" + "=" + "1.0" + "&";
      written := Finished(head, written, requestUri, Parameter("oauth_signature", signature));
      requestUri := requestUri + "oauth_signature" + "=" + signature;
      assert written == ProtocolParameters(consumerKey, token, nonce, timestamp, signature);

      signed := requestUri;
    }

    /** The request-token leg: sign a GET to `oauth/request_token` without a token
        and read the response body positionally. */
    method GetRequestToken(
      baseUri: Uri, nonce: String, timestamp: String, env: Collaborators,
      fetch: Uri -> String)
      returns (result: Result<OAuthToken>)
      ensures result == ParseTokenResponse(fetch(SignedRequestUri(
        Credentials(consumerKey, consumerSecret), env.resolve(baseUri, "oauth/request_token"),
        None, nonce, timestamp, env)))
    {
      var uri := env.resolve(baseUri, "oauth/request_token");
      uri := SignRequest(uri, None, nonce, timestamp, env);
      var queryString := fetch(uri);
      result := ParseTokenResponse(queryString);
    }

    /** The authorize URI: no signing, the request token's secret and token in a
        two-pair query after `oauth/authorize?`. */
    function GetAuthorizeUri(baseUri: Uri, requestToken: OAuthToken, env: Collaborators)
      : (r: Uri)
      ensures r == env.render(baseUri) + "oauth/authorize" + "?"
                   + FormatQuery([Parameter("oauth_token_secret", requestToken.secret)]
                                 + [Parameter("oauth_token", requestToken.token)])
      ensures |env.render(baseUri)| + 16 <= |r|
      ensures ParseTokenResponse(r[|env.render(baseUri)| + 16..]) == Ok(requestToken)
              <==> '&' !in requestToken.token && '&' !in requestToken.secret
    {
      AuthorizeQueryFormat(requestToken);
      AuthorizeUriQuery(env.render(baseUri), requestToken);
      AuthorizeQueryRoundTrip(requestToken);
      env.render(baseUri) + "oauth/authorize" + "?" + AuthorizeQuery(requestToken)
    }

    /** The access-token leg: sign a GET to `oauth/access_token` with the request
        token and read the response body by the same positional rule. */
    method GetAccessToken(
      baseUri: Uri, requestToken: OAuthToken, nonce: String, timestamp: String,
      env: Collaborators, fetch: Uri -> String)
      returns (result: Result<OAuthToken>)
      ensures result == ParseTokenResponse(fetch(SignedRequestUri(
        Credentials(consumerKey, consumerSecret), env.resolve(baseUri, "oauth/access_token"),
        Some(requestToken), nonce, timestamp, env)))
    {
      var uri := env.resolve(baseUri, "oauth/access_token");
      uri := SignRequest(uri, Some(requestToken), nonce, timestamp, env);
      var accessToken := fetch(uri);
      result := ParseTokenResponse(accessToken);
    }
  }

  /** One `AppendFormat("name={0}&", value)` step of `SignRequest`: text that
      holds the pairs written so far, each followed by `&`, grows by one pair. */
  lemma Appended(head: String, written: seq<Parameter>, built: String, p: Parameter)
    returns (now: seq<Parameter>)
    requires |written| >= 1 && built == head + FormatQuery(written) + "&"
    ensures now == written + [p]
    ensures built + p.name + "=" + p.value + "&" == head + FormatQuery(now) + "&"
  {
    now := written + [p];
    FormatQuerySnoc(written, p);
  }

  /** The last `AppendFormat("name={0}", value)` of `SignRequest`: no `&` after it. */
  lemma Finished(head: String, written: seq<Parameter>, built: String, p: Parameter)
    returns (now: seq<Parameter>)
    requires |written| >= 1 && built == head + FormatQuery(written) + "&"
    ensures now == written + [p]
    ensures built + p.name + "=" + p.value == head + FormatQuery(now)
  {
    now := written + [p];
    FormatQuerySnoc(written, p);
  }
}
