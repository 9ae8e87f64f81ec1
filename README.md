# OAuth 1.0a client of the Dropbox REST API samples, modelled in Dafny

This project models the OAuth 1.0a (RFC 5849) client class `OAuth` of
`src/part-3/OAuth/OAuth.cs`: the object that holds the consumer key and secret,
signs GET requests to the token endpoints, reads the token responses, and builds
the URI to which the user is sent to authorize the request token.

- `text.dfy` (module `Text`): the .NET string primitives the client uses,
  `String.IndexOf(char)` and `String.Split(char)` (empty pieces kept), with
  `Join` as the inverse of `Split`.
- `query_string.dfy` (module `QueryString`): `name=value` pairs joined with `&`,
  and the client's way of reading a piece, `Substring(IndexOf('=') + 1)`: the
  value is everything after the first `=`. Formatting a list of at least one
  pair and reading it back gives the same pairs, when no name holds `=` or `&`
  and no value holds `&`. The empty list formats as the empty string, which
  reads back as one pair with an empty name and value.
- `oauth.dfy` (module `OAuthClient`): the token-response reader shared by both
  token legs, the authorize URI, the signed-request assembly (`SignRequest`
  appends the pairs one by one, as the source's `StringBuilder` does), and the
  `OAuth` class with its two read-only credential fields.

The response reader works by position, not by name. The secret is the text after
the first `=` of the first `&`-piece. The token is the same for the second piece.
Later pieces are ignored. A body without `&` is an error (`MissingTokenSegment`),
where the source fails on `parts[1]`. Section 2.1 of RFC 5849 has the server
return `oauth_token` and `oauth_token_secret` form-encoded, in no fixed order,
to be looked up by name, and lets the client pass an `oauth_callback` URI.
`OAuth.cs` reads the two values by position and sends no callback parameter,
and the model follows the code.

Claims about reading a signed query back pair by pair need every value in it
(consumer key, token, nonce, timestamp, encoded signature) to be free of `&`
(`Unambiguous`); with an `&` inside a value the query is ambiguous in the source
too. The claim that the signature comes last and nothing trails it
(`SignedUriEndsWithSignature`) holds for all inputs.

## Model

| member | source | states |
|---|---|---|
| `Text.IndexOf` | src/part-3/OAuth/OAuth.cs:36-37 | the result is -1 exactly when the character is absent, otherwise the position of its first occurrence |
| `Text.Split` | src/part-3/OAuth/OAuth.cs:35 | at least one piece; one piece exactly when there is no separator; no piece holds a separator; joining the pieces with the separator gives back the input |
| `QueryString.ValueOf` | src/part-3/OAuth/OAuth.cs:36-37 | the value is a suffix of the piece: the whole piece when it has no `=`, otherwise the text right after its first `=` |
| `QueryString.ValueAfterName` | src/part-3/OAuth/OAuth.cs:36-37 | for a name without `=`, `name=value` reads back as that name and exactly that value, even when the value holds further `=` |
| `QueryString.QueryRoundTrip` | src/part-3/OAuth/OAuth.cs:87-95 | for a list of at least one pair whose names hold neither `=` nor `&` and whose values hold no `&`, the query formatted as `name=value` pairs joined by `&` reads back as the same pairs in the same order |
| `OAuthClient.ParseTokenResponse` | src/part-3/OAuth/OAuth.cs:35-37 | the body fails to parse exactly when it holds no `&`; when it parses, the secret is the value of the text before the first `&` |
| `OAuthClient.SecretFromFirstPiece` | src/part-3/OAuth/OAuth.cs:35-37 | any body with an `&` parses, and its secret is read from the first piece |
| `OAuthClient.TokenResponseByPosition` | src/part-3/OAuth/OAuth.cs:35-37 | the token comes from the second piece and the secret from the first; anything after a second `&` is ignored |
| `OAuthClient.TokenResponseIgnoresNames` | src/part-3/OAuth/OAuth.cs:35-37 | for a body `n0=v0&n1=v1` the result is token `v1`, secret `v0`, whatever the names are |
| `OAuthClient.TokenResponseSwappedOrder` | src/part-3/OAuth/OAuth.cs:35-37 | a body listing `oauth_token` before `oauth_token_secret` comes back with token and secret swapped |
| `OAuthClient.AuthorizeQueryRoundTrip` | src/part-3/OAuth/OAuth.cs:35-45 | reading the authorize query with the response reader gives back the request token exactly when neither token nor secret holds an `&` |
| `OAuthClient.AuthorizeQueryCutsToken` | src/part-3/OAuth/OAuth.cs:35-45 | a token holding `&` comes back cut at its first `&`, with the secret intact |
| `OAuthClient.AuthorizeQueryCutsSecret` | src/part-3/OAuth/OAuth.cs:35-45 | a secret holding `&` comes back cut at its first `&` |
| `OAuthClient.AuthorizeQueryFormat` | src/part-3/OAuth/OAuth.cs:44 | the authorize query is the two-pair query `oauth_token_secret` then `oauth_token` |
| `OAuthClient.AuthorizeUriQuery` | src/part-3/OAuth/OAuth.cs:45 | after the base and `oauth/authorize?` the authorize URI holds exactly the authorize query |
| `OAuthClient.OAuth.GetAuthorizeUri` | src/part-3/OAuth/OAuth.cs:42-47 | the URI is the base, `oauth/authorize?`, then the secret pair and the token pair; its query reads back as the request token exactly when neither part holds an `&` |
| `OAuthClient.SignedQueryParses` | src/part-3/OAuth/OAuth.cs:87-95 | the signed query reads back as exactly the protocol parameters written, in order |
| `OAuthClient.SignedQueryWireOrder` | src/part-3/OAuth/OAuth.cs:87-95 | the parameter names are `oauth_consumer_key`, `oauth_token` only for a non-empty token, `oauth_nonce`, `oauth_timestamp`, `oauth_signature_method`, `oauth_version`, `oauth_signature` |
| `OAuthClient.SignedQueryTokenPresence` | src/part-3/OAuth/OAuth.cs:76-90 | `oauth_token` is among the parameters if and only if a request token with a non-empty token is supplied, and then its value is that token |
| `OAuthClient.SignedQuerySignatureLast` | src/part-3/OAuth/OAuth.cs:76-95 | the last parameter is `oauth_signature`: the signature for GET, HMAC-SHA1, the object's key and secret, the nonce and timestamp, and the token and secret (both empty without a token), URL-encoded once |
| `OAuthClient.SignedUriEndsWithSignature` | src/part-3/OAuth/OAuth.cs:79-95 | for all inputs the signed URI ends with `&oauth_signature=` and that once-encoded signature, so no `&` trails it |
| `OAuthClient.ReadTokenIsSentBack` | src/part-3/OAuth/OAuth.cs:76-90 | a request token read from a response (as at lines 35-37) and passed to the signing of the next request (as at line 53), when its token is non-empty, is that request's second parameter, among seven |
| `OAuthClient.OAuth.constructor` | src/part-3/OAuth/OAuth.cs:15-20 | the object keeps exactly the consumer key and secret it is given |
| `OAuthClient.OAuth.SignRequest` | src/part-3/OAuth/OAuth.cs:69-98 | the text built append by append is the rendered URI, `?`, and the protocol parameters formatted as a query |
| `OAuthClient.OAuth.GetRequestToken` | src/part-3/OAuth/OAuth.cs:22-40 | the result is the response reader applied to the body returned for the URI signed without a token at `oauth/request_token` |
| `OAuthClient.OAuth.GetAccessToken` | src/part-3/OAuth/OAuth.cs:49-67 | the result is the same response reader applied to the body returned for the URI signed with the request token at `oauth/access_token` |

## Left out

- `OAuthBase` (`GenerateSignature`, `GenerateNonce`, `GenerateTimeStamp`) is not part of this model: the signature generator is a function parameter, and the nonce and timestamp are inputs of each call. HMAC-SHA1, the signature base string and RFC 3986 percent-encoding are therefore not modelled.
- `HttpUtility.UrlEncode`, `new Uri(baseUri, relative)` and `Uri.ToString()` are function parameters (`Collaborators`), with no properties assumed. The one `render` stands for `Uri.ToString()` both where `SignRequest` starts its text and where `GetAuthorizeUri` formats the base URI.
- `new Uri(text)` at `OAuth.cs:46` and `OAuth.cs:97` is taken to be the text itself; .NET's URI parsing and normalisation are not modelled.
- Network I/O (`WebRequest`, `GetResponse`, `StreamReader`) is replaced by a `fetch` parameter from the signed URI to the response body; transport failures and non-2xx statuses, which throw in the source, are not modelled.
- Strings are never null: a request token is either absent (`None`) or present with non-null fields, so `String.IsNullOrEmpty` becomes a test for the empty string.
- The `_oAuthBase` field is not kept, since the model of `OAuthBase` has no state.
- The Dropbox API classes, the JSON property bags, the console programs and the web callback controller are outside this model.
