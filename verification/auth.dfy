/**
 * The pure parts of `backend/auth.py`: reading a bearer token out of an
 * `Authorization` header, and the claims a new token carries. Signing,
 * verification and password hashing are library calls and appear in the
 * rest of the model only as parameters.
 */
module Auth {
  import opened Wrappers
  import opened Text

  /**
   * `parse_bearer(auth_header)`; `None` stands for an absent header. The header
   * must split on whitespace into exactly two tokens, the first of which is
   * `bearer` in any letter case; the token returned is never empty and holds
   * no whitespace.
   */
  function ParseBearer(header: Option<string>): (r: Option<string>)
    ensures header.None? || header == Some("") ==> r.None?
    ensures r.Some? ==> |r.value| > 0 && NoSpace(r.value)
    ensures r.Some? ==> header.Some? && r.value in Words(header.value)
    ensures r.Some? ==> |Words(header.value)| == 2 && Lower(Words(header.value)[0]) == "bearer" && r.value == Words(header.value)[1]
  {
    if header.None? || header.value == "" then None
    else
      var parts := Words(header.value);
      if |parts| == 2 && Lower(parts[0]) == "bearer" then Some(parts[1]) else None
  }

  /**
   * Both directions at once: a header made of whitespace-free words joined by
   * spaces yields a token exactly when it has two words and the first is
   * `bearer` in any letter case, and the token is then the second word.
   */
  lemma ParseBearerWords(ws: seq<string>)
    requires forall i :: 0 <= i < |ws| ==> |ws[i]| > 0 && NoSpace(ws[i])
    ensures ParseBearer(Some(Unwords(ws))) == (if |ws| == 2 && Lower(ws[0]) == "bearer" then Some(ws[1]) else None)
  {
    WordsUnwords(ws);
    if |ws| > 0 {
      assert |Words(Unwords(ws))| > 0;
      assert Unwords(ws) != "";
    }
  }

  /** A word followed by whitespace only is one token. */
  lemma WordThenSpace(w: string, pad: string)
    requires |w| > 0 && NoSpace(w) && AllSpace(pad)
    ensures Words(w + pad) == [w]
  {
    WordsCons(w, pad);
    WordsAfterSpace(pad, []);
    assert pad + [] == pad;
  }

  /** A word, a separator and the rest: the word, then the tokens of the rest. */
  lemma WordThenSeparator(w: string, sep: string, rest: string)
    requires |w| > 0 && NoSpace(w) && |sep| > 0 && AllSpace(sep)
    ensures Words(w + (sep + rest)) == [w] + Words(rest)
  {
    WordsCons(w, sep + rest);
    WordsAfterSpace(sep, rest);
  }

  /** The header's words, when each piece of the header is known. */
  lemma WordsOfHeader(pad: string, scheme: string, sep: string, token: string, pad': string)
    requires AllSpace(pad) && AllSpace(sep) && AllSpace(pad')
    requires |sep| > 0 && |scheme| > 0 && NoSpace(scheme) && |token| > 0 && NoSpace(token)
    ensures Words(pad + scheme + sep + token + pad') == [scheme, token]
  {
    var mid := scheme + (sep + (token + pad'));
    WordThenSpace(token, pad');
    WordThenSeparator(scheme, sep, token + pad');
    WordsAfterSpace(pad, mid);
    Regroup(pad, scheme, sep, token, pad');
  }

  lemma Regroup(a: string, b: string, c: string, d: string, e: string)
    ensures a + b + c + d + e == a + (b + (c + (d + e)))
  {
  }

  /**
   * Round trip: a header built as optional whitespace, a `bearer` scheme in
   * any letter case, whitespace, a token and optional whitespace gives the
   * token back.
   */
  lemma BearerRoundTrip(pad: string, scheme: string, sep: string, token: string, pad': string)
    requires AllSpace(pad) && AllSpace(sep) && AllSpace(pad')
    requires |sep| > 0 && NoSpace(scheme) && Lower(scheme) == "bearer"
    requires |token| > 0 && NoSpace(token)
    ensures ParseBearer(Some(pad + scheme + sep + token + pad')) == Some(token)
  {
    WordsOfHeader(pad, scheme, sep, token, pad');
  }

  /** A scheme with no token (`"Bearer"` alone) gives nothing. */
  lemma SchemeAloneRejected(pad: string, scheme: string, pad': string)
    requires AllSpace(pad) && AllSpace(pad')
    requires |scheme| > 0 && NoSpace(scheme)
    ensures ParseBearer(Some(pad + scheme + pad')) == None
  {
    WordsAfterSpace(pad', []);
    assert pad' + [] == pad';
    WordsCons(scheme, pad');
    WordsAfterSpace(pad, scheme + pad');
    assert pad + scheme + pad' == pad + (scheme + pad');
  }

  /** A third word (`"Bearer a b"`) makes the header malformed. */
  lemma ExtraWordRejected(scheme: string, token: string, extra: string)
    requires |scheme| > 0 && NoSpace(scheme) && |token| > 0 && NoSpace(token) && |extra| > 0 && NoSpace(extra)
    ensures ParseBearer(Some(scheme + " " + token + " " + extra)) == None
  {
    var ws := [scheme, token, extra];
    assert ws[1..] == [token, extra] && ws[1..][1..] == [extra];
    WordsUnwords(ws);
    assert Unwords(ws[1..]) == token + " " + extra;
    assert Unwords(ws) == scheme + " " + token + " " + extra;
  }

  // ---------------------------------------------------------------------------
  // Token claims
  // ---------------------------------------------------------------------------

  /** `JWT_TTL_SECONDS`: 24 hours. */
  const TokenLifetime: int := 60 * 60 * 24

  /** The payload `create_token` signs. */
  datatype Claims = Claims(sub: int, email: string, iat: int, exp: int)

  /** Python `int(x)` on a float: truncation toward zero. */
  function Truncate(x: real): (n: int)
    ensures x >= 0.0 ==> n as real <= x < n as real + 1.0
    ensures x < 0.0 ==> n as real - 1.0 < x <= n as real
  {
    if x >= 0.0 then x.Floor else -((-x).Floor)
  }

  /**
   * The claims of a token made at clock reading `now` (seconds): the user's id
   * and email, issued at the whole second `now` truncates to, and expiring
   * exactly one day later.
   */
  function NewClaims(userId: int, email: string, now: real): (c: Claims)
    ensures c.sub == userId && c.email == email
    ensures c.exp - c.iat == 86400
    ensures now >= 0.0 ==> c.iat as real <= now < c.iat as real + 1.0
  {
    var iat := Truncate(now);
    Claims(userId, email, iat, iat + TokenLifetime)
  }

  /** The user a verified token identifies: `{"id": claims["sub"], "email": claims["email"]}`. */
  datatype User = User(id: int, email: string)

  function UserOf(c: Claims): User {
    User(c.sub, c.email)
  }

  /**
   * The authentication decision of `auth_required`: the header's bearer token,
   * if any, is verified (`verify` stands for `verify_token`), and the claims,
   * if any, name the user. Without a token `verify` is never consulted.
   */
  function Authenticate(header: Option<string>, verify: string -> Option<Claims>): (u: Option<User>)
    ensures ParseBearer(header).None? ==> u.None?
    ensures ParseBearer(header).Some? ==>
      u == (if verify(ParseBearer(header).value).Some? then Some(UserOf(verify(ParseBearer(header).value).value)) else None)
  {
    match ParseBearer(header)
    case None => None
    case Some(token) =>
      match verify(token)
      case None => None
      case Some(c) => Some(UserOf(c))
  }

  /**
   * A token made for a user and sent back as `Bearer <token>` identifies that
   * user again, for any verifier that accepts what the signer produced.
   */
  lemma TokenIdentifiesUser(userId: int, email: string, now: real, sign: Claims -> string, verify: string -> Option<Claims>)
    requires |sign(NewClaims(userId, email, now))| > 0 && NoSpace(sign(NewClaims(userId, email, now)))
    requires verify(sign(NewClaims(userId, email, now))) == Some(NewClaims(userId, email, now))
    ensures Authenticate(Some("Bearer " + sign(NewClaims(userId, email, now))), verify) == Some(User(userId, email))
  {
    var token := sign(NewClaims(userId, email, now));
    BearerRoundTrip("", "Bearer", " ", token, "");
    assert "" + "Bearer" + " " + token + "" == "Bearer " + token;
  }
}
