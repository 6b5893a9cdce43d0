/** The observable logic of `utils/jiutian_jwt.py`: the `id.secret` split,
    the claim set signed for the upstream API, and the expiry check.
    HS256 signing (`jwt.encode`) and unverified decoding (`jwt.decode`) are
    foreign and enter as function parameters. Clock readings are integer
    milliseconds since the epoch. */
module JiutianJwt {
  import opened Wrappers
  import opened PyStr
  import Encryption
  import opened Clock

  /** The claims of a generated token (section 4.1.4 of RFC 7519 for `exp`). */
  datatype Claims = Claims(apiKey: string, exp: int, timestamp: int)

  /** `validate_apikey_format`: the same rule as the encryption module's
      check, written out again in this file. */
  function ValidateApikeyFormat(apikey: string): (ok: bool)
    ensures ok <==> Encryption.ValidateApiKeyFormat(apikey)
  {
    var parts := SplitOnce(apikey, '.');
    |parts| == 2 && |parts[0]| > 0 && |parts[1]| > 0
  }

  /** The text of the exception: the wrapper's prefix around the inner message. */
  const FailurePrefix: string := "Failed to generate JWT token: "
  const InvalidFormat: string := "invalid apikey format"
  const InvalidFormatMessage: string := FailurePrefix + InvalidFormat + ", expected 'id.secret'"

  /** The claims and signing secret `generate_jwt_from_apikey` builds before
      signing; it fails only when the key holds no `.` at all. */
  function BuildClaims(apikey: string, expSeconds: int, nowMs: nat): (r: Result<(Claims, string), string>)
    ensures r.Failure? <==> '.' !in apikey
    ensures r.Failure? ==> Contains(r.error, "invalid apikey format")
    ensures r.Success? ==>
      var (c, secret) := r.value;
      && c.apiKey + "." + secret == apikey
      && '.' !in c.apiKey
      && c.timestamp == RoundSeconds(nowMs)
      && c.exp == c.timestamp + expSeconds
  {
    var parts := SplitOnce(apikey, '.');
    if |parts| != 2 then
      assert InvalidFormatMessage[|FailurePrefix|..|FailurePrefix| + |InvalidFormat|] == InvalidFormat;
      assert OccursAt(InvalidFormatMessage, "invalid apikey format", |FailurePrefix|);
      Failure(InvalidFormatMessage)
    else
      var now := RoundSeconds(nowMs);
      Success((Claims(parts[0], now + expSeconds, now), parts[1]))
  }

  /** `generate_jwt_from_apikey`: sign the claims with the secret. */
  function GenerateJwt(apikey: string, expSeconds: int, nowMs: nat,
                       sign: (Claims, string) -> string): (r: Result<string, string>)
    ensures r.Failure? <==> '.' !in apikey
    ensures r.Success? ==>
      exists c: Claims, secret: string :: BuildClaims(apikey, expSeconds, nowMs) == Success((c, secret)) && r.value == sign(c, secret)
  {
    match BuildClaims(apikey, expSeconds, nowMs)
    case Failure(e) => Failure(e)
    case Success((c, secret)) => Success(sign(c, secret))
  }

  /** `is_token_expired`: a token whose expiry cannot be read counts as
      expired; otherwise it is expired from its `exp` second on. */
  function IsTokenExpired(token: string, nowMs: nat, readExp: string -> Option<int>): (expired: bool)
    ensures readExp(token).None? ==> expired
    ensures readExp(token).Some? ==> (expired <==> nowMs >= readExp(token).value * 1000)
  {
    match readExp(token)
    case None => true
    case Some(exp) => FloorSeconds(nowMs) >= exp
  }

  /** Once expired, a token stays expired at every later time. */
  lemma ExpiryIsMonotonic(token: string, t1: nat, t2: nat, readExp: string -> Option<int>)
    requires t1 <= t2
    requires IsTokenExpired(token, t1, readExp)
    ensures IsTokenExpired(token, t2, readExp)
  {
  }

  /** A token generated with a positive lifetime is not expired at the
      moment it is generated, provided decoding returns the signed `exp`. */
  lemma FreshTokenNotExpired(apikey: string, expSeconds: int, nowMs: nat,
                             sign: (Claims, string) -> string, readExp: string -> Option<int>)
    requires '.' in apikey
    requires expSeconds > 0
    requires forall c: Claims, secret: string :: readExp(sign(c, secret)) == Some(c.exp)
    ensures GenerateJwt(apikey, expSeconds, nowMs, sign).Success?
    ensures !IsTokenExpired(GenerateJwt(apikey, expSeconds, nowMs, sign).value, nowMs, readExp)
  {
    var r := BuildClaims(apikey, expSeconds, nowMs);
    var (c, secret) := r.value;
    assert readExp(sign(c, secret)) == Some(c.exp);
    assert FloorSeconds(nowMs) <= RoundSeconds(nowMs);
  }

  /** The same token is expired once `expSeconds` whole seconds have passed
      after the rounded generation time. */
  lemma TokenExpiresAfterLifetime(apikey: string, expSeconds: int, nowMs: nat, laterMs: nat,
                                  sign: (Claims, string) -> string, readExp: string -> Option<int>)
    requires '.' in apikey
    requires forall c: Claims, secret: string :: readExp(sign(c, secret)) == Some(c.exp)
    requires laterMs >= (RoundSeconds(nowMs) + expSeconds) * 1000
    ensures GenerateJwt(apikey, expSeconds, nowMs, sign).Success?
    ensures IsTokenExpired(GenerateJwt(apikey, expSeconds, nowMs, sign).value, laterMs, readExp)
  {
    var r := BuildClaims(apikey, expSeconds, nowMs);
    var (c, secret) := r.value;
    assert readExp(sign(c, secret)) == Some(c.exp);
  }

  /** Generation needs only a dot: ".", "id." and ".secret" all produce
      claims, with an empty id or an empty secret. */
  lemma GenerationChecksOnlyTheDot(nowMs: nat)
    ensures BuildClaims(".", 60, nowMs).Success?
    ensures BuildClaims(".", 60, nowMs).value.0.apiKey == ""
    ensures BuildClaims(".secret", 60, nowMs).value.0.apiKey == ""
    ensures BuildClaims("id.", 60, nowMs).value.1 == ""
    ensures !ValidateApikeyFormat(".") && !ValidateApikeyFormat("id.") && !ValidateApikeyFormat(".secret")
  {
    assert '.' in ".secret" && '.' in "id." && '.' in ".";
    Encryption.ValidateRejectsExamples();
  }
}
