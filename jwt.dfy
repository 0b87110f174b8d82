/**
 * The verified-email check on an identity token. The token library's decoder
 * is a parameter; it throws (a payload that is not valid JSON), yields `null`
 * for a token it cannot read, a string for a payload that is not a JSON
 * object, or the object of claims.
 */
module Jwt {
  import opened Values

  /** The claims of a decoded token, by claim name. */
  type Claims = map<string, Json>

  /** What the token library's `decode` returns. */
  datatype Payload =
    | DecodeThrows                       // the decoder raised an exception
    | NullPayload
    | TextPayload(text: string)
    | ObjectPayload(claims: Claims)

  /** The exception a call raises. */
  datatype Failure = DecodeError | TypeError

  /** The outcome of a call that may throw: a value, or the exception it raises. */
  datatype Result<T> = Ok(value: T) | Thrown(failure: Failure)

  const EmailVerified: string := "email_verified"

  /** `decode`: the library's payload, passed on as it is, with no fields added. */
  function Decode(library: string -> Payload, token: string): (payload: Payload)
    ensures payload == library(token)
  {
    library(token)
  }

  /** The value of the `email_verified` property of a payload, absent as None. */
  function EmailVerifiedClaim(payload: Payload): (v: Option<Json>)
    requires payload.TextPayload? || payload.ObjectPayload?
    ensures v.Some? <==> payload.ObjectPayload? && EmailVerified in payload.claims
    ensures v.Some? ==> v.value == payload.claims[EmailVerified]
  {
    if payload.TextPayload? then None
    else
      var claims := payload.claims;
      if EmailVerified in claims then Some(claims[EmailVerified]) else None
  }

  /**
   * `isVerified`: true exactly when the decoded claims hold `email_verified`
   * strictly equal to `true`. Nothing is caught: an exception from the decoder
   * propagates, and reading the claim of a `null` payload throws a TypeError.
   */
  function IsVerified(library: string -> Payload, token: string): (r: Result<bool>)
    ensures r == Thrown(DecodeError) <==> library(token).DecodeThrows?
    ensures r == Thrown(TypeError) <==> library(token).NullPayload?
    ensures r == Ok(true) <==>
              && library(token).ObjectPayload?
              && EmailVerified in library(token).claims
              && library(token).claims[EmailVerified] == Bool(true)
  {
    var claims := Decode(library, token);
    if claims.DecodeThrows? then Thrown(DecodeError)
    else if claims.NullPayload? then Thrown(TypeError)
    else
      var v := EmailVerifiedClaim(claims);
      Ok(v.Some? && StrictlyTrue(v.value))
  }

  /** A readable payload whose `email_verified` is anything but the boolean `true` is not verified. */
  lemma NotStrictlyTrueIsUnverified(library: string -> Payload, token: string)
    requires library(token).ObjectPayload?
    requires EmailVerified !in library(token).claims || library(token).claims[EmailVerified] != Bool(true)
    ensures IsVerified(library, token) == Ok(false)
  {
  }

  /** Truthy look-alikes are rejected: the string "true", the number 1, an object (even an empty one). */
  lemma TruthyLookalikesRejected(library: string -> Payload, token: string, v: Json)
    requires library(token) == ObjectPayload(map[EmailVerified := v])
    requires v == Str("true") || v == Num(1) || v == Obj(map[])
    ensures Truthy(v)
    ensures IsVerified(library, token) == Ok(false)
  {
  }

  /** A missing claim, `false`, or a string payload give false and do not throw. */
  lemma MissingOrFalseIsUnverified(library: string -> Payload, token: string)
    requires || library(token) == ObjectPayload(map[])
             || library(token) == ObjectPayload(map[EmailVerified := Bool(false)])
             || library(token).TextPayload?
    ensures IsVerified(library, token) == Ok(false)
  {
  }

  /** The check is strict, not truthiness: verified implies truthy, and not the other way round. */
  lemma StrictNotTruthiness(library: string -> Payload, token: string)
    ensures IsVerified(library, token) == Ok(true) ==>
              Truthy(library(token).claims[EmailVerified])
    ensures library(token) == ObjectPayload(map[EmailVerified := Str("true")]) ==>
              && Truthy(library(token).claims[EmailVerified])
              && IsVerified(library, token) == Ok(false)
  {
  }

  /**
   * Only `email_verified` matters: two object payloads that agree on whether the
   * claim is present and on its value give the same result, whatever other claims
   * were changed, added or removed.
   */
  lemma DependsOnlyOnEmailVerified(l1: string -> Payload, l2: string -> Payload, token: string)
    requires l1(token).ObjectPayload? && l2(token).ObjectPayload?
    requires EmailVerified in l1(token).claims <==> EmailVerified in l2(token).claims
    requires EmailVerified in l1(token).claims ==> l1(token).claims[EmailVerified] == l2(token).claims[EmailVerified]
    ensures IsVerified(l1, token) == IsVerified(l2, token)
  {
  }

  /** A failed decode is not turned into false: the exception propagates to the caller. */
  lemma DecodeFailurePropagates(library: string -> Payload, token: string)
    requires library(token).DecodeThrows? || library(token).NullPayload?
    ensures IsVerified(library, token).Thrown?
    ensures library(token).DecodeThrows? ==> IsVerified(library, token) == Thrown(DecodeError)
    ensures library(token).NullPayload? ==> IsVerified(library, token) == Thrown(TypeError)
    ensures IsVerified(library, token) != Ok(false)
  {
  }
}
