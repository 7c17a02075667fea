/**
 * The JWT encoding and decoding of python-jose, modelled symbolically.
 *
 * A claims set is a JSON object: a map from claim names to values. A signed
 * token is the term Jws(claims, key, alg); decoding it needs the same key
 * and algorithm (the HMAC signature check of RFC 7515 and RFC 7519). Any
 * string that is not such a term is Text(s).
 */
module Jose {
  import opened Wrappers

  datatype Value = Str(s: string) | Int(i: int) | Null

  type Claims = map<string, Value>

  datatype Token = Jws(claims: Claims, key: string, alg: string) | Text(text: string)

  /** The JWTError family, by cause. */
  datatype DecodeError = Malformed | InvalidSignature | Expired | InvalidClaims

  /** Python's dict.get: the value under name, if the claims hold one. */
  function Get(c: Claims, name: string): (r: Option<Value>)
    ensures r.Some? <==> name in c
    ensures r.Some? ==> r.value == c[name]
  {
    if name in c then Some(c[name]) else None
  }

  function Encode(c: Claims, key: string, alg: string): (t: Token)
    ensures t.Jws? && t.claims == c && t.key == key && t.alg == alg
  {
    Jws(c, key, alg)
  }

  /**
   * The claims decoding accepts whatever the clock says, when no audience
   * and no access token are passed to it: "iat", "nbf" and "exp" are
   * numbers, "sub" and "jti" strings, and there is no "aud" (no audience
   * matches one) and no "at_hash" (there is no access token to check it
   * against). "iss" is not looked at, since no issuer is passed.
   */
  predicate ClaimsAccepted(c: Claims)
  {
    && ("iat" in c ==> c["iat"].Int?)
    && ("nbf" in c ==> c["nbf"].Int?)
    && ("exp" in c ==> c["exp"].Int?)
    && "aud" !in c
    && ("sub" in c ==> c["sub"].Str?)
    && ("jti" in c ==> c["jti"].Str?)
    && "at_hash" !in c
  }

  /** A not-before time equal to the current second is already accepted. */
  predicate Started(c: Claims, now: int)
  {
    "nbf" in c && c["nbf"].Int? ==> c["nbf"].i <= now
  }

  /** An expiry equal to the current second is still accepted. */
  predicate Unexpired(c: Claims, now: int)
  {
    "exp" in c && c["exp"].Int? ==> now <= c["exp"].i
  }

  /**
   * jwt.decode with a single allowed algorithm and no leeway: the signature
   * first, then the claims in the order jose checks them (iat, nbf, exp,
   * aud, sub, jti, at_hash).
   */
  function Decode(t: Token, key: string, alg: string, now: int): (r: Result<Claims, DecodeError>)
    ensures r.Ok? <==> t.Jws? && t.key == key && t.alg == alg && ClaimsAccepted(t.claims) && Started(t.claims, now) && Unexpired(t.claims, now)
    ensures r.Ok? ==> r.value == t.claims
    ensures t.Text? ==> r == Err(Malformed)
    ensures t.Jws? && (t.key != key || t.alg != alg) ==> r == Err(InvalidSignature)
    ensures r == Err(Expired) ==> t.Jws? && "exp" in t.claims && t.claims["exp"].Int? && t.claims["exp"].i < now
  {
    match t
    case Text(_) => Err(Malformed)
    case Jws(c, k, a) =>
      if k != key || a != alg then Err(InvalidSignature)
      else if "iat" in c && !c["iat"].Int? then Err(InvalidClaims)
      else if "nbf" in c && !c["nbf"].Int? then Err(InvalidClaims)
      else if "nbf" in c && c["nbf"].i > now then Err(InvalidClaims)
      else if "exp" in c && !c["exp"].Int? then Err(InvalidClaims)
      else if "exp" in c && c["exp"].i < now then Err(Expired)
      else if "aud" in c then Err(InvalidClaims)
      else if "sub" in c && !c["sub"].Str? then Err(InvalidClaims)
      else if "jti" in c && !c["jti"].Str? then Err(InvalidClaims)
      else if "at_hash" in c then Err(InvalidClaims)
      else Ok(c)
  }

  /** Round trip: a token decodes, with the key it was signed with, to its claims from its not-before time until it expires. */
  lemma DecodeEncode(c: Claims, key: string, alg: string, now: int)
    requires ClaimsAccepted(c) && Started(c, now) && Unexpired(c, now)
    ensures Decode(Encode(c, key, alg), key, alg, now) == Ok(c)
  {
  }

  /** A token signed with another key never decodes. */
  lemma DecodeWithOtherKey(c: Claims, key: string, other: string, alg: string, now: int)
    requires key != other
    ensures Decode(Encode(c, key, alg), other, alg, now) == Err(InvalidSignature)
  {
  }

  /**
   * A well-signed token whose expiry is strictly in the past fails as
   * expired, unless a claim checked before the expiry already fails.
   */
  lemma DecodeAfterExpiry(c: Claims, key: string, alg: string, now: int)
    requires ("iat" in c ==> c["iat"].Int?) && ("nbf" in c ==> c["nbf"].Int?) && Started(c, now)
    requires "exp" in c && c["exp"].Int? && c["exp"].i < now
    ensures Decode(Encode(c, key, alg), key, alg, now) == Err(Expired)
  {
  }

  /** A well-signed token is refused before its not-before time. */
  lemma DecodeBeforeNotBefore(c: Claims, key: string, alg: string, now: int)
    requires "nbf" in c && c["nbf"].Int? && now < c["nbf"].i
    ensures Decode(Encode(c, key, alg), key, alg, now) == Err(InvalidClaims)
  {
  }
}
