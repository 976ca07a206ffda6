/**
 * The two foreign libraries the handlers call, reduced to what the handlers
 * rely on: bcrypt as a one-way password digest, and JSON Web Tokens as
 * a signer and a verifier bound to the process-wide secret and to the
 * time of the request.
 */
module Crypto {
  import opened Wrappers
  import opened Records

  /**
   * bcrypt.hash(password, 10). The model needs only an injective digest that
   * never equals its input; it fixes one such function (a bcrypt-style prefix
   * in front of the password). The random salt bcrypt adds is not modelled.
   */
  const BcryptPrefix: string := "$2a$10$"

  function Hash(password: string): (digest: string)
    ensures digest != password
    ensures |digest| > 0
  {
    BcryptPrefix + password
  }

  /** bcrypt.compare(password, digest). */
  predicate Compare(password: string, digest: string)
  {
    digest == Hash(password)
  }

  /** A password matches a stored digest exactly when the digest was made from it. */
  lemma CompareIsExact(password: string, original: string)
    ensures Compare(password, Hash(original)) <==> password == original
  {
    if Compare(password, Hash(original)) {
      assert password == Hash(password)[|BcryptPrefix|..];
      assert original == Hash(original)[|BcryptPrefix|..];
    }
  }

  /** The payload the handlers put in a token: `{ email }` or `{ userId }`. */
  datatype Claims = Claims(email: Option<string>, userId: Option<Id>)

  /** A compact signed token; jwt.sign never returns the empty string. */
  type Jws = t: string | t != "" witness "."

  /**
   * jwt.sign(claims, SECRET_KEY, { expiresIn: ttl }) at the time of one request;
   * the second argument is the lifetime in seconds.
   */
  type Signer = (Claims, nat) -> Jws

  /**
   * jwt.verify(token, SECRET_KEY) at the time of one request: the payload, or
   * None where jwt.verify throws (bad signature, malformed, expired).
   */
  type Verifier = string -> Option<Claims>

  const VerificationTtl: nat := 24 * 60 * 60  // '24h'
  const SessionTtl: nat := 24 * 60 * 60       // '1d'
  const ResetTtl: nat := 60 * 60              // '1h'

  /** The token, if it decodes at all, decodes to the claims it was signed with. */
  ghost predicate DecodesTo(verify: Verifier, token: string, claims: Claims)
  {
    verify(token) == None || verify(token) == Some(claims)
  }
}
