/** `dpop.Prover`: the claims of a proof (sections 4.2 and 8 of RFC 9449). */
module Dpop {
  import opened Options

  /** A SHA-256 digest, idealised as free of collisions. */
  datatype Digest = Sha256(of: string)

  datatype Claims = Claims(jti: string, htm: string, htu: string, nonce: Option<string>, ath: Option<Digest>)

  function ProofClaims(serverNonce: string, jti: string, htm: string, uri: string, accessToken: string): Claims {
    Claims(jti, htm, uri,
      if serverNonce == "" then None else Some(serverNonce),
      if accessToken == "" then None else Some(Sha256(accessToken)))
  }

  class Prover {
    var serverNonce: string

    constructor ()
      ensures serverNonce == ""
    {
      serverNonce := "";
    }

    method SetServerNonce(nonce: string)
      modifies this
      ensures serverNonce == nonce
    {
      serverNonce := nonce;
    }

    /** Fails only when the random source does. */
    method CreateProof(jti: Option<string>, htm: string, uri: string, accessToken: string) returns (r: Option<Claims>)
      ensures r == if jti.None? then None else Some(ProofClaims(serverNonce, jti.value, htm, uri, accessToken))
      ensures r.Some? ==>
                && r.value.jti == jti.value && r.value.htm == htm && r.value.htu == uri
                && (r.value.nonce.Some? <==> serverNonce != "") && (r.value.ath.Some? <==> accessToken != "")
                && (r.value.nonce.Some? ==> r.value.nonce.value == serverNonce)
                && (r.value.ath.Some? ==> r.value.ath.value.of == accessToken)
    {
      if jti.None? {
        return None;
      }
      var claims := Claims(jti.value, htm, uri, None, None);
      if serverNonce != "" {
        claims := claims.(nonce := Some(serverNonce));
      }
      if accessToken != "" {
        claims := claims.(ath := Some(Sha256(accessToken)));
      }
      return Some(claims);
    }
  }
}
