/**
 One NHI credential exchange: attest, post, answer at most one nonce challenge, and accept the
 package only after decryption and policy checks. Cryptography and JSON are parameters.
 */
module NhiExchange {
  import opened Options
  import opened GoStrings
  import opened Dpop
  import opened CredentialStore

  type PrivateKey = nat
  type PolicyKey = nat

  /** The public half of an encryption key, as a JWK. */
  datatype Jwk = PublicHalf(of: PrivateKey)

  datatype EncryptedCredentials = EncryptedCredentials(
      alg: string, enc: string, epk: string, nonce: string, ciphertext: string)

  datatype Package = Package(
    credentialType: string,
    credentials: map<string, string>,
    encrypted: Option<EncryptedCredentials>,
    expiresAt: int,
    rawExpiresAt: string,
    ttlSeconds: int,
    policySignature: string,
    policyVersion: string,
    policySigningKeyId: string,
    auditId: string,
    transactionHash: string,
    ledgerAnchorHash: string)

  /** What the policy signature covers. */
  datatype Envelope = Envelope(
    credentialType: string,
    credentials: map<string, string>,
    encrypted: Option<EncryptedCredentials>,
    expiresAt: string,
    ttlSeconds: int,
    auditId: string,
    policyVersion: string,
    policySigningKeyId: string,
    transactionHash: string,
    ledgerAnchorHash: string)

  /** The primitives, about which nothing is assumed. */
  datatype Crypto = Crypto(
    open: (PrivateKey, EncryptedCredentials) -> Option<map<string, string>>,
    parseKey: string -> Option<PolicyKey>,
    decodeSignature: string -> Option<string>,
    verify: (PolicyKey, Envelope, string) -> bool,
    formatTime: int -> string)

  datatype Environment = EnvLocal | EnvOther(name: string)

  datatype Config = Config(
    backendUrl: string,
    target: string,
    tenantId: string,
    policyPublicKey: string,
    requirePolicySignature: bool,
    allowPlaintextResponse: bool)

  datatype Payload = Payload(
      env: Environment, attestation: string, target: string, tenantId: string, encryptionJwk: Jwk)

  datatype Post = Post(payload: Payload, proof: Claims)

  datatype Reply = NoReply | Unreadable | Reply(status: int, nonce: string, package: Option<Package>)

  /** What the environment decides about one exchange. */
  datatype Inputs = Inputs(
    hardwareReady: bool,
    attestation: Option<string>,
    key: Option<PrivateKey>,
    jti: Option<string>,
    reply: Reply,
    retryJti: Option<string>,
    retryReply: Reply)

  // -------------------------------------------------------------- accepting a package

  /** `encryptionKey.Decrypt`. */
  function Decrypt(crypto: Crypto, key: PrivateKey, e: EncryptedCredentials): Option<map<string, string>> {
    if e.alg != "ECDH-ES+HKDF-SHA256" || e.enc != "A256GCM" then None
    else match crypto.open(key, e)
      case Some(m) => if m == map[] then None else Some(m)
      case None => None
  }

  function EnvelopeOf(crypto: Crypto, p: Package): Envelope {
    Envelope(p.credentialType, p.credentials, p.encrypted,
      if p.rawExpiresAt == "" then crypto.formatTime(p.expiresAt) else p.rawExpiresAt,
      p.ttlSeconds, p.auditId, p.policyVersion, p.policySigningKeyId, p.transactionHash, p.ledgerAnchorHash)
  }

  /** `verifyPolicySignature`: whether the package is let through. */
  predicate PolicyAccepts(crypto: Crypto, p: Package, publicKey: string, required: bool) {
    var key := TrimSpace(publicKey);
    if key == "" then !required
    else if p.policySignature == "" then false
    else match (crypto.parseKey(key), crypto.decodeSignature(p.policySignature))
      case (Some(pub), Some(sig)) => crypto.verify(pub, EnvelopeOf(crypto, p), sig)
      case _ => false
  }

  /** What a credential records about the package it came in. */
  function MetadataOf(cfg: Config, pkg: Package): Metadata {
    Metadata(pkg.expiresAt, pkg.ttlSeconds, pkg.policySignature, pkg.policyVersion, pkg.policySigningKeyId,
             pkg.auditId, pkg.transactionHash, pkg.ledgerAnchorHash, cfg.target)
  }

  /** `decodeCredentialPackage`. */
  function Decode(
      crypto: Crypto, cfg: Config, env: Environment, key: PrivateKey, package: Option<Package>): Option<View> {
    match package
    case None => None
    case Some(pkg) =>
      var credentials :=
        match pkg.encrypted
        case Some(e) => Decrypt(crypto, key, e)
        case None => if !cfg.allowPlaintextResponse && env != EnvLocal then None else Some(pkg.credentials);
      match credentials
      case None => None
      case Some(values) =>
        var clear := pkg.(credentials := values);
        if values == map[] || !PolicyAccepts(crypto, clear, cfg.policyPublicKey, cfg.requirePolicySignature) then None
        else Some(View(values, MetadataOf(cfg, pkg)))
  }

  // -------------------------------------------------------------------- the exchange

  function Endpoint(cfg: Config): string {
    cfg.backendUrl + "/api/v1/decision/exchange"
  }

  datatype Exchanged = Exchanged(result: Option<View>, nonce: string, posts: seq<Post>)

  function Accept(crypto: Crypto, cfg: Config, env: Environment, key: PrivateKey, reply: Reply): Option<View> {
    if reply.Reply? && reply.status == 200 then Decode(crypto, cfg, env, key, reply.package) else None
  }

  /** `doExchange` and `retryWithNonce`, from the prover's nonce. */
  function DoExchange(crypto: Crypto, cfg: Config, env: Environment, nonce: string, i: Inputs): Exchanged {
    if !i.hardwareReady || i.attestation.None? || i.key.None? || i.jti.None? then Exchanged(None, nonce, [])
    else
      var payload := Payload(env, i.attestation.value, cfg.target, cfg.tenantId, PublicHalf(i.key.value));
      var first := Post(payload, ProofClaims(nonce, i.jti.value, "POST", Endpoint(cfg), ""));
      if !i.reply.Reply? then Exchanged(None, nonce, [first])
      else if i.reply.nonce == "" then Exchanged(Accept(crypto, cfg, env, i.key.value, i.reply), nonce, [first])
      else if i.reply.status != 401
          then Exchanged(Accept(crypto, cfg, env, i.key.value, i.reply), i.reply.nonce, [first])
      else if i.retryJti.None? then Exchanged(None, i.reply.nonce, [first])
      else
        var second := Post(payload, ProofClaims(i.reply.nonce, i.retryJti.value, "POST", Endpoint(cfg), ""));
        Exchanged(Accept(crypto, cfg, env, i.key.value, i.retryReply), i.reply.nonce, [first, second])
  }

  // ---------------------------------------------------------------------- provenance

  /** Where a credential came from: the key made for its exchange, the package, and what was posted. */
  datatype Evidence = Evidence(key: PrivateKey, pkg: Package, posts: seq<Post>)

  /** The package's secrets reached the client encrypted under `key`, or in a plaintext that was allowed. */
  predicate Delivered(crypto: Crypto, cfg: Config, env: Environment, e: Evidence, values: map<string, string>) {
    match e.pkg.encrypted
    case Some(box) =>
      box.alg == "ECDH-ES+HKDF-SHA256" && box.enc == "A256GCM" && crypto.open(e.key, box) == Some(values)
    case None =>
      (cfg.allowPlaintextResponse || env == EnvLocal) && values == e.pkg.credentials
  }

  /** The envelope says what the package says, about these values. */
  predicate Covers(crypto: Crypto, env: Envelope, pkg: Package, values: map<string, string>) {
    && env.credentialType == pkg.credentialType && env.credentials == values && env.encrypted == pkg.encrypted
    && env.expiresAt == (if pkg.rawExpiresAt != "" then pkg.rawExpiresAt else crypto.formatTime(pkg.expiresAt))
    && env.ttlSeconds == pkg.ttlSeconds && env.auditId == pkg.auditId && env.policyVersion == pkg.policyVersion
    && env.policySigningKeyId == pkg.policySigningKeyId && env.transactionHash == pkg.transactionHash
    && env.ledgerAnchorHash == pkg.ledgerAnchorHash
  }

  /** With a policy key configured, a signature over exactly this package and these values was verified with it. */
  ghost predicate Signed(crypto: Crypto, cfg: Config, e: Evidence, values: map<string, string>) {
    var key, signature := TrimSpace(cfg.policyPublicKey), e.pkg.policySignature;
    if key == "" then !cfg.requirePolicySignature
    else
      && signature != "" && crypto.parseKey(key).Some? && crypto.decodeSignature(signature).Some?
      && exists env ::
           && Covers(crypto, env, e.pkg, values)
           && crypto.verify(crypto.parseKey(key).value, env, crypto.decodeSignature(signature).value)
  }

  /** The metadata is the package's, and the target the configured one. */
  predicate MetaFrom(cfg: Config, m: Metadata, pkg: Package) {
    && m.expiresAt == pkg.expiresAt && m.ttlSeconds == pkg.ttlSeconds
    && m.policySignature == pkg.policySignature && m.policyVersion == pkg.policyVersion
    && m.policySigningKeyId == pkg.policySigningKeyId && m.auditId == pkg.auditId
    && m.transactionHash == pkg.transactionHash && m.ledgerAnchorHash == pkg.ledgerAnchorHash
    && m.target == cfg.target
  }

  ghost predicate Vetted(crypto: Crypto, cfg: Config, env: Environment, c: View, e: Evidence) {
    && c.values != map[] && MetaFrom(cfg, c.meta, e.pkg)
    && Delivered(crypto, cfg, env, e, c.values)
    && Signed(crypto, cfg, e, c.values)
    && OnePayload(cfg, e)
  }

  /** One post or two, all with one payload, which asks for the target and carries the key's public half. */
  predicate OnePayload(cfg: Config, e: Evidence) {
    && 1 <= |e.posts| <= 2
    && (forall i :: 0 <= i < |e.posts| ==>
          && e.posts[i].payload == e.posts[0].payload
          && e.posts[i].payload.encryptionJwk == PublicHalf(e.key)
          && e.posts[i].payload.target == cfg.target)
  }

  /** The package is accepted with these values. */
  ghost predicate Accepts(crypto: Crypto, cfg: Config, env: Environment, e: Evidence, values: map<string, string>) {
    values != map[] && Delivered(crypto, cfg, env, e, values) && Signed(crypto, cfg, e, values)
  }

  /** Acceptance in both directions: exactly the packages that pass all checks are let through, as they are. */
  lemma DecodeExactly(crypto: Crypto, cfg: Config, env: Environment, e: Evidence, c: View)
    ensures Decode(crypto, cfg, env, e.key, Some(e.pkg)) == Some(c)
       <==> MetaFrom(cfg, c.meta, e.pkg) && Accepts(crypto, cfg, env, e, c.values)
  {
    CoversExactly(crypto, e.pkg, c.values);
  }

  lemma CoversExactly(crypto: Crypto, pkg: Package, values: map<string, string>)
    ensures forall env :: Covers(crypto, env, pkg, values) <==> env == EnvelopeOf(crypto, pkg.(credentials := values))
  {
  }

  /** Hardware, attestation, key and proof are there. */
  predicate Prepared(i: Inputs) {
    i.hardwareReady && i.attestation.Some? && i.key.Some? && i.jti.Some?
  }

  /** The first reply challenges the client with a nonce. */
  predicate Challenged(i: Inputs) {
    i.reply.Reply? && i.reply.status == 401 && i.reply.nonce != ""
  }

  /** The reply that decides an exchange: the second one after a challenge that could be answered. */
  function Deciding(i: Inputs): Reply {
    if !Challenged(i) then i.reply else if i.retryJti.Some? then i.retryReply else NoReply
  }

  function NonEmpty(text: string): Option<string> {
    if text == "" then None else Some(text)
  }

  /** What the posts of an exchange say. */
  function PostWith(cfg: Config, env: Environment, nonce: string, i: Inputs, jti: string): Post
    requires Prepared(i)
  {
    Post(Payload(env, i.attestation.value, cfg.target, cfg.tenantId, PublicHalf(i.key.value)),
      Claims(jti, "POST", cfg.backendUrl + "/api/v1/decision/exchange", NonEmpty(nonce), None))
  }

  /**
   What goes out: nothing without all preparations; otherwise one post, and a second one exactly after a 401 with a
   nonce and with a proof that could be made, repeating the payload and answering the nonce. The prover keeps the
   first reply's nonce.
   */
  lemma PostsExactly(crypto: Crypto, cfg: Config, env: Environment, nonce: string, i: Inputs)
    ensures var x := DoExchange(crypto, cfg, env, nonce, i);
            && (!Prepared(i) ==> x.posts == [])
            && (Prepared(i) ==>
                  x.posts == [PostWith(cfg, env, nonce, i, i.jti.value)]
                             + if Challenged(i) && i.retryJti.Some?
                               then [PostWith(cfg, env, i.reply.nonce, i, i.retryJti.value)] else [])
            && x.nonce == (if Prepared(i) && i.reply.Reply? && i.reply.nonce != "" then i.reply.nonce else nonce)
  {
  }

  /**
   The exchange with these inputs yields `c`, and `c` is vetted on the evidence of that very exchange: the key
   it made, the package in its deciding reply, and the posts it sent.
   */
  ghost predicate Yields(crypto: Crypto, cfg: Config, env: Environment, nonce: string, i: Inputs, c: View) {
    var x := DoExchange(crypto, cfg, env, nonce, i);
    && x.result == Some(c)
    && i.key.Some? && Deciding(i).Reply? && Deciding(i).package.Some?
    && Vetted(crypto, cfg, env, c, Evidence(i.key.value, Deciding(i).package.value, x.posts))
  }

  /** The deciding reply is a 200 with a package whose values and metadata `c` has, and which is accepted. */
  ghost predicate Earned(crypto: Crypto, cfg: Config, env: Environment, i: Inputs, posts: seq<Post>, c: View) {
    && Prepared(i) && Deciding(i).Reply? && Deciding(i).status == 200 && Deciding(i).package.Some?
    && var pkg := Deciding(i).package.value;
       MetaFrom(cfg, c.meta, pkg) && Accepts(crypto, cfg, env, Evidence(i.key.value, pkg, posts), c.values)
  }

  /** An exchange yields a credential if and only if it was prepared and the deciding reply brings that credential. */
  lemma ExchangeExactly(crypto: Crypto, cfg: Config, env: Environment, nonce: string, i: Inputs, c: View)
    ensures var x := DoExchange(crypto, cfg, env, nonce, i);
            x.result == Some(c) <==> Earned(crypto, cfg, env, i, x.posts, c)
  {
    var x := DoExchange(crypto, cfg, env, nonce, i);
    if Prepared(i) {
      assert x.result == Accept(crypto, cfg, env, i.key.value, Deciding(i));
      if Deciding(i).Reply? && Deciding(i).package.Some? {
        DecodeExactly(crypto, cfg, env, Evidence(i.key.value, Deciding(i).package.value, x.posts), c);
      }
    }
  }

  /** Whatever an exchange yields has been vetted, on its own evidence. */
  lemma ExchangeIsVetted(crypto: Crypto, cfg: Config, env: Environment, nonce: string, i: Inputs)
    requires DoExchange(crypto, cfg, env, nonce, i).result.Some?
    ensures Yields(crypto, cfg, env, nonce, i, DoExchange(crypto, cfg, env, nonce, i).result.value)
  {
    ExchangeExactly(crypto, cfg, env, nonce, i, DoExchange(crypto, cfg, env, nonce, i).result.value);
    PostsExactly(crypto, cfg, env, nonce, i);
  }

  // ----------------------------------------------------------------------- the object

  class Exchanger {
    const cfg: Config
    const env: Environment
    const prover: Prover
    var posts: seq<Post>

    constructor (cfg: Config, env: Environment)
      ensures this.cfg == cfg && this.env == env && fresh(prover) && prover.serverNonce == "" && posts == []
    {
      this.cfg, this.env, posts := cfg, env, [];
      prover := new Prover();
    }

    /** `decodeCredentialPackage` on a response that was read. */
    method DecodePackage(crypto: Crypto, key: PrivateKey, reply: Reply) returns (c: Option<View>)
      requires reply.Reply?
      ensures c == Accept(crypto, cfg, env, key, reply)
    {
      if reply.status != 200 || reply.package.None? {
        return None;
      }
      var pkg := reply.package.value;
      if pkg.encrypted.Some? {
        var clear := Decrypt(crypto, key, pkg.encrypted.value);
        if clear.None? {
          return None;
        }
        pkg := pkg.(credentials := clear.value);
      } else if !cfg.allowPlaintextResponse && env != EnvLocal {
        return None;
      }
      if pkg.credentials == map[] {
        return None;
      }
      if !PolicyAccepts(crypto, pkg, cfg.policyPublicKey, cfg.requirePolicySignature) {
        return None;
      }
      return Some(View(pkg.credentials, MetadataOf(cfg, pkg)));
    }

    method Exchange(crypto: Crypto, i: Inputs) returns (c: Option<View>)
      modifies this`posts, prover
      ensures var x := DoExchange(crypto, cfg, env, old(prover.serverNonce), i);
              c == x.result && prover.serverNonce == x.nonce && posts == old(posts) + x.posts
      ensures c.Some? ==> Yields(crypto, cfg, env, old(prover.serverNonce), i, c.value)
      ensures |posts| == |old(posts)| + 2 ==> Challenged(i) && posts[|posts| - 1].proof.nonce == Some(i.reply.nonce)
    {
      ghost var x := DoExchange(crypto, cfg, env, prover.serverNonce, i);
      if x.result.Some? {
        ExchangeIsVetted(crypto, cfg, env, prover.serverNonce, i);
      }
      PostsExactly(crypto, cfg, env, prover.serverNonce, i);
      if !i.hardwareReady || i.attestation.None? || i.key.None? {
        return None;
      }
      var key := i.key.value;
      var payload := Payload(env, i.attestation.value, cfg.target, cfg.tenantId, PublicHalf(key));
      var proof := prover.CreateProof(i.jti, "POST", Endpoint(cfg), "");
      if proof.None? {
        return None;
      }
      posts := posts + [Post(payload, proof.value)];
      if !i.reply.Reply? {
        return None;
      }
      if i.reply.nonce != "" {
        prover.SetServerNonce(i.reply.nonce);
        if i.reply.status == 401 {
          proof := prover.CreateProof(i.retryJti, "POST", Endpoint(cfg), "");
          if proof.None? {
            return None;
          }
          posts := posts + [Post(payload, proof.value)];
          assert posts == old(posts) + [x.posts[0], x.posts[1]];
          if !i.retryReply.Reply? {
            return None;
          }
          c := DecodePackage(crypto, key, i.retryReply);
          return;
        }
      }
      c := DecodePackage(crypto, key, i.reply);
    }
  }
}
