/**
 `nhi.store`: one credential, copied on the way in and on the way out, wiped when replaced.
 A Go map is a reference, so the values live in an object of their own.
 */
module CredentialStore {
  /** `time.Time{}`. */
  const ZERO_TIME := 0

  datatype Metadata = Metadata(
    expiresAt: int,
    ttlSeconds: int,
    policySignature: string,
    policyVersion: string,
    policySigningKeyId: string,
    auditId: string,
    transactionHash: string,
    ledgerAnchorHash: string,
    target: string)

  const BLANK := Metadata(ZERO_TIME, 0, "", "", "", "", "", "", "")

  class Values {
    var m: map<string, string>

    constructor ()
      ensures m == map[]
    {
      m := map[];
    }
  }

  class Credential {
    var values: Values?
    var meta: Metadata

    constructor (values: Values?, meta: Metadata)
      ensures this.values == values && this.meta == meta
    {
      this.values, this.meta := values, meta;
    }

    ghost function Map(): map<string, string>
      reads this, values
    {
      if values == null then map[] else values.m
    }

    predicate Expired(now: int)
      reads this
    {
      now > meta.expiresAt
    }

    ghost function Objects(): set<object>
      reads this
    {
      if values == null then {this} else {this, values}
    }
  }

  /** What a credential says, without its identity. */
  datatype View = View(values: map<string, string>, meta: Metadata)

  ghost function ViewOf(c: Credential): View
    reads c, c.values
  {
    View(c.Map(), c.meta)
  }

  /** `copyCredential`: a new object with a new map. */
  method CopyCredential(c: Credential?) returns (cp: Credential?)
    ensures c == null <==> cp == null
    ensures cp != null ==> fresh(cp) && cp.values != null && fresh(cp.values) && ViewOf(cp) == ViewOf(c)
  {
    if c == null {
      return null;
    }
    var values := new Values();
    cp := new Credential(values, c.meta);
    if c.values != null {
      var remaining := c.values.m.Keys;
      while remaining != {}
        modifies values
        invariant remaining <= c.values.m.Keys
        invariant values.m == map k | k in c.values.m && k !in remaining :: c.values.m[k]
        decreases remaining
      {
        var k :| k in remaining;
        values.m := values.m[k := c.values.m[k]];
        remaining := remaining - {k};
      }
    }
  }

  function Nuls(n: nat): string {
    seq(n, i => '\0')
  }

  /** `zeroizeCredential`: overwrite and delete every value, then blank the rest. */
  method ZeroizeCredential(c: Credential?)
    modifies c, if c == null then null else c.values
    ensures c != null ==> c.Map() == map[] && c.meta == BLANK && c.values == old(c.values)
  {
    if c == null {
      return;
    }
    if c.values != null {
      var remaining := c.values.m.Keys;
      while remaining != {}
        invariant c.values == old(c.values) && c.values.m.Keys == remaining
        decreases remaining
      {
        var k :| k in remaining;
        if |c.values.m[k]| > 0 {
          c.values.m := c.values.m[k := Nuls(|c.values.m[k]|)];
        }
        c.values.m := c.values.m - {k};
        remaining := remaining - {k};
      }
    }
    c.meta := BLANK;
  }

  class Store {
    var cred: Credential?

    /** The objects that belong to the store and to nobody else. */
    ghost function Owned(): set<object>
      reads this, cred
    {
      if cred == null then {} else cred.Objects()
    }

    ghost predicate Valid()
      reads this, cred
    {
      cred != null ==> cred.values != null
    }

    constructor ()
      ensures Valid() && cred == null
    {
      cred := null;
    }

    /** `Get`: nothing once expired, otherwise a copy that shares nothing with the store. */
    method Get(now: int) returns (c: Credential?)
      requires Valid()
      ensures c == null <==> cred == null || now > cred.meta.expiresAt
      ensures c != null ==> fresh(c) && c.values != null && fresh(c.values) && ViewOf(c) == ViewOf(cred)
      ensures c != null ==> c.Objects() !! Owned()
    {
      if cred == null || cred.Expired(now) {
        return null;
      }
      c := CopyCredential(cred);
    }

    /**
     `Set`: wipe the old credential, then keep a copy of the new one. Because the wiping comes first,
     the copy is faithful for every credential that shares nothing with the store.
     */
    method Set(c: Credential?)
      requires Valid()
      modifies this, Owned()
      ensures Valid() && fresh(Owned()) && (c == null <==> cred == null)
      ensures c != null && c.Objects() !! old(Owned()) ==>
                c.Objects() == old(c.Objects()) && ViewOf(cred) == old(ViewOf(c)) && ViewOf(c) == old(ViewOf(c))
      ensures old(cred) != null ==> old(cred).Map() == map[] && old(cred).meta == BLANK
    {
      ZeroizeCredential(cred);
      cred := CopyCredential(c);
    }

    /** `Clear`. */
    method Clear()
      requires Valid()
      modifies this, Owned()
      ensures Valid() && cred == null
      ensures old(cred) != null ==> old(cred).Map() == map[] && old(cred).meta == BLANK
    {
      ZeroizeCredential(cred);
      cred := null;
    }

    /** `ExpiresAt`: the last moment at which `Get` hands the credential out, the zero time if there is none. */
    method ExpiresAt() returns (t: int)
      ensures cred == null ==> t == ZERO_TIME
      ensures cred != null ==> t == cred.meta.expiresAt && forall now: int :: now <= t <==> !cred.Expired(now)
    {
      t := if cred == null then ZERO_TIME else cred.meta.expiresAt;
    }
  }

  /** Putting back what `Get` returned preserves the stored value, although `Set` wipes first. */
  method SetOfGet(s: Store, now: int) returns (g: Credential?)
    requires s.Valid()
    modifies s, s.Owned()
    ensures s.Valid()
    ensures g != null ==>
              s.cred != null && ViewOf(s.cred) == old(if s.cred == null then View(map[], BLANK) else ViewOf(s.cred))
    ensures g == null ==> unchanged(s) && unchanged(old(s.Owned()))
  {
    g := s.Get(now);
    if g != null {
      s.Set(g);
    }
  }

  /** Whatever a caller does to one copy, the store and an earlier copy are unaffected. */
  method TamperWithCopy(s: Store, now: int, meta: Metadata, values: map<string, string>)
    returns (kept: Credential?)
    requires s.Valid()
    ensures s.cred == old(s.cred) && s.Valid()
    ensures s.cred != null ==> ViewOf(s.cred) == old(if s.cred == null then View(map[], BLANK) else ViewOf(s.cred))
    ensures kept != null ==> s.cred != null && ViewOf(kept) == ViewOf(s.cred)
  {
    kept := s.Get(now);
    var other := s.Get(now);
    if other != null {
      other.meta := meta;
      other.values.m := values;
    }
  }
}
