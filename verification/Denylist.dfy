/** Access tokens denied after a logout: a key per token that expires, to the second, with the token. */
module Denylist {
  import opened Prelude

  /** The claims of a token that decodes. */
  datatype Claims = Claims(jti: Option<string>, exp: Option<int>)

  /** The keys of the denylist, each with the time it is gone. */
  type Denied = map<string, real>

  /** int(x) cuts off towards zero. */
  function Truncated(x: real): int {
    if x >= 0.0 then x.Floor else -((-x).Floor)
  }

  /** The token has an id and an expiry, both true in Python's sense. */
  predicate Complete(claims: Option<Claims>) {
    claims.Some? && claims.value.jti.Some? && claims.value.jti.value != "" && claims.value.exp.Some? && claims.value.exp.value != 0
  }

  /** A call of revoke_access_token: it reads the clock at `now` and sets the key at `setAt`. */
  datatype Revocation = Revocation(claims: Option<Claims>, now: real, setAt: real)

  function Ttl(r: Revocation): int
    requires Complete(r.claims)
  {
    Truncated(r.claims.value.exp.value as real - r.now)
  }

  predicate Effective(r: Revocation) {
    Complete(r.claims) && Ttl(r) > 0
  }

  function WithRevoked(denied: Denied, r: Revocation): Denied {
    if !Effective(r) then denied else denied[r.claims.value.jti.value := r.setAt + Ttl(r) as real]
  }

  predicate IsRevoked(denied: Denied, claims: Option<Claims>, now: real) {
    && claims.Some? && claims.value.jti.Some? && claims.value.jti.value != ""
    && claims.value.jti.value in denied && now < denied[claims.value.jti.value]
  }

  function Run(revocations: seq<Revocation>): Denied {
    if revocations == [] then map[] else WithRevoked(Run(revocations[..|revocations| - 1]), revocations[|revocations| - 1])
  }

  ghost predicate Timely(revocations: seq<Revocation>) {
    forall i :: 0 <= i < |revocations| ==> revocations[i].now <= revocations[i].setAt
  }

  /** A token id comes with one expiry. */
  ghost predicate OneExpiry(revocations: seq<Revocation>) {
    forall i, j :: 0 <= i < |revocations| && 0 <= j < |revocations| && Complete(revocations[i].claims) && Complete(revocations[j].claims)
                   && revocations[i].claims.value.jti == revocations[j].claims.value.jti
                   ==> revocations[i].claims.value.exp == revocations[j].claims.value.exp
  }

  /** A key outlives its token by the time it took to set at most, and ends less than a second before. */
  lemma TtlIsClose(r: Revocation)
    requires Effective(r) && r.now <= r.setAt
    ensures
      var exp, expires := r.claims.value.exp.value as real, r.setAt + Ttl(r) as real;
      exp - 1.0 < expires <= exp + (r.setAt - r.now)
  {
  }

  /** Every key comes from one revocation of the token. */
  lemma {:induction false} KeyHasSource(revocations: seq<Revocation>, jti: string) returns (i: nat)
    requires jti in Run(revocations)
    ensures i < |revocations| && Effective(revocations[i]) && revocations[i].claims.value.jti == Some(jti)
    ensures Run(revocations)[jti] == revocations[i].setAt + Ttl(revocations[i]) as real
  {
    var n := |revocations| - 1;
    if Effective(revocations[n]) && revocations[n].claims.value.jti == Some(jti) {
      i := n;
    } else {
      i := KeyHasSource(revocations[..n], jti);
    }
  }

  lemma {:induction false} RevokedHasKey(revocations: seq<Revocation>, i: nat)
    requires i < |revocations| && Effective(revocations[i])
    ensures revocations[i].claims.value.jti.value in Run(revocations)
  {
    if i < |revocations| - 1 {
      RevokedHasKey(revocations[..|revocations| - 1], i);
    }
  }

  /** Once revoked, a token that has an id and an expiry a second off or more stays so until less than a
      second before it expires, whatever is revoked before and after. */
  lemma RevokedUntilExpiry(revocations: seq<Revocation>, i: nat, jti: string, exp: int, now: real)
    requires Timely(revocations) && OneExpiry(revocations) && i < |revocations|
    requires revocations[i].claims == Some(Claims(Some(jti), Some(exp))) && jti != "" && exp != 0
    requires exp as real - revocations[i].now >= 1.0 && now <= exp as real - 1.0
    ensures IsRevoked(Run(revocations), revocations[i].claims, now)
  {
    assert Effective(revocations[i]);
    RevokedHasKey(revocations, i);
    var k := KeyHasSource(revocations, jti);
    TtlIsClose(revocations[k]);
  }

  /** A token is denied only if it was revoked, with a second or more to go, and at most for as long
      after its expiry as the key took to set. */
  lemma DeniedWasRevoked(revocations: seq<Revocation>, claims: Option<Claims>, now: real) returns (i: nat)
    requires Timely(revocations) && IsRevoked(Run(revocations), claims, now)
    ensures i < |revocations| && revocations[i].claims.Some? && claims.Some? && claims.value.jti.Some?
    ensures revocations[i].claims.value.jti == claims.value.jti && revocations[i].claims.value.exp.Some?
    ensures
      var exp := revocations[i].claims.value.exp.value as real;
      exp - revocations[i].now >= 1.0 && now < exp + (revocations[i].setAt - revocations[i].now)
  {
    i := KeyHasSource(revocations, claims.value.jti.value);
    TtlIsClose(revocations[i]);
  }

  class TokenRevocationService {
    var denied: Denied

    constructor ()
      ensures denied == map[]
    {
      denied := map[];
    }

    method RevokeAccessToken(claims: Option<Claims>, now: real, setAt: real)
      modifies this
      ensures denied == WithRevoked(old(denied), Revocation(claims, now, setAt))
    {
      if claims.None? {
        return;
      }
      var jti, exp := claims.value.jti, claims.value.exp;
      if jti.None? || jti.value == "" || exp.None? || exp.value == 0 {
        return;
      }
      var ttl := Truncated(exp.value as real - now);
      if ttl <= 0 {
        return;
      }
      denied := denied[jti.value := setAt + ttl as real];
    }

    method IsAccessTokenRevoked(claims: Option<Claims>, now: real) returns (revoked: bool)
      ensures revoked == IsRevoked(denied, claims, now)
    {
      if claims.None? || claims.value.jti.None? || claims.value.jti.value == "" {
        return false;
      }
      return claims.value.jti.value in denied && now < denied[claims.value.jti.value];
    }
  }
}
