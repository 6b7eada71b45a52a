/**
 The JWKS key set: parsing an endpoint response and replacing the validator's cache. Base64 and big-endian decoding are
 abstract: a field is the number it decodes to, or is not decodable. The RSA parameters are those of section 6.3.1 of
 RFC 7518, the key set is that of section 5 of RFC 7517.
 */
module Jwks {
  import opened Wrappers

  datatype Field = Base64(value: nat) | NotBase64(text: string)

  datatype Jwk = Jwk(kid: string, kty: string, n: Field, e: Field)

  datatype PublicKey = PublicKey(n: nat, e: int)

  type Keys = map<string, PublicKey>

  datatype ParseError = BadModulus(kid: string) | BadExponent(kid: string)

  /** The low 64 bits of a number, as a signed integer. */
  function ToInt64(v: nat): (r: int)
    ensures -0x8000_0000_0000_0000 <= r < 0x8000_0000_0000_0000
    ensures (v - r) % 0x1_0000_0000_0000_0000 == 0
  {
    var low := v % 0x1_0000_0000_0000_0000;
    if low < 0x8000_0000_0000_0000 then low else low - 0x1_0000_0000_0000_0000
  }

  predicate IsRsa(k: Jwk) {
    k.kty == "RSA"
  }

  predicate Decodable(k: Jwk) {
    k.n.Base64? && k.e.Base64?
  }

  predicate AllDecodable(jwks: seq<Jwk>) {
    forall k | k in jwks && IsRsa(k) :: Decodable(k)
  }

  /** jwks[i] is the last RSA entry under its kid. */
  predicate LastOfKid(jwks: seq<Jwk>, i: nat)
    requires i < |jwks|
  {
    IsRsa(jwks[i]) && forall j | i < j < |jwks| && IsRsa(jwks[j]) :: jwks[j].kid != jwks[i].kid
  }

  /** keys is the key set of a response: each RSA kid, mapped to its last entry, and nothing else. */
  ghost predicate KeySetOf(jwks: seq<Jwk>, keys: Keys)
    requires AllDecodable(jwks)
  {
    && (forall kid | kid in keys :: exists i :: 0 <= i < |jwks| && IsRsa(jwks[i]) && jwks[i].kid == kid)
    && (forall i | 0 <= i < |jwks| && IsRsa(jwks[i]) :: jwks[i].kid in keys)
    && (forall i | 0 <= i < |jwks| && LastOfKid(jwks, i) ::
          keys[jwks[i].kid] == PublicKey(jwks[i].n.value, ToInt64(jwks[i].e.value)))
  }

  lemma {:induction false} LastEntryExists(jwks: seq<Jwk>, i: nat) returns (j: nat)
    requires i < |jwks| && IsRsa(jwks[i])
    ensures i <= j < |jwks| && LastOfKid(jwks, j) && jwks[j].kid == jwks[i].kid
    decreases |jwks| - i
  {
    j := i;
    if !LastOfKid(jwks, i) {
      var next :| i < next < |jwks| && IsRsa(jwks[next]) && jwks[next].kid == jwks[i].kid;
      j := LastEntryExists(jwks, next);
    }
  }

  /** A response has one key set. */
  lemma KeySetUnique(jwks: seq<Jwk>, a: Keys, b: Keys)
    requires AllDecodable(jwks) && KeySetOf(jwks, a) && KeySetOf(jwks, b)
    ensures a == b
  {
    forall kid | kid in a || kid in b ensures kid in a && kid in b && a[kid] == b[kid] {
      var i :| 0 <= i < |jwks| && IsRsa(jwks[i]) && jwks[i].kid == kid;
      var j := LastEntryExists(jwks, i);
    }
  }

  /** The parse loop: keys of other types are skipped, and one undecodable RSA entry fails the whole response. */
  method ParseKeys(jwks: seq<Jwk>) returns (r: Result<Keys, ParseError>)
    ensures r.Success? <==> AllDecodable(jwks)
    ensures r.Success? <==> forall k | k in jwks && k.kty == "RSA" :: k.n.Base64? && k.e.Base64?
    ensures r.Success? ==> KeySetOf(jwks, r.value)
    ensures r.Failure? ==> exists i ::
              && 0 <= i < |jwks| && AllDecodable(jwks[..i]) && IsRsa(jwks[i])
              && r.error == if jwks[i].n.NotBase64? then BadModulus(jwks[i].kid) else BadExponent(jwks[i].kid)
  {
    var keys: Keys := map[];
    var i := 0;
    while i < |jwks|
      invariant 0 <= i <= |jwks| && AllDecodable(jwks[..i])
      invariant KeySetOf(jwks[..i], keys)
    {
      var k := jwks[i];
      assert jwks[..i + 1] == jwks[..i] + [k];
      if k.kty != "RSA" {
        KeySetSkips(jwks[..i], k, keys);
        i := i + 1;
        continue;
      }
      assert k in jwks && IsRsa(k);
      if k.n.NotBase64? {
        return Failure(BadModulus(k.kid));
      }
      if k.e.NotBase64? {
        return Failure(BadExponent(k.kid));
      }
      KeySetExtends(jwks[..i], k, keys);
      keys := keys[k.kid := PublicKey(k.n.value, ToInt64(k.e.value))];
      i := i + 1;
    }
    assert jwks[..i] == jwks;
    r := Success(keys);
  }

  lemma KeySetSkips(done: seq<Jwk>, k: Jwk, keys: Keys)
    requires AllDecodable(done) && KeySetOf(done, keys) && !IsRsa(k)
    ensures AllDecodable(done + [k]) && KeySetOf(done + [k], keys)
  {
    var all := done + [k];
    forall kid | kid in keys ensures exists i :: 0 <= i < |all| && IsRsa(all[i]) && all[i].kid == kid {
      var i :| 0 <= i < |done| && IsRsa(done[i]) && done[i].kid == kid;
      assert all[i] == done[i];
    }
    forall i | 0 <= i < |all| && LastOfKid(all, i)
      ensures keys[all[i].kid] == PublicKey(all[i].n.value, ToInt64(all[i].e.value))
    {
      assert LastOfKid(done, i) by {
        assert forall j | 0 <= j < |done| :: all[j] == done[j];
      }
    }
  }

  lemma KeySetExtends(done: seq<Jwk>, k: Jwk, keys: Keys)
    requires AllDecodable(done) && KeySetOf(done, keys) && IsRsa(k) && Decodable(k)
    ensures AllDecodable(done + [k])
    ensures KeySetOf(done + [k], keys[k.kid := PublicKey(k.n.value, ToInt64(k.e.value))])
  {
    var all := done + [k];
    var keys' := keys[k.kid := PublicKey(k.n.value, ToInt64(k.e.value))];
    assert all[|done|] == k;
    forall kid | kid in keys' ensures exists i :: 0 <= i < |all| && IsRsa(all[i]) && all[i].kid == kid {
      if kid != k.kid {
        var i :| 0 <= i < |done| && IsRsa(done[i]) && done[i].kid == kid;
        assert all[i] == done[i];
      }
    }
    forall i | 0 <= i < |all| && LastOfKid(all, i)
      ensures keys'[all[i].kid] == PublicKey(all[i].n.value, ToInt64(all[i].e.value))
    {
      if i < |done| {
        assert all[|done|].kid != all[i].kid;
        assert LastOfKid(done, i) by {
          assert forall j | 0 <= j < |done| :: all[j] == done[j];
        }
      }
    }
  }

  // ---------------------------------------------------------------------------------------------------------------
  // The fetch
  // ---------------------------------------------------------------------------------------------------------------

  datatype Body = NotJson | KeySet(jwks: seq<Jwk>)

  /** What the endpoint answers; closing the body may fail after it was read. */
  datatype Response = Unreachable | Reply(status: int, body: Body, closeFails: bool)

  /** The whole response was read and parsed, so the cache is replaced. */
  predicate Replaces(resp: Response) {
    resp.Reply? && resp.status == 200 && resp.body.KeySet? && AllDecodable(resp.body.jwks)
  }

  class Validator {
    var keys: Keys
    var lastFetch: Option<int>
    const cooldown: int

    constructor (cooldown: int)
      ensures keys == map[] && lastFetch == None && this.cooldown == cooldown
    {
      keys := map[];
      lastFetch := None;
      this.cooldown := cooldown;
    }

    /** Fails iff the response cannot be used or its body cannot be closed, and replaces the cache all or nothing. */
    method FetchKeys(resp: Response) returns (err: bool)
      modifies this`keys
      ensures err <==> !Replaces(resp) || resp.closeFails
      ensures Replaces(resp) <==>
                && resp.Reply? && resp.status == 200 && resp.body.KeySet?
                && forall k | k in resp.body.jwks && k.kty == "RSA" :: k.n.Base64? && k.e.Base64?
      ensures if Replaces(resp) then KeySetOf(resp.body.jwks, keys) else keys == old(keys)
    {
      if resp.Unreachable? {
        return true;
      }
      err := true;
      if resp.status == 200 && resp.body.KeySet? {
        var parsed := ParseKeys(resp.body.jwks);
        if parsed.Success? {
          keys := parsed.value;
          err := false;
        }
      }
      err := err || resp.closeFails;
    }

    /** One lookup with nothing running beside it; `resp` is the answer if it comes to a fetch at time `now`. */
    method GetKey(kid: string, now: int, resp: Response) returns (r: Result<PublicKey, string>)
      modifies this
      ensures kid in old(keys) ==> r == Success(old(keys)[kid]) && keys == old(keys) && lastFetch == old(lastFetch)
      ensures kid !in old(keys) && old(lastFetch).Some? && now - old(lastFetch).value < cooldown ==>
                r.Failure? && keys == old(keys) && lastFetch == old(lastFetch)
      ensures kid !in old(keys) && (old(lastFetch).Some? ==> now - old(lastFetch).value >= cooldown) ==>
                && lastFetch == Some(now)
                && (if Replaces(resp) then KeySetOf(resp.body.jwks, keys) else keys == old(keys))
                && (r.Success? <==> Replaces(resp) && !resp.closeFails && kid in keys)
                && (r.Success? ==> r.value == keys[kid])
    {
      if kid in keys {
        return Success(keys[kid]);
      }
      if TooSoon(lastFetch, now, cooldown) {
        return Failure("JWT key not found");
      }
      lastFetch := Some(now);
      var err := FetchKeys(resp);
      if err {
        return Failure("fetch failed");
      }
      if kid !in keys {
        return Failure("JWT key not found");
      }
      r := Success(keys[kid]);
    }
  }

  /** The zero time is longer ago than any cooldown. */
  predicate TooSoon(lastFetch: Option<int>, now: int, cooldown: int) {
    lastFetch.Some? && now - lastFetch.value < cooldown
  }

  /** The cache after a fetch, as FetchKeys leaves it. */
  ghost predicate CacheAfter(before: Keys, resp: Response, after: Keys) {
    if Replaces(resp) then KeySetOf(resp.body.jwks, after) else after == before
  }

  /**
   A failed fetch leaves the old cache whole for whatever the cache was iff the response was not completely parsed: an
   error of closing the body is reported although the keys were already replaced.
   */
  lemma FailedFetchKeepsCache(resp: Response)
    requires !Replaces(resp) || resp.closeFails
    ensures (forall before, after | CacheAfter(before, resp, after) :: after == before) <==> !Replaces(resp)
  {
    if Replaces(resp) {
      var after := ParsedKeys(resp.body.jwks);
      var before: Keys := if after == map[] then map["old" := PublicKey(0, 0)] else map[];
      assert "old" in before <==> after == map[];
      assert CacheAfter(before, resp, after) && after != before;
    }
  }

  ghost function ParsedKeys(jwks: seq<Jwk>): (keys: Keys)
    requires AllDecodable(jwks)
    ensures KeySetOf(jwks, keys)
  {
    if jwks == [] then map[]
    else
      var n := |jwks| - 1;
      assert jwks == jwks[..n] + [jwks[n]];
      var keys := ParsedKeys(jwks[..n]);
      if IsRsa(jwks[n]) then
        KeySetExtends(jwks[..n], jwks[n], keys);
        keys[jwks[n].kid := PublicKey(jwks[n].n.value, ToInt64(jwks[n].e.value))]
      else
        KeySetSkips(jwks[..n], jwks[n], keys);
        keys
  }
}
