/** What each call of the token services answers and stores, field by field
    (backend/app/services/oauth_service.py, token_service.py, revocation.py). */
module TokenCalls {
  import opened Prelude
  import opened Models
  import opened TextOps
  import opened TokenModel

  // ---------------------------------------------------------------- proof of possession

  /** The verifier answers the challenge: hashed for the method S256 or none, as
      it stands for the method plain, either in any case; no other method has an answer. */
  ghost predicate Answers(verifier: string, challenge: string, challengeMethod: string, s256: string -> string) {
    && verifier != "" && challenge != ""
    && (|| ((challengeMethod == "" || SameButCase(challengeMethod, "S256")) && challenge == s256(verifier))
        || (SameButCase(challengeMethod, "PLAIN") && challenge == verifier))
  }

  lemma {:induction false} MethodSpelled(challengeMethod: string)
    ensures Upper(challengeMethod) == "S256" <==> SameButCase(challengeMethod, "S256")
    ensures Upper(challengeMethod) == "PLAIN" <==> SameButCase(challengeMethod, "PLAIN")
    ensures SameButCase(challengeMethod, "S256") ==> !SameButCase(challengeMethod, "PLAIN")
    ensures Upper("S256") == "S256"
  {
    UpperSpelled(challengeMethod, "S256");
    UpperSpelled(challengeMethod, "PLAIN");
    UpperSpelled("S256", "S256");
    hide Upper;
  }

  lemma {:induction false} PkceSpelled(verifier: string, challenge: string, challengeMethod: string,
                                       s256: string -> string)
    ensures VerifyPkce(verifier, challenge, challengeMethod, s256) <==>
        Answers(verifier, challenge, challengeMethod, s256)
  {
    hide Upper, SameButCase;
    MethodSpelled(challengeMethod);
  }

  /** A challenge made from a verifier, by a hash without collisions or as it
      stands, is answered by that verifier and by no other string. */
  lemma {:induction false} OnlyItsVerifier(v: string, w: string, challengeMethod: string, s256: string -> string)
    requires v != "" && s256(v) != ""
    requires challengeMethod == "" || SameButCase(challengeMethod, "S256") || SameButCase(challengeMethod, "PLAIN")
    requires forall a, b :: s256(a) == s256(b) ==> a == b
    ensures var challenge := if SameButCase(challengeMethod, "PLAIN") then v else s256(v);
            VerifyPkce(w, challenge, challengeMethod, s256) <==> w == v
  {
    hide VerifyPkce, SameButCase;
    MethodSpelled(challengeMethod);
    PkceSpelled(w, if SameButCase(challengeMethod, "PLAIN") then v else s256(v), challengeMethod, s256);
    assert challengeMethod == "" ==> !SameButCase(challengeMethod, "PLAIN") by {
      NoCaseOfNothing();
    }
  }

  lemma {:induction false} NoCaseOfNothing()
    ensures !SameButCase("", "PLAIN")
  {
  }

  // ---------------------------------------------------------------- validation

  /** The key a header's id stands for: the registered one, else the public key,
      which is the one on disk until another is set. */
  ghost predicate Signs(cfg: Config, r: Ring, kid: string, signer: nat) {
    signer == if kid in r.byKid then r.byKid[kid] else if r.publicKey == None then cfg.filePair else r.publicKey.value
  }

  /** Loading keeps the keys that are set, takes the missing ones from disk, and
      registers the public key under the active id unless that id has a key. */
  lemma {:induction false} LoadSpelled(cfg: Config, r: Ring, kid: string)
    ensures var loaded := Load(cfg, r);
            && loaded.activeKid == r.activeKid
            && loaded.privateKey == Some(if r.privateKey == None then cfg.filePair else r.privateKey.value)
            && loaded.publicKey == Some(if r.publicKey == None then cfg.filePair else r.publicKey.value)
            && (kid in loaded.byKid <==> kid in r.byKid || kid == r.activeKid)
            && (kid in r.byKid ==> loaded.byKid[kid] == r.byKid[kid])
            && (kid == r.activeKid && kid !in r.byKid ==> Some(loaded.byKid[kid]) == loaded.publicKey)
  {
  }

  /** A token is accepted exactly when its signature checks, it has not expired,
      its id is not revoked in its own tenant, and the version it carries, if
      any, is not below the one set for its subject. */
  lemma {:induction false} AcceptsSpelled(cfg: Config, s: Server, t: Token, now: int)
    ensures Accepts(cfg, s, t, now) <==>
        && Signs(cfg, s.ring, t.kid, t.signer)
        && now < t.claims.expires
        && (t.claims.tenant, t.claims.jti) !in s.revoked
        && (t.claims.version != None && (t.claims.tenant, t.claims.subject) in s.versions ==>
              s.versions[(t.claims.tenant, t.claims.subject)] <= t.claims.version.value)
  {
  }

  // ---------------------------------------------------------------- issuing

  /** The reply holds an access and a refresh token of the user, with the ids
      drawn, signed with the active key and valid for the configured times. */
  ghost predicate IsPair(cfg: Config, ring: Ring, reply: Reply, principal: Uuid, tenant: Uuid, version: Option<int>,
                         ids: (string, string), now: int)
  {
    && reply.Granted?
    && reply.access.claims == Claims(ids.0, principal, tenant, Access, now + cfg.accessTtl, version)
    && reply.refresh.claims == Claims(ids.1, principal, tenant, Refresh, now + cfg.refreshTtl, None)
    && reply.access.kid == reply.refresh.kid == ring.activeKid
    && reply.access.signer == reply.refresh.signer
    && reply.access.signer == if ring.privateKey == None then cfg.filePair else ring.privateKey.value
  }

  /** Nothing changes but the key ring, in which a missing key is loaded, and
      what is noted about the two tokens. */
  ghost predicate Issues(s: Server, s': Server, reply: Reply, root: string, ids: (string, string)) {
    && reply.Granted?
    && s'.issued == s.issued + {reply.access, reply.refresh}
    && s'.drawn == s.drawn + {ids.0, ids.1}
    && s'.family == s.family[ids.1 := root]
    && s'.codes == s.codes && s'.redeemed == s.redeemed && s'.versions == s.versions
  }

  lemma {:induction false} IssuePairSpelled(cfg: Config, s: Server, principal: Uuid, tenant: Uuid,
                                            version: Option<int>, root: string, ids: (string, string), now: int)
    ensures var (s', reply) := IssuePair(cfg, s, principal, tenant, version, root, ids, now);
            && IsPair(cfg, s.ring, reply, principal, tenant, version, ids, now)
            && Issues(s, s', reply, root, ids)
            && s'.records == s.records && s'.revoked == s.revoked
  {
  }

  /** The record of a refresh token: its user, itself and its expiry, unrevoked. */
  ghost predicate Records(s: Server, s': Server, cfg: Config, reply: Reply, principal: Uuid, tenant: Uuid,
                          jti: string, now: int)
  {
    && reply.Granted?
    && s'.records == s.records[(tenant, jti) := Record(principal, reply.refresh, false, now + cfg.refreshTtl)]
  }

  /** What a code exchange, a login and a refresh end with: a pair of the family
      `root`, and a record of its refresh token. A login starts a family of its own. */
  lemma {:induction false} GrantPairSpelled(cfg: Config, s: Server, principal: Uuid, tenant: Uuid,
                                            version: Option<int>, root: string, ids: (string, string), now: int)
    ensures var (s', reply) := GrantPair(cfg, s, principal, tenant, version, root, ids, now);
            && IsPair(cfg, s.ring, reply, principal, tenant, version, ids, now)
            && Issues(s, s', reply, root, ids)
            && Records(s, s', cfg, reply, principal, tenant, ids.1, now) && s'.revoked == s.revoked
    ensures Do(cfg, s, Login(principal, tenant, version, ids), x => x, now) ==
        GrantPair(cfg, s, principal, tenant, version, ids.1, ids, now)
  {
    IssuePairSpelled(cfg, s, principal, tenant, version, root, ids, now);
    hide IssuePair;
  }

  // ---------------------------------------------------------------- the calls

  /** A code is exchanged exactly while it is stored and unexpired, by the client
      and for the address it was made for, against the verifier of its
      challenge. The pair is its user's; the code is gone either way. */
  lemma {:induction false} ExchangeSpelled(cfg: Config, s: Server, r: Request, s256: string -> string, now: int)
    requires r.Exchange?
    ensures var (s', reply) := DoExchange(cfg, s, r, s256, now);
            && (reply.Granted? <==>
                  && r.code in s.codes && now <= s.codes[r.code].expiresAt
                  && s.codes[r.code].clientId == r.clientId && s.codes[r.code].redirectUri == r.redirectUri
                  && Answers(r.verifier, s.codes[r.code].challenge, s.codes[r.code].challengeMethod, s256))
            && (reply.Granted? ==>
                  var data := s.codes[r.code];
                  && IsPair(cfg, s.ring, reply, data.principal, data.tenant, None, r.ids, now)
                  && Issues(s.(codes := s.codes - {r.code}, redeemed := s.redeemed + [r.code]), s', reply, r.code,
                            r.ids)
                  && Records(s, s', cfg, reply, data.principal, data.tenant, r.ids.1, now)
                  && s'.revoked == s.revoked)
            && (!reply.Granted? ==> s' == s.(codes := s.codes - {r.code}))
  {
    hide VerifyPkce, Answers, GrantPair, IsPair, Issues;
    if r.code in s.codes {
      var data := s.codes[r.code];
      PkceSpelled(r.verifier, data.challenge, data.challengeMethod, s256);
      GrantPairSpelled(cfg, s.(codes := s.codes - {r.code}, redeemed := s.redeemed + [r.code]),
                       data.principal, data.tenant, None, r.code, r.ids, now);
    } else {
      assert s.codes - {r.code} == s.codes;
    }
  }

  /** The record of a token lets it be exchanged: stored for it in its tenant,
      unrevoked and unexpired. */
  ghost predicate HasRecord(s: Server, t: Token, now: int) {
    var k := (t.claims.tenant, t.claims.jti);
    k in s.records && !s.records[k].revoked && s.records[k].token == t && now <= s.records[k].expiresAt
  }

  /** An accepted refresh token with a record is exchanged for a pair of the same
      user and family; it is revoked and its record marked. Any other token is
      refused and nothing but the key ring changes. */
  lemma {:induction false} RefreshSpelled(cfg: Config, s: Server, r: Request, now: int)
    requires r.RefreshAccess?
    ensures var (s', reply) := DoRefresh(cfg, s, r, now);
            var t := r.token;
            var k := (t.claims.tenant, t.claims.jti);
            && (reply.Granted? <==> Accepts(cfg, s, t, now) && t.claims.kind == Refresh && HasRecord(s, t, now))
            && (reply.Granted? ==>
                  && IsPair(cfg, s.ring, reply, t.claims.subject, t.claims.tenant, None, r.ids, now)
                  && Issues(s, s', reply, if t.claims.jti in s.family then s.family[t.claims.jti] else t.claims.jti,
                            r.ids)
                  && Records(s.(records := s.records[k := s.records[k].(revoked := true)]), s', cfg, reply,
                             t.claims.subject, t.claims.tenant, r.ids.1, now)
                  && s'.revoked == s.revoked + {k})
            && (!reply.Granted? ==> s'.(ring := s.ring) == s)
  {
    hide Accepts, GrantPair, IsPair;
    var t := r.token;
    var k := (t.claims.tenant, t.claims.jti);
    if k in s.records {
      GrantPairSpelled(cfg, s.(records := s.records[k := s.records[k].(revoked := true)], revoked := s.revoked + {k}),
                       t.claims.subject, t.claims.tenant, None,
                       if t.claims.jti in s.family then s.family[t.claims.jti] else t.claims.jti, r.ids, now);
    }
  }

  /** The same for rotation, which looks at no record and leaves none. */
  lemma {:induction false} RotateSpelled(cfg: Config, s: Server, r: Request, now: int)
    requires r.RotateRefresh?
    ensures var (s', reply) := DoRotate(cfg, s, r, now);
            var t := r.token;
            && (reply.Granted? <==> Accepts(cfg, s, t, now) && t.claims.kind == Refresh)
            && (reply.Granted? ==>
                  && IsPair(cfg, s.ring, reply, t.claims.subject, t.claims.tenant, None, r.ids, now)
                  && Issues(s, s', reply, if t.claims.jti in s.family then s.family[t.claims.jti] else t.claims.jti,
                            r.ids)
                  && s'.records == s.records && s'.revoked == s.revoked + {(t.claims.tenant, t.claims.jti)})
            && (!reply.Granted? ==> s'.(ring := s.ring) == s)
  {
    hide Accepts, IssuePair, IsPair;
    var t := r.token;
    IssuePairSpelled(cfg, s.(revoked := s.revoked + {(t.claims.tenant, t.claims.jti)}),
                     t.claims.subject, t.claims.tenant, None,
                     if t.claims.jti in s.family then s.family[t.claims.jti] else t.claims.jti, r.ids, now);
  }

  /** Revoking puts the id in the revoked set of the tenant named; a refresh
      token's record in that tenant is marked, and nothing else changes. */
  lemma {:induction false} RevokeTokenSpelled(s: Server, t: Token, tenant: Uuid)
    ensures var s', k := DoRevokeToken(s, t, tenant), (tenant, t.claims.jti);
            && s'.revoked == s.revoked + {k} && s'.records.Keys == s.records.Keys
            && (forall j :: j in s.records ==>
                  s'.records[j] == if j == k && t.claims.kind == Refresh then s.records[j].(revoked := true)
                                   else s.records[j])
            && s'.(records := s.records, revoked := s.revoked) == s
  {
  }

  /** Revoking a session does so to every unrevoked record of the user in the tenant, and to no other. */
  lemma {:induction false} RevokeSessionSpelled(s: Server, principal: Uuid, tenant: Uuid)
    ensures var s' := DoRevokeSession(s, principal, tenant);
            && s'.records.Keys == s.records.Keys
            && (forall k :: k in s.records ==>
                  s'.records[k] == if k.0 == tenant && s.records[k].principal == principal
                                   then s.records[k].(revoked := true) else s.records[k])
            && (forall k :: k in s'.revoked <==>
                  || k in s.revoked
                  || (k in s.records && k.0 == tenant && s.records[k].principal == principal && !s.records[k].revoked))
            && s'.(records := s.records, revoked := s.revoked) == s
  {
    var s' := DoRevokeSession(s, principal, tenant);
    assert s'.records.Keys == s.records.Keys;
    assert forall k :: k in SessionKeys(s, principal, tenant) <==> SessionRecord(s, k, principal, tenant);
  }

  /** The other calls: a code stored, a version set, a key registered or made active. */
  lemma {:induction false} OtherCallsSpelled(cfg: Config, s: Server, r: Request, s256: string -> string, now: int)
    ensures var s' := Do(cfg, s, r, s256, now).0;
            match r
            case CreateCode(code, data) => s' == s.(codes := s.codes[code := data], drawn := s.drawn + {code})
            case SetVersion(p, tenant, v) => s' == s.(versions := s.versions[(tenant, p) := v])
            case Register(kid, key) => s' == s.(ring := s.ring.(byKid := s.ring.byKid[kid := key]))
            case RotateSigningKey(kid, pair) =>
              s' == s.(ring := Ring(Some(pair), Some(pair), kid, s.ring.byKid[kid := pair]))
            case _ => s'.versions == s.versions
  {
  }
}
