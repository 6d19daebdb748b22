/** The services themselves: `TokenService`, `OAuthService` and
    `RevocationService` over one store, method by method, each shown to do what
    the machine of TokenModel does. */
module TokenServer {
  import opened Prelude
  import opened Models
  import opened TokenModel
  import opened TokenSafety

  class AuthServer {
    const cfg: Config
    const s256: string -> string

    var privateKey: Option<nat>
    var publicKey: Option<nat>
    var activeKid: string
    var publicKeysByKid: map<string, nat>

    var codes: map<string, CodeData>
    var records: map<TokenKey, Record>
    var revoked: set<TokenKey>
    var versions: map<TokenKey, int>

    ghost var issued: set<Token>
    ghost var family: map<string, string>
    ghost var redeemed: seq<string>
    ghost var drawn: set<string>

    constructor (cfg: Config, s256: string -> string, activeKid: string)
      ensures this.cfg == cfg && this.s256 == s256 && State() == Start(activeKid)
    {
      this.cfg, this.s256 := cfg, s256;
      privateKey, publicKey, this.activeKid, publicKeysByKid := None, None, activeKid, map[];
      codes, records, revoked, versions := map[], map[], {}, map[];
      issued, family, redeemed, drawn := {}, map[], [], {};
    }

    ghost function State(): Server
      reads this
    {
      Server(Ring(privateKey, publicKey, activeKid, publicKeysByKid), codes, records, revoked, versions,
             issued, family, redeemed, drawn)
    }

    // -------------------------------------------------------------- TokenService

    method LoadKeys()
      modifies this`privateKey, this`publicKey, this`publicKeysByKid
      ensures State() == old(State()).(ring := Load(cfg, old(State()).ring))
    {
      if privateKey.None? {
        privateKey := Some(cfg.filePair);
      }
      if publicKey.None? {
        publicKey := Some(cfg.filePair);
      }
      if activeKid !in publicKeysByKid {
        publicKeysByKid := publicKeysByKid[activeKid := publicKey.value];
      }
    }

    method RegisterVerificationKey(kid: string, key: nat)
      requires Sound(cfg, State()) && KidFree(cfg, State(), kid, key)
      modifies this`publicKeysByKid
      ensures Sound(cfg, State())
      ensures State() == old(State()).(ring := RegisterKey(old(State()).ring, kid, key))
    {
      KeyChangeKeeps(cfg, State(), kid, key);
      hide Sound, KidFree, Load;
      publicKeysByKid := publicKeysByKid[kid := key];
    }

    method RotateSigningKey(newKid: string, pair: nat)
      requires Sound(cfg, State()) && KidFree(cfg, State(), newKid, pair)
      modifies this`privateKey, this`publicKey, this`activeKid, this`publicKeysByKid
      ensures Sound(cfg, State())
      ensures State() == old(State()).(ring := RotateKey(old(State()).ring, newKid, pair))
    {
      hide Sound, KidFree, Load;
      KeyChangeKeeps(cfg, State(), newKid, pair);
      privateKey, publicKey, activeKid := Some(pair), Some(pair), newKid;
      publicKeysByKid := publicKeysByKid[newKid := pair];
    }

    /** `issue_access_token` and `issue_refresh_token`: sign with the active key. */
    method Issue(claims: Claims, ghost root: Option<string>) returns (token: Token)
      modifies this`privateKey, this`publicKey, this`publicKeysByKid, this`issued, this`family, this`drawn
      ensures token == Sign(cfg, old(State()), claims)
      ensures State() == Issued(cfg, old(State()), token, root)
    {
      LoadKeys();
      token := Token(activeKid, privateKey.value, claims);
      issued := issued + {token};
      drawn := drawn + {claims.jti};
      if root.Some? {
        family := family[claims.jti := root.value];
      }
    }

    method ValidateToken(token: Token, now: int) returns (accepted: bool)
      modifies this`privateKey, this`publicKey, this`publicKeysByKid
      ensures State() == old(State()).(ring := Load(cfg, old(State()).ring))
      ensures accepted <==> Accepts(cfg, old(State()), token, now)
    {
      LoadKeys();
      var verifyKey := if token.kid in publicKeysByKid then publicKeysByKid[token.kid] else publicKey.value;
      if verifyKey != token.signer || token.claims.expires <= now {
        return false;
      }
      if (token.claims.tenant, token.claims.jti) in revoked {
        return false;
      }
      if token.claims.version.Some? && (token.claims.tenant, token.claims.subject) in versions
         && versions[(token.claims.tenant, token.claims.subject)] > token.claims.version.value {
        return false;
      }
      return true;
    }

    /** Sign the two tokens of a family. */
    method IssueBoth(principal: Uuid, tenant: Uuid, version: Option<int>, ghost root: string, ids: (string, string),
                     now: int)
      returns (access: Token, refresh: Token)
      modifies this`privateKey, this`publicKey, this`publicKeysByKid, this`issued, this`family, this`drawn
      ensures (State(), Granted(access, refresh)) ==
          IssuePair(cfg, old(State()), principal, tenant, version, root, ids, now)
    {
      access := Issue(AccessClaims(cfg, ids.0, principal, tenant, version, now), None);
      refresh := Issue(RefreshClaims(cfg, ids.1, principal, tenant, now), Some(root));
    }

    method RotateRefreshToken(token: Token, ids: (string, string), now: int) returns (reply: Reply)
      requires Sound(cfg, State()) && Lawful(cfg, State(), RotateRefresh(token, ids))
      modifies this
      ensures Sound(cfg, State())
      ensures (State(), reply) == DoRotate(cfg, old(State()), RotateRefresh(token, ids), now)
    {
      hide Sound, Lawful, Accepts, Load, IssuePair, DoRotate, Root;
      RotateKeeps(cfg, State(), RotateRefresh(token, ids), now);
      LoadTwice(cfg, State());
      ghost var root := Root(State(), token);
      RotateResult(cfg, State(), token, ids, now);
      var accepted := ValidateToken(token, now);
      if !accepted || token.claims.kind != Refresh {
        return Denied;
      }
      revoked := revoked + {(token.claims.tenant, token.claims.jti)};
      IssueAfterLoad(cfg, old(State()), old(State()).records, old(State()).revoked + {IdOf(token)},
          token.claims.subject,
                     token.claims.tenant, None, root, ids, now);
      var access, refresh := IssueBoth(token.claims.subject, token.claims.tenant, None, root, ids, now);
      return Granted(access, refresh);
    }

    // -------------------------------------------------------------- OAuthService

    method CreateAuthorizationCode(code: string, data: CodeData)
      requires Sound(cfg, State()) && code !in drawn
      modifies this`codes, this`drawn
      ensures Sound(cfg, State())
      ensures State() == old(State()).(codes := old(codes)[code := data], drawn := old(drawn) + {code})
    {
      CreateCodeKeeps(cfg, State(), code, data);
      codes := codes[code := data];
      drawn := drawn + {code};
    }

    /** Deletes the code before it looks at its expiry. */
    method ConsumeAuthorizationCode(code: string, now: int) returns (data: Option<CodeData>)
      modifies this`codes
      ensures codes == old(codes) - {code}
      ensures data.Some? <==> code in old(codes) && now <= old(codes)[code].expiresAt
      ensures data.Some? ==> data.value == old(codes)[code]
    {
      if code !in codes {
        return None;
      }
      var found := codes[code];
      codes := codes - {code};
      if found.expiresAt < now {
        return None;
      }
      return Some(found);
    }

    /** Raises (None) when the token it is to store does not validate. */
    method PersistRefreshToken(refresh: Token, principal: Uuid, now: int) returns (stored: bool)
      modifies this`privateKey, this`publicKey, this`publicKeysByKid, this`records
      ensures stored <==> Accepts(cfg, old(State()), refresh, now)
      ensures State() == var s := old(State()).(ring := Load(cfg, old(State()).ring));
                         if stored then Persist(s, principal, refresh) else s
    {
      stored := ValidateToken(refresh, now);
      if stored {
        records := records[(refresh.claims.tenant, refresh.claims.jti) :=
                             Record(principal, refresh, false, refresh.claims.expires)];
      }
    }

    /** Issue both tokens and store the refresh token; storing cannot fail. */
    method GrantTokens(principal: Uuid, tenant: Uuid, version: Option<int>, ghost root: string, ids: (string, string),
                       now: int)
      returns (reply: Reply)
      requires KeysSound(cfg, State()) && cfg.refreshTtl > 0 && FreshIds(State(), ids)
      modifies this
      ensures (State(), reply) == GrantPair(cfg, old(State()), principal, tenant, version, root, ids, now)
    {
      SuccessorAccepted(cfg, State(), principal, tenant, version, root, ids, now);
      PairIsLoaded(cfg, State(), principal, tenant, version, root, ids, now);
      assert (tenant, ids.1) !in revoked;
      hide KeysSound, FreshIds, Accepts, IssuePair, Load;
      var access, refresh := IssueBoth(principal, tenant, version, root, ids, now);
      var stored := PersistRefreshToken(refresh, principal, now);
      assert stored;
      return Granted(access, refresh);
    }

    /** The checks of `exchange_authorization_code`: the code is there and fresh,
        and client, redirect address and PKCE verifier are its own. */
    method RedeemCode(code: string, verifier: string, clientId: string, redirectUri: string, ids: (string, string),
                      now: int)
      returns (found: Option<CodeData>)
      modifies this`codes
      ensures codes == old(codes) - {code}
      ensures found.Some? <==>
        (code in old(codes)
         && CodeRedeemable(old(codes)[code], Exchange(code, verifier, clientId, redirectUri, ids), s256, now))
      ensures found.Some? ==> found.value == old(codes)[code]
    {
      hide VerifyPkce;
      var data := ConsumeAuthorizationCode(code, now);
      if data.None? {
        return None;
      }
      if data.value.clientId != clientId {
        return None;
      }
      if data.value.redirectUri != redirectUri {
        return None;
      }
      if !VerifyPkce(verifier, data.value.challenge, data.value.challengeMethod, s256) {
        return None;
      }
      return data;
    }

    method ExchangeAuthorizationCode(code: string, verifier: string, clientId: string, redirectUri: string,
                                     ids: (string, string), now: int) returns (reply: Reply)
      requires Sound(cfg, State()) && cfg.refreshTtl > 0 && FreshIds(State(), ids)
      modifies this
      ensures Sound(cfg, State())
      ensures (State(), reply) ==
              DoExchange(cfg, old(State()), Exchange(code, verifier, clientId, redirectUri, ids), s256, now)
    {
      ghost var before, r := State(), Exchange(code, verifier, clientId, redirectUri, ids);
      assert Lawful(cfg, before, r);
      hide Sound, KeysSound, DoExchange, GrantPair, CodeRedeemable, FreshIds, Lawful, Later;
      ExchangeKeeps(cfg, before, r, s256, now);
      ExchangeResult(cfg, before, r, s256, now);
      var found := RedeemCode(code, verifier, clientId, redirectUri, ids, now);
      assert State() == before.(codes := before.codes - {code});
      if found.None? {
        assert DoExchange(cfg, before, r, s256, now) == (State(), Denied);
        return Denied;
      }
      redeemed := redeemed + [code];
      assert DoExchange(cfg, before, r, s256, now)
          == GrantPair(cfg, State(), found.value.principal, found.value.tenant, None, code, ids, now);
      SameFresh(before, ids, codes, redeemed);
      SoundKeys(cfg, before, State());
      reply := GrantTokens(found.value.principal, found.value.tenant, None, code, ids, now);
    }

    /** Native login issues and stores a pair in the same way. */
    method NativeLogin(principal: Uuid, tenant: Uuid, version: Option<int>, ids: (string, string), now: int)
      returns (reply: Reply)
      requires Sound(cfg, State()) && cfg.refreshTtl > 0 && FreshIds(State(), ids)
      modifies this
      ensures Sound(cfg, State())
      ensures (State(), reply) == GrantPair(cfg, old(State()), principal, tenant, version, ids.1, ids, now)
    {
      LoginKeeps(cfg, State(), principal, tenant, version, ids, now);
      SoundKeys(cfg, State(), State());
      hide Sound;
      reply := GrantTokens(principal, tenant, version, ids.1, ids, now);
    }

    /** The checks of `refresh_access_token`: the token validates, is a refresh
        token, and its record is there, unrevoked, its own and unexpired. */
    method CheckRefresh(token: Token, now: int) returns (ok: bool)
      modifies this`privateKey, this`publicKey, this`publicKeysByKid
      ensures State() == old(State()).(ring := Load(cfg, old(State()).ring))
      ensures ok <==> Accepts(cfg, old(State()), token, now) && token.claims.kind == Refresh
                      && RecordRefreshable(old(State()), token, now)
    {
      hide Accepts, Load;
      var accepted := ValidateToken(token, now);
      if !accepted || token.claims.kind != Refresh {
        return false;
      }
      var key := (token.claims.tenant, token.claims.jti);
      if key !in records || records[key].revoked {
        return false;
      }
      return records[key].token == token && now <= records[key].expiresAt;
    }

    method RefreshAccessToken(token: Token, ids: (string, string), now: int) returns (reply: Reply)
      requires Sound(cfg, State()) && cfg.refreshTtl > 0 && Lawful(cfg, State(), RefreshAccess(token, ids))
      modifies this
      ensures Sound(cfg, State())
      ensures (State(), reply) == DoRefresh(cfg, old(State()), RefreshAccess(token, ids), now)
    {
      hide Sound, Lawful, Accepts, Load, GrantPair, FreshIds, KeysSound, RecordRefreshable, Root, DoRefresh,
          MarkRevoked;
      ghost var before := State();
      RefreshKeeps(cfg, before, RefreshAccess(token, ids), now);
      if Accepts(cfg, before, token, now) && token.claims.kind == Refresh {
        RefreshReady(cfg, before, token, ids, now);
      }
      ghost var root := Root(before, token);
      RefreshResult(cfg, before, token, ids, now);
      var ok := CheckRefresh(token, now);
      if !ok {
        return Denied;
      }
      var key := (token.claims.tenant, token.claims.jti);
      records := MarkRevoked(records, key);
      revoked := revoked + {key};
      assert State() == before.(ring := Load(cfg, before.ring), records := records, revoked := revoked);
      GrantAfterLoad(cfg, before, records, revoked, token.claims.subject, token.claims.tenant, None, root, ids, now);
      reply := GrantTokens(token.claims.subject, token.claims.tenant, None, root, ids, now);
    }

    // -------------------------------------------------------------- RevocationService

    method RevokeToken(token: Token, tenant: Uuid)
      requires Sound(cfg, State())
      modifies this`records, this`revoked
      ensures Sound(cfg, State())
      ensures State() == DoRevokeToken(old(State()), token, tenant)
    {
      hide Sound;
      RevokeTokenKeeps(cfg, State(), token, tenant);
      var key := (tenant, token.claims.jti);
      if token.claims.kind == Refresh && key in records {
        records := records[key := records[key].(revoked := true)];
      }
      revoked := revoked + {key};
    }

    /** Marks and revokes every unrevoked record of the user, in any order. */
    method RevokeSession(principal: Uuid, tenant: Uuid)
      requires Sound(cfg, State())
      modifies this`records, this`revoked
      ensures Sound(cfg, State())
      ensures State() == DoRevokeSession(old(State()), principal, tenant)
    {
      RevokeSessionKeeps(cfg, State(), principal, tenant);
      SessionEnds(State(), principal, tenant);
      hide *;
      var tokens := SessionTokens(principal, tenant);
      MarkAll(tokens);
    }

    /** The unrevoked records of a user. */
    method SessionTokens(principal: Uuid, tenant: Uuid) returns (tokens: set<TokenKey>)
      ensures tokens == SessionKeys(State(), principal, tenant)
    {
      tokens := set k | k in records && k.0 == tenant && records[k].principal == principal && !records[k].revoked;
    }

    method MarkAll(keys: set<TokenKey>)
      requires keys <= records.Keys
      modifies this`records, this`revoked
      ensures records == PartlyMarked(old(records), keys) && revoked == old(revoked) + keys
    {
      ghost var before := records;
      var left := keys;
      assert PartlyMarked(before, {}) == before;
      while left != {}
        invariant left <= keys
        invariant records == PartlyMarked(before, keys - left)
        invariant revoked == old(revoked) + (keys - left)
        decreases left
      {
        var k :| k in left;
        MarkOneMore(before, keys - left, k);
        assert keys - (left - {k}) == (keys - left) + {k};
        records := records[k := records[k].(revoked := true)];
        revoked := revoked + {k};
        left := left - {k};
      }
    }
  }

  function PartlyMarked(records: map<TokenKey, Record>, done: set<TokenKey>): map<TokenKey, Record> {
    map k | k in records :: if k in done then records[k].(revoked := true) else records[k]
  }

  lemma {:induction false} MarkOneMore(records: map<TokenKey, Record>, done: set<TokenKey>, k: TokenKey)
    requires k in records && k !in done
    ensures k in PartlyMarked(records, done)
    ensures PartlyMarked(records, done)[k := PartlyMarked(records, done)[k].(revoked := true)] ==
        PartlyMarked(records, done + {k})
  {
  }

  lemma {:induction false} SessionEnds(s: Server, principal: Uuid, tenant: Uuid)
    ensures var all := SessionKeys(s, principal, tenant);
            && all <= s.records.Keys
            && DoRevokeSession(s, principal, tenant) ==
                s.(records := PartlyMarked(s.records, all), revoked := s.revoked + all)
  {
  }

  // ---------------------------------------------------------------- loading early changes nothing

  lemma {:induction false} LoadTwice(cfg: Config, s: Server)
    ensures Load(cfg, Load(cfg, s.ring)) == Load(cfg, s.ring)
  {
  }

  lemma {:induction false} IssueAfterLoad(cfg: Config, s: Server, records: map<TokenKey, Record>,
                                          revoked: set<TokenKey>, principal: Uuid,
                       tenant: Uuid, version: Option<int>, root: string, ids: (string, string), now: int)
    ensures IssuePair(cfg, s.(ring := Load(cfg, s.ring), records := records, revoked := revoked), principal, tenant,
        version, root, ids, now)
         == IssuePair(cfg, s.(records := records, revoked := revoked), principal, tenant, version, root, ids, now)
  {
    LoadTwice(cfg, s);
  }

  lemma {:induction false} GrantAfterLoad(cfg: Config, s: Server, records: map<TokenKey, Record>,
                                          revoked: set<TokenKey>, principal: Uuid,
                       tenant: Uuid, version: Option<int>, root: string, ids: (string, string), now: int)
    ensures GrantPair(cfg, s.(ring := Load(cfg, s.ring), records := records, revoked := revoked), principal, tenant,
        version, root, ids, now)
         == GrantPair(cfg, s.(records := records, revoked := revoked), principal, tenant, version, root, ids, now)
  {
    IssueAfterLoad(cfg, s, records, revoked, principal, tenant, version, root, ids, now);
    hide IssuePair;
  }

  lemma {:induction false} PairIsLoaded(cfg: Config, s: Server, principal: Uuid, tenant: Uuid, version: Option<int>,
                                        root: string,
                     ids: (string, string), now: int)
    ensures var (s', reply) := IssuePair(cfg, s, principal, tenant, version, root, ids, now);
            && s'.ring == Load(cfg, s'.ring)
            && IdOf(reply.refresh) == (tenant, ids.1) && reply.refresh.claims.expires == now + cfg.refreshTtl
  {
    LoadTwice(cfg, s);
  }

  lemma {:induction false} SoundKeys(cfg: Config, s: Server, s': Server)
    requires Sound(cfg, s) && s'.ring == s.ring && s'.issued == s.issued
    ensures KeysSound(cfg, s')
  {
  }

  lemma {:induction false} RefreshResult(cfg: Config, s: Server, t: Token, ids: (string, string), now: int)
    ensures DoRefresh(cfg, s, RefreshAccess(t, ids), now) ==
            if Accepts(cfg, s, t, now) && t.claims.kind == Refresh && RecordRefreshable(s, t, now) then
              GrantPair(cfg, s.(records := MarkRevoked(s.records, IdOf(t)), revoked := s.revoked + {IdOf(t)}),
                        t.claims.subject, t.claims.tenant, None, Root(s, t), ids, now)
            else (s.(ring := Load(cfg, s.ring)), Denied)
  {
    hide Accepts, GrantPair, RecordRefreshable, MarkRevoked;
  }

  lemma {:induction false} RotateResult(cfg: Config, s: Server, t: Token, ids: (string, string), now: int)
    ensures DoRotate(cfg, s, RotateRefresh(t, ids), now) ==
            if Accepts(cfg, s, t, now) && t.claims.kind == Refresh then
              IssuePair(cfg, s.(records := s.records, revoked := s.revoked + {IdOf(t)}),
                        t.claims.subject, t.claims.tenant, None, Root(s, t), ids, now)
            else (s.(ring := Load(cfg, s.ring)), Denied)
  {
    hide Accepts, IssuePair;
  }

  lemma {:induction false} ExchangeResult(cfg: Config, s: Server, r: TokenModel.Request, s256: string -> string,
                                          now: int)
    requires r.Exchange?
    ensures DoExchange(cfg, s, r, s256, now) ==
            if r.code in s.codes && CodeRedeemable(s.codes[r.code], r, s256, now) then
              GrantPair(cfg, s.(codes := s.codes - {r.code}, redeemed := s.redeemed + [r.code]),
                        s.codes[r.code].principal, s.codes[r.code].tenant, None, r.code, r.ids, now)
            else (s.(codes := s.codes - {r.code}), Denied)
  {
    hide GrantPair, CodeRedeemable;
    if r.code !in s.codes {
      assert s.codes - {r.code} == s.codes;
    }
  }

  lemma {:induction false} SameFresh(s: Server, ids: (string, string), codes: map<string, CodeData>,
                                     redeemed: seq<string>)
    requires FreshIds(s, ids)
    ensures FreshIds(s.(codes := codes, redeemed := redeemed), ids)
  {
  }

  lemma {:induction false} RefreshReady(cfg: Config, s: Server, t: Token, ids: (string, string), now: int)
    requires Sound(cfg, s) && Lawful(cfg, s, RefreshAccess(t, ids)) && Accepts(cfg, s, t, now)
    ensures forall records ::
              var s' := s.(ring := Load(cfg, s.ring), records := records, revoked := s.revoked + {IdOf(t)});
              KeysSound(cfg, s') && FreshIds(s', ids)
  {
  }
}
