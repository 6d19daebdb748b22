/** What every run of the token machine keeps: codes redeemed once, one live
    refresh token a family, revocation for good, and validation that accepts
    exactly the unexpired, unrevoked tokens of current version. */
module TokenSafety {
  import opened Prelude
  import opened Models
  import opened TokenModel

  // ---------------------------------------------------------------- the invariant

  /** Every token signed can be checked with the key its header names, and so
      can the next one. */
  ghost predicate KeysSound(cfg: Config, s: Server) {
    && Load(cfg, s.ring).byKid[s.ring.activeKid] == Load(cfg, s.ring).privateKey.value
    && forall t :: t in s.issued ==> t.kid in s.ring.byKid && s.ring.byKid[t.kid] == t.signer
  }

  ghost predicate IdsSound(s: Server) {
    && (forall t :: t in s.issued ==> t.claims.jti in s.drawn)
    && (forall t, u :: t in s.issued && u in s.issued && t.claims.jti == u.claims.jti ==> t == u)
    && (forall j :: j in s.family ==> j in s.drawn && s.family[j] in s.drawn)
    && (forall c :: c in s.codes || c in s.redeemed ==> c in s.drawn)
  }

  /** A code is redeemed at most once, and until then it has no family. */
  ghost predicate CodesSound(s: Server) {
    && Distinct(s.redeemed)
    && (forall c :: c in s.codes ==> c !in s.redeemed)
    && (forall c, j :: c in s.codes && j in s.family ==> s.family[j] != c)
  }

  ghost predicate Live(s: Server, t: Token) {
    t in s.issued && t.claims.kind == Refresh && IdOf(t) !in s.revoked
  }

  /** At most one refresh token of a family is not revoked. */
  ghost predicate FamiliesSound(s: Server) {
    && (forall t :: t in s.issued && t.claims.kind == Refresh ==> t.claims.jti in s.family)
    && (forall t, u :: Live(s, t) && Live(s, u) && s.family[t.claims.jti] == s.family[u.claims.jti] ==> t == u)
  }

  /** A record marked revoked is in the revoked set. */
  ghost predicate RecordsSound(s: Server) {
    forall k :: k in s.records && s.records[k].revoked ==> k in s.revoked
  }

  ghost predicate Sound(cfg: Config, s: Server) {
    KeysSound(cfg, s) && IdsSound(s) && CodesSound(s) && FamiliesSound(s) && RecordsSound(s)
  }

  // ---------------------------------------------------------------- which runs

  /** No one can make a token whose signature checks but that was never signed. */
  ghost predicate Genuine(cfg: Config, s: Server, t: Token) {
    VerifyKey(cfg, s.ring, t.kid) == t.signer ==> t in s.issued
  }

  ghost predicate FreshIds(s: Server, ids: (string, string)) {
    && ids.0 !in s.drawn && ids.1 !in s.drawn && ids.0 != ids.1
    && forall k :: k in s.revoked ==> k.1 != ids.1
  }

  /** A kid is new, or names the key it is given already. */
  ghost predicate KidFree(cfg: Config, s: Server, kid: string, key: nat) {
    kid in Load(cfg, s.ring).byKid ==> Load(cfg, s.ring).byKid[kid] == key
  }

  /** Random values are new, presented tokens are not forged, key ids are not reused. */
  ghost predicate Lawful(cfg: Config, s: Server, r: Request) {
    match r
    case CreateCode(code, _) => code !in s.drawn
    case Exchange(_, _, _, _, ids) => FreshIds(s, ids)
    case Login(_, _, _, ids) => FreshIds(s, ids)
    case RefreshAccess(t, ids) => FreshIds(s, ids) && Genuine(cfg, s, t)
    case RotateRefresh(t, ids) => FreshIds(s, ids) && Genuine(cfg, s, t)
    case Register(kid, key) => KidFree(cfg, s, kid, key)
    case RotateSigningKey(kid, pair) => KidFree(cfg, s, kid, pair)
    case _ => true
  }

  /** Nothing revoked is forgotten, nothing redeemed, signed or drawn is undone,
      and a code once gone does not come back. */
  ghost predicate Later(s: Server, s': Server) {
    && s.revoked <= s'.revoked && s.redeemed <= s'.redeemed && s.issued <= s'.issued && s.drawn <= s'.drawn
    && forall c :: c in s.drawn && c !in s.codes ==> c !in s'.codes
  }

  // ---------------------------------------------------------------- one step

  lemma {:induction false} IssueKeepsKeys(cfg: Config, s: Server, claims: Claims, root: Option<string>)
    requires KeysSound(cfg, s)
    ensures KeysSound(cfg, Issued(cfg, s, Sign(cfg, s, claims), root))
  {
  }

  /** Signing a token with a new jti; as a refresh token it may join a family
      that has no live member. */
  lemma {:induction false} IssueKeeps(cfg: Config, s: Server, claims: Claims, root: Option<string>)
    requires Sound(cfg, s) && claims.jti !in s.drawn
    requires claims.kind == Refresh <==> root.Some?
    requires root.Some? ==>
               && (root.value in s.drawn || root.value == claims.jti)
               && root.value !in s.codes
               && (forall t :: Live(s, t) ==> s.family[t.claims.jti] != root.value)
    ensures Sound(cfg, Issued(cfg, s, Sign(cfg, s, claims), root))
  {
    IssueKeepsKeys(cfg, s, claims, root);
    IssueKeepsIds(cfg, s, claims, root);
    IssueKeepsFamilies(cfg, s, claims, root);
  }

  lemma {:induction false} IssueKeepsIds(cfg: Config, s: Server, claims: Claims, root: Option<string>)
    requires IdsSound(s) && CodesSound(s) && RecordsSound(s) && claims.jti !in s.drawn
    requires root.Some? ==> (root.value in s.drawn || root.value == claims.jti) && root.value !in s.codes
    ensures var s' := Issued(cfg, s, Sign(cfg, s, claims), root);
            IdsSound(s') && CodesSound(s') && RecordsSound(s')
  {
  }

  lemma {:induction false} IssueKeepsFamilies(cfg: Config, s: Server, claims: Claims, root: Option<string>)
    requires IdsSound(s) && FamiliesSound(s) && claims.jti !in s.drawn
    requires claims.kind == Refresh <==> root.Some?
    requires root.Some? ==> forall t :: Live(s, t) ==> s.family[t.claims.jti] != root.value
    ensures FamiliesSound(Issued(cfg, s, Sign(cfg, s, claims), root))
  {
    var t := Sign(cfg, s, claims);
    var s' := Issued(cfg, s, t, root);
    assert forall u :: u in s.issued ==> u.claims.jti != claims.jti;
    forall a, b | Live(s', a) && Live(s', b) && s'.family[a.claims.jti] == s'.family[b.claims.jti] ensures a == b {
      assert a != t ==> Live(s, a);
      assert b != t ==> Live(s, b);
    }
  }

  lemma {:induction false} PairKeeps(cfg: Config, s: Server, principal: Uuid, tenant: Uuid, version: Option<int>,
                                     root: string,
                  ids: (string, string), now: int)
    requires Sound(cfg, s) && FreshIds(s, ids)
    requires root in s.drawn || root == ids.1
    requires root !in s.codes
    requires forall t :: Live(s, t) ==> s.family[t.claims.jti] != root
    ensures var s' := IssuePair(cfg, s, principal, tenant, version, root, ids, now).0;
            Sound(cfg, s') && Later(s, s') && s'.records == s.records
  {
    var access := Sign(cfg, s, AccessClaims(cfg, ids.0, principal, tenant, version, now));
    var s1 := Issued(cfg, s, access, None);
    IssueKeeps(cfg, s, access.claims, None);
    forall t | Live(s1, t) ensures s1.family[t.claims.jti] != root {
      assert Live(s, t);
    }
    assert Sign(cfg, s1, RefreshClaims(cfg, ids.1, principal, tenant, now))
        == Sign(cfg, s, RefreshClaims(cfg, ids.1, principal, tenant, now));
    IssueKeeps(cfg, s1, RefreshClaims(cfg, ids.1, principal, tenant, now), Some(root));
  }

  lemma {:induction false} PersistKeeps(cfg: Config, s: Server, principal: Uuid, refresh: Token)
    requires Sound(cfg, s)
    ensures Sound(cfg, Persist(s, principal, refresh))
  {
    var s' := Persist(s, principal, refresh);
    assert forall t :: Live(s', t) <==> Live(s, t);
  }

  lemma {:induction false} GrantKeeps(cfg: Config, s: Server, principal: Uuid, tenant: Uuid, version: Option<int>,
                                      root: string,
                   ids: (string, string), now: int)
    requires Sound(cfg, s) && FreshIds(s, ids)
    requires root in s.drawn || root == ids.1
    requires root !in s.codes
    requires forall t :: Live(s, t) ==> s.family[t.claims.jti] != root
    ensures Sound(cfg, GrantPair(cfg, s, principal, tenant, version, root, ids, now).0)
    ensures Later(s, GrantPair(cfg, s, principal, tenant, version, root, ids, now).0)
  {
    PairKeeps(cfg, s, principal, tenant, version, root, ids, now);
    var (s', reply) := IssuePair(cfg, s, principal, tenant, version, root, ids, now);
    PersistKeeps(cfg, s', principal, reply.refresh);
  }

  /** Revoking the one live member leaves its family without any. */
  lemma {:induction false} RevokeKeeps(cfg: Config, s: Server, s': Server)
    requires Sound(cfg, s)
    requires s' == s.(records := s'.records, revoked := s'.revoked) && s.revoked <= s'.revoked && RecordsSound(s')
    ensures Sound(cfg, s')
    ensures forall t :: Live(s', t) ==> Live(s, t)
  {
    assert forall t :: Live(s', t) ==> Live(s, t);
  }

  lemma {:induction false} RevokeTokenKeeps(cfg: Config, s: Server, t: Token, tenant: Uuid)
    requires Sound(cfg, s)
    ensures Sound(cfg, DoRevokeToken(s, t, tenant))
  {
    RevokeKeeps(cfg, s, DoRevokeToken(s, t, tenant));
  }

  lemma {:induction false} RevokeSessionKeeps(cfg: Config, s: Server, principal: Uuid, tenant: Uuid)
    requires Sound(cfg, s)
    ensures Sound(cfg, DoRevokeSession(s, principal, tenant))
  {
    RevokeKeeps(cfg, s, DoRevokeSession(s, principal, tenant));
  }

  lemma {:induction false} LoadKeeps(cfg: Config, s: Server)
    requires Sound(cfg, s)
    ensures Sound(cfg, s.(ring := Load(cfg, s.ring)))
  {
    assert forall t :: Live(s.(ring := Load(cfg, s.ring)), t) <==> Live(s, t);
  }

  /** The family of an accepted refresh token has no other live member. */
  lemma {:induction false} RevokedFamilyIsEmpty(cfg: Config, s: Server, s': Server, t: Token, now: int)
    requires Sound(cfg, s) && Genuine(cfg, s, t) && Accepts(cfg, s, t, now) && t.claims.kind == Refresh
    requires s' == s.(records := s'.records, revoked := s.revoked + {IdOf(t)})
    ensures t in s.issued && Root(s, t) in s.drawn && Root(s, t) !in s.codes
    ensures forall u :: Live(s', u) ==> s'.family[u.claims.jti] != Root(s, t)
  {
    assert Live(s, t);
    forall u | Live(s', u) ensures s'.family[u.claims.jti] != Root(s, t) {
      assert Live(s, u);
    }
  }

  lemma {:induction false} ExchangeKeeps(cfg: Config, s: Server, r: Request, s256: string -> string, now: int)
    requires Sound(cfg, s) && r.Exchange? && Lawful(cfg, s, r)
    ensures Sound(cfg, DoExchange(cfg, s, r, s256, now).0) && Later(s, DoExchange(cfg, s, r, s256, now).0)
  {
    hide Sound, Live;
    if r.code in s.codes {
      ConsumeKeeps(cfg, s, r.code);
      var data := s.codes[r.code];
      if CodeRedeemable(data, r, s256, now) {
        var redeemed := s.(codes := s.codes - {r.code}, redeemed := s.redeemed + [r.code]);
        GrantKeeps(cfg, redeemed, data.principal, data.tenant, None, r.code, r.ids, now);
      }
    }
  }

  /** Taking a code out, and then noting it redeemed, keeps everything sound;
      the code has no family yet. */
  lemma {:induction false} ConsumeKeeps(cfg: Config, s: Server, code: string)
    requires Sound(cfg, s) && code in s.codes
    ensures var consumed := s.(codes := s.codes - {code});
            var redeemed := consumed.(redeemed := s.redeemed + [code]);
            && Sound(cfg, consumed) && Sound(cfg, redeemed)
            && code in redeemed.drawn && code !in redeemed.codes
            && forall t :: Live(redeemed, t) ==> redeemed.family[t.claims.jti] != code
  {
    var consumed := s.(codes := s.codes - {code});
    var redeemed := consumed.(redeemed := s.redeemed + [code]);
    assert forall t :: (Live(consumed, t) <==> Live(s, t)) && (Live(redeemed, t) <==> Live(s, t));
    assert CodesSound(redeemed) && IdsSound(redeemed);
  }

  lemma {:induction false} RefreshKeeps(cfg: Config, s: Server, r: Request, now: int)
    requires Sound(cfg, s) && r.RefreshAccess? && Lawful(cfg, s, r)
    ensures Sound(cfg, DoRefresh(cfg, s, r, now).0) && Later(s, DoRefresh(cfg, s, r, now).0)
  {
    var t := r.token;
    if Accepts(cfg, s, t, now) && t.claims.kind == Refresh && RecordRefreshable(s, t, now) {
      var s1 := Revoke(s.(records := MarkRevoked(s.records, IdOf(t))), IdOf(t));
      RevokeKeeps(cfg, s, s1);
      RevokedFamilyIsEmpty(cfg, s, s1, t, now);
      GrantKeeps(cfg, s1, t.claims.subject, t.claims.tenant, None, Root(s, t), r.ids, now);
    } else {
      LoadKeeps(cfg, s);
    }
  }

  lemma {:induction false} RotateKeeps(cfg: Config, s: Server, r: Request, now: int)
    requires Sound(cfg, s) && r.RotateRefresh? && Lawful(cfg, s, r)
    ensures Sound(cfg, DoRotate(cfg, s, r, now).0) && Later(s, DoRotate(cfg, s, r, now).0)
  {
    var t := r.token;
    if Accepts(cfg, s, t, now) && t.claims.kind == Refresh {
      var s1 := Revoke(s, IdOf(t));
      RevokeKeeps(cfg, s, s1);
      RevokedFamilyIsEmpty(cfg, s, s1, t, now);
      PairKeeps(cfg, s1, t.claims.subject, t.claims.tenant, None, Root(s, t), r.ids, now);
    } else {
      LoadKeeps(cfg, s);
    }
  }

  lemma {:induction false} KeyChangeKeeps(cfg: Config, s: Server, kid: string, key: nat)
    requires Sound(cfg, s) && KidFree(cfg, s, kid, key)
    ensures Sound(cfg, s.(ring := RegisterKey(s.ring, kid, key)))
    ensures Sound(cfg, s.(ring := RotateKey(s.ring, kid, key)))
  {
    var a, b := s.(ring := RegisterKey(s.ring, kid, key)), s.(ring := RotateKey(s.ring, kid, key));
    assert forall t :: (Live(a, t) <==> Live(s, t)) && (Live(b, t) <==> Live(s, t));
    assert KeysSound(cfg, a) && KeysSound(cfg, b);
  }

  lemma {:induction false} CreateCodeKeeps(cfg: Config, s: Server, code: string, data: CodeData)
    requires Sound(cfg, s) && code !in s.drawn
    ensures Sound(cfg, s.(codes := s.codes[code := data], drawn := s.drawn + {code}))
  {
    var s' := s.(codes := s.codes[code := data], drawn := s.drawn + {code});
    assert forall t :: Live(s', t) <==> Live(s, t);
  }

  lemma {:induction false} SetVersionKeeps(cfg: Config, s: Server, versions: map<TokenKey, int>)
    requires Sound(cfg, s)
    ensures Sound(cfg, s.(versions := versions))
  {
    assert forall t :: Live(s.(versions := versions), t) <==> Live(s, t);
  }

  lemma {:induction false} LoginKeeps(cfg: Config, s: Server, p: Uuid, tenant: Uuid, version: Option<int>,
                                      ids: (string, string), now: int)
    requires Sound(cfg, s) && FreshIds(s, ids)
    ensures Sound(cfg, GrantPair(cfg, s, p, tenant, version, ids.1, ids, now).0)
    ensures Later(s, GrantPair(cfg, s, p, tenant, version, ids.1, ids, now).0)
  {
    assert forall t :: Live(s, t) ==> s.family[t.claims.jti] in s.drawn;
    GrantKeeps(cfg, s, p, tenant, version, ids.1, ids, now);
  }

  /** Every call keeps the machine sound and undoes nothing. */
  lemma {:induction false} StepKeeps(cfg: Config, s: Server, r: Request, s256: string -> string, now: int)
    requires Sound(cfg, s) && Lawful(cfg, s, r)
    ensures Sound(cfg, Do(cfg, s, r, s256, now).0) && Later(s, Do(cfg, s, r, s256, now).0)
  {
    hide Sound, KidFree, FreshIds, Genuine, DoExchange, DoRefresh, DoRotate, GrantPair;
    match r {
      case CreateCode(code, data) => CreateCodeKeeps(cfg, s, code, data);
      case Exchange(_, _, _, _, _) => ExchangeKeeps(cfg, s, r, s256, now);
      case Login(p, tenant, version, ids) => LoginKeeps(cfg, s, p, tenant, version, ids, now);
      case RefreshAccess(_, _) => RefreshKeeps(cfg, s, r, now);
      case RotateRefresh(_, _) => RotateKeeps(cfg, s, r, now);
      case RevokeToken(t, tenant) => RevokeTokenKeeps(cfg, s, t, tenant);
      case RevokeSession(p, tenant) => RevokeSessionKeeps(cfg, s, p, tenant);
      case SetVersion(_, _, _) => SetVersionKeeps(cfg, s, Do(cfg, s, r, s256, now).0.versions);
      case Register(kid, key) => KeyChangeKeeps(cfg, s, kid, key);
      case RotateSigningKey(kid, pair) => KeyChangeKeeps(cfg, s, kid, pair);
    }
  }

  // ---------------------------------------------------------------- runs

  type Call = (Request, int)

  ghost function Run(cfg: Config, s: Server, calls: seq<Call>, s256: string -> string): Server {
    if calls == [] then s
    else
      var (r, now) := calls[|calls| - 1];
      Do(cfg, Run(cfg, s, calls[..|calls| - 1], s256), r, s256, now).0
  }

  /** A run makes its calls one after the other, each on the state the earlier ones left. */
  lemma {:induction false} RunOneMore(cfg: Config, s: Server, calls: seq<Call>, r: Request, now: int,
                                      s256: string -> string)
    ensures Run(cfg, s, [], s256) == s
    ensures Run(cfg, s, calls + [(r, now)], s256) == Do(cfg, Run(cfg, s, calls, s256), r, s256, now).0
  {
    assert (calls + [(r, now)])[..|calls|] == calls;
  }

  ghost predicate LawfulRun(cfg: Config, s: Server, calls: seq<Call>, s256: string -> string) {
    calls != [] ==>
      && LawfulRun(cfg, s, calls[..|calls| - 1], s256)
      && Lawful(cfg, Run(cfg, s, calls[..|calls| - 1], s256), calls[|calls| - 1].0)
  }

  lemma {:induction false} StartIsSound(cfg: Config, activeKid: string)
    ensures Sound(cfg, Start(activeKid))
  {
  }

  /** Every run keeps the machine sound and undoes nothing. */
  lemma {:induction false} RunKeeps(cfg: Config, s: Server, calls: seq<Call>, s256: string -> string)
    requires Sound(cfg, s) && LawfulRun(cfg, s, calls, s256)
    ensures Sound(cfg, Run(cfg, s, calls, s256)) && Later(s, Run(cfg, s, calls, s256))
  {
    if calls != [] {
      var (r, now) := calls[|calls| - 1];
      var before := Run(cfg, s, calls[..|calls| - 1], s256);
      RunKeeps(cfg, s, calls[..|calls| - 1], s256);
      StepKeeps(cfg, before, r, s256, now);
      LaterThrough(s, before, Do(cfg, before, r, s256, now).0);
      hide Sound, Later, Lawful, Do;
    }
  }

  lemma {:induction false} LaterThrough(a: Server, b: Server, c: Server)
    requires Later(a, b) && Later(b, c)
    ensures Later(a, c)
  {
  }

  // ---------------------------------------------------------------- what follows

  /** After every run from the start: a signed token, under whatever key it was
      signed, is accepted exactly while it is unexpired, its jti is not revoked
      in its tenant and the stored version does not exceed its claim. */
  lemma {:induction false} ValidationIsExact(cfg: Config, activeKid: string, calls: seq<Call>, s256: string -> string,
                                             t: Token, now: int)
    requires LawfulRun(cfg, Start(activeKid), calls, s256)
    requires t in Run(cfg, Start(activeKid), calls, s256).issued
    ensures var s := Run(cfg, Start(activeKid), calls, s256);
            Accepts(cfg, s, t, now) <==>
              (&& now < t.claims.expires
               && IdOf(t) !in s.revoked
               && (t.claims.version.Some? && (t.claims.tenant, t.claims.subject) in s.versions ==>
                     s.versions[(t.claims.tenant, t.claims.subject)] <= t.claims.version.value))
  {
    StartIsSound(cfg, activeKid);
    RunKeeps(cfg, Start(activeKid), calls, s256);
    hide Run;
  }

  /** Giving a key id another key keeps every signed token checkable exactly when
      none was signed under that id, or the key is the one it had. */
  lemma {:induction false} RegisterKeepsIff(cfg: Config, s: Server, kid: string, key: nat)
    requires Sound(cfg, s)
    ensures (forall t :: t in s.issued ==> VerifyKey(cfg, RegisterKey(s.ring, kid, key), t.kid) == t.signer)
       <==> (forall t :: t in s.issued && t.kid == kid ==> t.signer == key)
  {
    var ring := RegisterKey(s.ring, kid, key);
    forall t | t in s.issued
      ensures VerifyKey(cfg, ring, t.kid) == if t.kid == kid then key else t.signer
    {
      assert t.kid in ring.byKid && Load(cfg, ring).byKid[t.kid] == ring.byKid[t.kid];
    }
  }

  /** Of one family at most one refresh token is ever acceptable in a state. */
  lemma {:induction false} OneAcceptablePerFamily(cfg: Config, s: Server, t: Token, u: Token, now: int, later: int)
    requires Sound(cfg, s) && t in s.issued && u in s.issued && t.claims.kind == u.claims.kind == Refresh
    requires Accepts(cfg, s, t, now) && Accepts(cfg, s, u, later)
    ensures t.claims.jti in s.family && u.claims.jti in s.family
    ensures s.family[t.claims.jti] == s.family[u.claims.jti] ==> t == u
  {
    assert Live(s, t) && Live(s, u);
  }

  /** Once a token's id is revoked in its tenant, no later state accepts it. */
  lemma {:induction false} RevokedForGood(cfg: Config, s: Server, calls: seq<Call>, s256: string -> string, t: Token,
                                          now: int)
    requires Sound(cfg, s) && LawfulRun(cfg, s, calls, s256) && IdOf(t) in s.revoked
    ensures !Accepts(cfg, Run(cfg, s, calls, s256), t, now)
  {
    RunKeeps(cfg, s, calls, s256);
    hide Run;
  }

  /** A code presented once, whether or not it was redeemed, is refused ever after. */
  lemma {:induction false} CodeIsSingleUse(cfg: Config, s: Server, first: Request, now: int, calls: seq<Call>,
                                           again: Request, later: int,
                        s256: string -> string)
    requires Sound(cfg, s) && first.Exchange? && again.Exchange? && first.code == again.code && first.code in s.drawn
    requires Lawful(cfg, s, first)
    requires LawfulRun(cfg, DoExchange(cfg, s, first, s256, now).0, calls, s256)
    ensures DoExchange(cfg, Run(cfg, DoExchange(cfg, s, first, s256, now).0, calls, s256), again, s256, later).1 ==
        Denied
  {
    var s1 := DoExchange(cfg, s, first, s256, now).0;
    ExchangeKeeps(cfg, s, first, s256, now);
    assert first.code !in s1.codes;
    RunKeeps(cfg, s1, calls, s256);
    hide Run, Sound;
  }

  /** A successful refresh or rotation revokes the token it was given and hands
      out one of the same family that is acceptable at once. */
  lemma {:induction false} ExchangedForSuccessor(cfg: Config, s: Server, r: Request, now: int)
    requires Sound(cfg, s) && cfg.refreshTtl > 0 && (r.RefreshAccess? || r.RotateRefresh?) && Lawful(cfg, s, r)
    ensures var (s', reply) := if r.RefreshAccess? then DoRefresh(cfg, s, r, now) else DoRotate(cfg, s, r, now);
            reply.Granted? ==>
              && Accepts(cfg, s, r.token, now) && r.token.claims.kind == Refresh
              && IdOf(r.token) in s'.revoked
              && reply.refresh.claims.subject == r.token.claims.subject
              && reply.refresh.claims.tenant == r.token.claims.tenant
              && Root(s', reply.refresh) == Root(s, r.token)
              && Accepts(cfg, s', reply.refresh, now)
  {
    var (s', reply) := if r.RefreshAccess? then DoRefresh(cfg, s, r, now) else DoRotate(cfg, s, r, now);
    if reply.Granted? {
      var t := r.token;
      assert FreshIds(s, r.ids) && Genuine(cfg, s, t);
      hide Sound, Live, Accepts, Genuine, IssuePair, Root;
      var s1 := if r.RefreshAccess? then Revoke(s.(records := MarkRevoked(s.records, IdOf(t))), IdOf(t))
                else Revoke(s, IdOf(t));
      SuccessorOf(cfg, s, s1, t, r.ids, now);
    }
  }

  /** The pair issued once the token presented is revoked. */
  lemma {:induction false} SuccessorOf(cfg: Config, s: Server, s1: Server, t: Token, ids: (string, string), now: int)
    requires Sound(cfg, s) && cfg.refreshTtl > 0 && FreshIds(s, ids)
    requires Genuine(cfg, s, t) && Accepts(cfg, s, t, now) && t.claims.kind == Refresh
    requires s1 == s.(records := s1.records, revoked := s.revoked + {IdOf(t)})
    ensures var (s', reply) := IssuePair(cfg, s1, t.claims.subject, t.claims.tenant, None, Root(s, t), ids, now);
            && reply.Granted? && IdOf(t) in s'.revoked
            && reply.refresh.claims.subject == t.claims.subject && reply.refresh.claims.tenant == t.claims.tenant
            && Root(s', reply.refresh) == Root(s, t)
            && Root(Persist(s', t.claims.subject, reply.refresh), reply.refresh) == Root(s, t)
            && Accepts(cfg, s', reply.refresh, now)
            && Accepts(cfg, Persist(s', t.claims.subject, reply.refresh), reply.refresh, now)
  {
    assert t in s.issued && t.claims.jti in s.drawn;
    assert KeysSound(cfg, s1);
    hide Sound, KeysSound, Genuine, Accepts;
    SuccessorAccepted(cfg, s1, t.claims.subject, t.claims.tenant, None, Root(s, t), ids, now);
  }

  /** The refresh token of a pair just issued passes validation. */
  lemma {:induction false} SuccessorAccepted(cfg: Config, s: Server, principal: Uuid, tenant: Uuid,
                                             version: Option<int>, root: string,
                          ids: (string, string), now: int)
    requires KeysSound(cfg, s) && cfg.refreshTtl > 0
    ensures var (s', reply) := IssuePair(cfg, s, principal, tenant, version, root, ids, now);
            && (IdOf(reply.refresh) !in s.revoked ==>
                  Accepts(cfg, s', reply.refresh, now)
                      && Accepts(cfg, Persist(s', principal, reply.refresh), reply.refresh, now))
            && s'.family[ids.1] == root && s'.revoked == s.revoked
  {
    var access := Sign(cfg, s, AccessClaims(cfg, ids.0, principal, tenant, version, now));
    IssueKeepsKeys(cfg, s, access.claims, None);
    var s1 := Issued(cfg, s, access, None);
    IssueKeepsKeys(cfg, s1, RefreshClaims(cfg, ids.1, principal, tenant, now), Some(root));
  }

  /** After a session is revoked no refresh token recorded for the user so far is
      accepted, then or later. */
  lemma {:induction false} SessionRevoked(cfg: Config, s: Server, principal: Uuid, tenant: Uuid, calls: seq<Call>,
                                          s256: string -> string,
                       k: TokenKey, t: Token, now: int)
    requires Sound(cfg, s) && k in s.records && k.0 == tenant && s.records[k].principal == principal && IdOf(t) == k
    requires LawfulRun(cfg, DoRevokeSession(s, principal, tenant), calls, s256)
    ensures !Accepts(cfg, Run(cfg, DoRevokeSession(s, principal, tenant), calls, s256), t, now)
  {
    var s1 := DoRevokeSession(s, principal, tenant);
    RevokeKeeps(cfg, s, s1);
    assert k in s1.revoked;
    RevokedForGood(cfg, s1, calls, s256, t, now);
  }

  /** Revoking an accepted token stops it exactly when it is revoked under its own tenant. */
  lemma {:induction false} RevocationWorksIff(cfg: Config, s: Server, t: Token, tenant: Uuid, now: int)
    requires Accepts(cfg, s, t, now)
    ensures !Accepts(cfg, DoRevokeToken(s, t, tenant), t, now) <==> tenant == t.claims.tenant
  {
  }

  /** Over runs: no later state accepts the token exactly then. */
  lemma {:induction false} RevocationLastsIff(cfg: Config, s: Server, t: Token, tenant: Uuid, now: int,
                                              s256: string -> string)
    requires Sound(cfg, s) && Accepts(cfg, s, t, now)
    ensures (forall calls, later :: LawfulRun(cfg, DoRevokeToken(s, t, tenant), calls, s256) ==>
               !Accepts(cfg, Run(cfg, DoRevokeToken(s, t, tenant), calls, s256), t, later))
       <==> tenant == t.claims.tenant
  {
    hide Accepts, Sound, DoRevokeToken, LawfulRun, Run;
    var s1 := DoRevokeToken(s, t, tenant);
    RevocationWorksIff(cfg, s, t, tenant, now);
    NoCalls(cfg, s1, s256);
    if tenant == t.claims.tenant {
      forall calls, later | LawfulRun(cfg, s1, calls, s256) ensures !Accepts(cfg, Run(cfg, s1, calls, s256), t, later) {
        RevokedInOwnTenant(cfg, s, t, calls, s256, later);
      }
    } else {
      assert Accepts(cfg, Run(cfg, s1, [], s256), t, now);
    }
  }

  lemma {:induction false} NoCalls(cfg: Config, s: Server, s256: string -> string)
    ensures LawfulRun(cfg, s, [], s256) && Run(cfg, s, [], s256) == s
  {
  }

  lemma {:induction false} RevokedInOwnTenant(cfg: Config, s: Server, t: Token, calls: seq<Call>,
                                              s256: string -> string, later: int)
    requires Sound(cfg, s) && LawfulRun(cfg, DoRevokeToken(s, t, t.claims.tenant), calls, s256)
    ensures !Accepts(cfg, Run(cfg, DoRevokeToken(s, t, t.claims.tenant), calls, s256), t, later)
  {
    RevokeTokenKeeps(cfg, s, t, t.claims.tenant);
    assert IdOf(t) in DoRevokeToken(s, t, t.claims.tenant).revoked;
    RevokedForGood(cfg, DoRevokeToken(s, t, t.claims.tenant), calls, s256, t, later);
  }

  /** A token of tenant "a" that revocation under tenant "b" leaves acceptable. */
  lemma {:induction false} RevokedElsewhere()
    ensures var cfg, s := Config(0, 1, 1), Start("k");
            var t := Sign(cfg, s, Claims("j", "u", "a", Access, 1, None));
            Accepts(cfg, DoRevokeToken(Issued(cfg, s, t, None), t, "b"), t, 0)
  {
  }

  /** Revoking a session stops an accepted token exactly when a record of it is
      stored in that tenant for that user. */
  lemma {:induction false} SessionStopsIff(cfg: Config, s: Server, principal: Uuid, tenant: Uuid, t: Token, now: int)
    requires Sound(cfg, s) && Accepts(cfg, s, t, now)
    ensures !Accepts(cfg, DoRevokeSession(s, principal, tenant), t, now)
       <==> IdOf(t) in s.records && t.claims.tenant == tenant && s.records[IdOf(t)].principal == principal
  {
    assert IdOf(t) in s.records ==> !s.records[IdOf(t)].revoked;
    assert IdOf(t) in SessionKeys(s, principal, tenant) <==> SessionRecord(s, IdOf(t), principal, tenant);
    hide Sound, KeysSound, IdsSound, CodesSound, FamiliesSound, SessionKeys;
  }

  /** So a refresh token that came from rotation, which stores no record, survives
      every revocation of its user's session. */
  lemma {:induction false} RotatedOutlivesSession(cfg: Config, s: Server, r: Request, now: int, principal: Uuid,
                                                  tenant: Uuid)
    requires Sound(cfg, s) && cfg.refreshTtl > 0 && r.RotateRefresh? && Lawful(cfg, s, r)
    requires (r.token.claims.tenant, r.ids.1) !in s.records
    ensures var (s', reply) := DoRotate(cfg, s, r, now);
            reply.Granted? ==> Accepts(cfg, DoRevokeSession(s', principal, tenant), reply.refresh, now)
  {
    var (s', reply) := DoRotate(cfg, s, r, now);
    if reply.Granted? {
      ExchangedForSuccessor(cfg, s, r, now);
      RotateKeeps(cfg, s, r, now);
      assert s'.records == s.records && IdOf(reply.refresh) == (r.token.claims.tenant, r.ids.1);
      hide Sound, Accepts, DoRotate, DoRevokeSession, Lawful;
      SessionStopsIff(cfg, s', principal, tenant, reply.refresh, now);
    }
  }
}
