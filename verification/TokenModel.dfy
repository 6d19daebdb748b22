/** The token life cycle as one state machine: authorization codes, access and
    refresh tokens, revocation, token versions and signing-key rotation
    (backend/app/services/oauth_service.py, token_service.py, revocation.py).
    Each service call is one atomic step. A signature is modelled by the number
    of the key pair that made it. */
module TokenModel {
  import opened Prelude
  import opened Models
  import opened TextOps

  datatype Kind = Access | Refresh

  datatype Claims = Claims(jti: string, subject: Uuid, tenant: Uuid, kind: Kind, expires: int, version: Option<int>)

  /** A signed JWT: `kid` from the header, `signer` the key pair that signed it. */
  datatype Token = Token(kid: string, signer: nat, claims: Claims)

  // ---------------------------------------------------------------- keys

  /** `_private_key`, `_public_key`, `_active_kid` and `_public_keys_by_kid`. */
  datatype Ring = Ring(privateKey: Option<nat>, publicKey: Option<nat>, activeKid: string, byKid: map<string, nat>)

  /** `filePair` is the key pair on disk; the lifetimes come from the settings. */
  datatype Config = Config(filePair: nat, accessTtl: int, refreshTtl: int)

  /** `_load_keys` */
  function Load(cfg: Config, r: Ring): (loaded: Ring)
    ensures loaded.privateKey.Some? && loaded.publicKey.Some? && loaded.activeKid in loaded.byKid
    ensures loaded.activeKid == r.activeKid && r.byKid.Keys <= loaded.byKid.Keys
  {
    var priv := if r.privateKey.None? then cfg.filePair else r.privateKey.value;
    var pub := if r.publicKey.None? then cfg.filePair else r.publicKey.value;
    Ring(Some(priv), Some(pub), r.activeKid, if r.activeKid in r.byKid then r.byKid else r.byKid[r.activeKid := pub])
  }

  function RegisterKey(r: Ring, kid: string, publicKey: nat): Ring {
    r.(byKid := r.byKid[kid := publicKey])
  }

  function RotateKey(r: Ring, newKid: string, pair: nat): Ring {
    Ring(Some(pair), Some(pair), newKid, r.byKid[newKid := pair])
  }

  /** The key `validate_token` checks a header against. */
  function VerifyKey(cfg: Config, r: Ring, kid: string): nat {
    var loaded := Load(cfg, r);
    if kid in loaded.byKid then loaded.byKid[kid] else loaded.publicKey.value
  }

  // ---------------------------------------------------------------- state

  datatype CodeData = CodeData(clientId: string, redirectUri: string, challenge: string, challengeMethod: string,
                               tenant: Uuid, principal: Uuid, expiresAt: int)

  /** A RefreshToken row of a tenant's database; the stored hash stands for the token. */
  datatype Record = Record(principal: Uuid, token: Token, revoked: bool, expiresAt: int)

  type TokenKey = (Uuid, string)

  /** The last four fields are history: what was signed, which refresh tokens
      descend from which code or login, which codes were redeemed, and every
      random value ever drawn. */
  datatype Server = Server(
    ring: Ring,
    codes: map<string, CodeData>,
    records: map<TokenKey, Record>,
    revoked: set<TokenKey>,
    versions: map<TokenKey, int>,
    issued: set<Token>,
    family: map<string, string>,
    redeemed: seq<string>,
    drawn: set<string>)

  function Start(activeKid: string): Server {
    Server(Ring(None, None, activeKid, map[]), map[], map[], {}, map[], {}, map[], [], {})
  }

  datatype Reply = Granted(access: Token, refresh: Token) | Denied

  function IdOf(t: Token): TokenKey {
    (t.claims.tenant, t.claims.jti)
  }

  // ---------------------------------------------------------------- validation

  predicate VersionStale(s: Server, t: Token) {
    && t.claims.version.Some?
    && (t.claims.tenant, t.claims.subject) in s.versions
    && s.versions[(t.claims.tenant, t.claims.subject)] > t.claims.version.value
  }

  /** `validate_token` returns rather than raises. */
  predicate Accepts(cfg: Config, s: Server, t: Token, now: int) {
    && VerifyKey(cfg, s.ring, t.kid) == t.signer
    && now < t.claims.expires
    && IdOf(t) !in s.revoked
    && !VersionStale(s, t)
  }

  // ---------------------------------------------------------------- issuing

  function Sign(cfg: Config, s: Server, claims: Claims): Token {
    var ring := Load(cfg, s.ring);
    Token(ring.activeKid, ring.privateKey.value, claims)
  }

  function AccessClaims(cfg: Config, jti: string, principal: Uuid, tenant: Uuid, version: Option<int>,
                        now: int): Claims {
    Claims(jti, principal, tenant, Access, now + cfg.accessTtl, version)
  }

  function RefreshClaims(cfg: Config, jti: string, principal: Uuid, tenant: Uuid, now: int): Claims {
    Claims(jti, principal, tenant, Refresh, now + cfg.refreshTtl, None)
  }

  function Issued(cfg: Config, s: Server, t: Token, root: Option<string>): Server {
    s.(ring := Load(cfg, s.ring), issued := s.issued + {t}, drawn := s.drawn + {t.claims.jti},
       family := if root.Some? then s.family[t.claims.jti := root.value] else s.family)
  }

  /** Sign an access token and a refresh token of the family `root`. */
  function IssuePair(cfg: Config, s: Server, principal: Uuid, tenant: Uuid, version: Option<int>, root: string,
                     ids: (string, string), now: int): (Server, Reply)
  {
    var access := Sign(cfg, s, AccessClaims(cfg, ids.0, principal, tenant, version, now));
    var refresh := Sign(cfg, s, RefreshClaims(cfg, ids.1, principal, tenant, now));
    (Issued(cfg, Issued(cfg, s, access, None), refresh, Some(root)), Granted(access, refresh))
  }

  /** `persist_refresh_token` */
  function Persist(s: Server, principal: Uuid, refresh: Token): Server {
    s.(records := s.records[IdOf(refresh) := Record(principal, refresh, false, refresh.claims.expires)])
  }

  function GrantPair(cfg: Config, s: Server, principal: Uuid, tenant: Uuid, version: Option<int>, root: string,
                     ids: (string, string), now: int): (Server, Reply)
  {
    var (s', reply) := IssuePair(cfg, s, principal, tenant, version, root, ids, now);
    (Persist(s', principal, reply.refresh), reply)
  }

  function Revoke(s: Server, k: TokenKey): Server {
    s.(revoked := s.revoked + {k})
  }

  function MarkRevoked(records: map<TokenKey, Record>, k: TokenKey): map<TokenKey, Record> {
    if k in records then records[k := records[k].(revoked := true)] else records
  }

  // ---------------------------------------------------------------- the calls

  /** `verify_pkce`; `s256` is the base64url SHA-256 of section 4.2 of RFC 7636. */
  predicate VerifyPkce(verifier: string, challenge: string, challengeMethod: string, s256: string -> string) {
    var norm := Upper(if challengeMethod == "" then "S256" else challengeMethod);
    && verifier != "" && challenge != ""
    && (if norm == "S256" then s256(verifier) == challenge else norm == "PLAIN" && verifier == challenge)
  }

  datatype Request =
    | CreateCode(code: string, data: CodeData)
    | Exchange(code: string, verifier: string, clientId: string, redirectUri: string, ids: (string, string))
    | Login(principal: Uuid, tenant: Uuid, version: Option<int>, ids: (string, string))
    | RefreshAccess(token: Token, ids: (string, string))
    | RotateRefresh(token: Token, ids: (string, string))
    | RevokeToken(token: Token, tenant: Uuid)
    | RevokeSession(principal: Uuid, tenant: Uuid)
    | SetVersion(principal: Uuid, tenant: Uuid, newVersion: int)
    | Register(kid: string, publicKey: nat)
    | RotateSigningKey(kid: string, pair: nat)

  predicate CodeRedeemable(data: CodeData, r: Request, s256: string -> string, now: int)
    requires r.Exchange?
  {
    && now <= data.expiresAt
    && data.clientId == r.clientId
    && data.redirectUri == r.redirectUri
    && VerifyPkce(r.verifier, data.challenge, data.challengeMethod, s256)
  }

  /** Whatever comes of it, a presented code is gone afterwards. */
  function DoExchange(cfg: Config, s: Server, r: Request, s256: string -> string, now: int): (Server, Reply)
    requires r.Exchange?
  {
    if r.code !in s.codes then (s, Denied)
    else
      var data := s.codes[r.code];
      var consumed := s.(codes := s.codes - {r.code});
      if !CodeRedeemable(data, r, s256, now) then (consumed, Denied)
      else
        GrantPair(cfg, consumed.(redeemed := s.redeemed + [r.code]), data.principal, data.tenant, None, r.code, r.ids,
            now)
  }

  predicate RecordRefreshable(s: Server, t: Token, now: int) {
    && IdOf(t) in s.records
    && !s.records[IdOf(t)].revoked
    && s.records[IdOf(t)].token == t
    && now <= s.records[IdOf(t)].expiresAt
  }

  function Root(s: Server, t: Token): string {
    if t.claims.jti in s.family then s.family[t.claims.jti] else t.claims.jti
  }

  function DoRefresh(cfg: Config, s: Server, r: Request, now: int): (Server, Reply)
    requires r.RefreshAccess?
  {
    var t := r.token;
    if !Accepts(cfg, s, t, now) || t.claims.kind != Refresh || !RecordRefreshable(s, t, now) then
      (s.(ring := Load(cfg, s.ring)), Denied)
    else
      GrantPair(cfg, Revoke(s.(records := MarkRevoked(s.records, IdOf(t))), IdOf(t)),
                t.claims.subject, t.claims.tenant, None, Root(s, t), r.ids, now)
  }

  /** `rotate_refresh_token` keeps no record of the new token. */
  function DoRotate(cfg: Config, s: Server, r: Request, now: int): (Server, Reply)
    requires r.RotateRefresh?
  {
    var t := r.token;
    if !Accepts(cfg, s, t, now) || t.claims.kind != Refresh then (s.(ring := Load(cfg, s.ring)), Denied)
    else IssuePair(cfg, Revoke(s, IdOf(t)), t.claims.subject, t.claims.tenant, None, Root(s, t), r.ids, now)
  }

  /** `revoke_token` with the database and the revoked set of the tenant it is given. */
  function DoRevokeToken(s: Server, t: Token, tenant: Uuid): Server {
    var k := (tenant, t.claims.jti);
    Revoke(if t.claims.kind == Refresh then s.(records := MarkRevoked(s.records, k)) else s, k)
  }

  predicate SessionRecord(s: Server, k: TokenKey, principal: Uuid, tenant: Uuid) {
    k in s.records && k.0 == tenant && s.records[k].principal == principal && !s.records[k].revoked
  }

  function SessionKeys(s: Server, principal: Uuid, tenant: Uuid): set<TokenKey> {
    set k | k in s.records && SessionRecord(s, k, principal, tenant)
  }

  function DoRevokeSession(s: Server, principal: Uuid, tenant: Uuid): Server {
    s.(records := map k | k in s.records ::
                    if SessionRecord(s, k, principal, tenant) then s.records[k].(revoked := true) else s.records[k],
       revoked := s.revoked + SessionKeys(s, principal, tenant))
  }

  function Do(cfg: Config, s: Server, r: Request, s256: string -> string, now: int): (Server, Reply) {
    match r
    case CreateCode(code, data) => (s.(codes := s.codes[code := data], drawn := s.drawn + {code}), Denied)
    case Exchange(_, _, _, _, _) => DoExchange(cfg, s, r, s256, now)
    case Login(p, tenant, version, ids) => GrantPair(cfg, s, p, tenant, version, ids.1, ids, now)
    case RefreshAccess(_, _) => DoRefresh(cfg, s, r, now)
    case RotateRefresh(_, _) => DoRotate(cfg, s, r, now)
    case RevokeToken(t, tenant) => (DoRevokeToken(s, t, tenant), Denied)
    case RevokeSession(p, tenant) => (DoRevokeSession(s, p, tenant), Denied)
    case SetVersion(p, tenant, v) => (s.(versions := s.versions[(tenant, p) := v]), Denied)
    case Register(kid, key) => (s.(ring := RegisterKey(s.ring, kid, key)), Denied)
    case RotateSigningKey(kid, pair) => (s.(ring := RotateKey(s.ring, kid, pair)), Denied)
  }
}
