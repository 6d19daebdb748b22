/** `IdentityResolver.resolve` for hints without a username
    (backend/app/identity/resolver.py), over the principal tables of
    `CanonicalRepo`: many calls at once, each a sequence of atomic table
    operations, interleaved in any order. */
module IdentityResolution {
  import opened Prelude
  import opened Models
  import opened TextOps

  datatype Principal = Principal(id: Uuid, tenantId: Uuid, email: string, sourceIdentities: map<string, string>)

  type EmailKey = (Uuid, string)

  /** `_principals` and `_principals_by_email`. */
  datatype Tables = Tables(byId: map<Uuid, Principal>, byEmail: map<EmailKey, Principal>)

  function KeyOf(p: Principal): EmailKey {
    (p.tenantId, Lower(p.email))
  }

  /** `update_principal`: both tables take the record. */
  function UpdatePrincipal(t: Tables, p: Principal): Tables {
    Tables(t.byId[p.id := p], t.byEmail[KeyOf(p) := p])
  }

  /** `create_principal`: None when the unique key is taken. */
  function CreatePrincipal(t: Tables, p: Principal): Option<Tables> {
    if KeyOf(p) in t.byEmail then None else Some(UpdatePrincipal(t, p))
  }

  function GetPrincipalByEmail(t: Tables, email: string, tenant: Uuid): Option<Principal> {
    if (tenant, Lower(email)) in t.byEmail then Some(t.byEmail[(tenant, Lower(email))]) else None
  }

  // ---------------------------------------------------------------- one call

  datatype Hint = Hint(sourceType: string, externalId: string, email: Option<string>)

  /** `_normalize_email`; `valid` is the address validator's verdict. */
  function NormalizeEmail(email: Option<string>, valid: string -> bool): Option<string> {
    if email.None? || email.value == "" then None
    else
      var e := Lower(Strip(email.value));
      if valid(e) then Some(e) else None
  }

  /** Where a call stands: nothing read yet; a principal matched, its source
      identity still to be noted; none found, creation next; creation refused,
      re-query next; finished. */
  datatype Phase = Waiting | Matched(found: Principal) | Missing | Conflicted | Finished(id: Uuid) | Raised

  datatype Call = Call(hint: Hint, tenant: Uuid, phase: Phase)

  function NewPrincipal(c: Call, email: string, newId: Uuid): Principal {
    Principal(newId, c.tenant, email, map[c.hint.sourceType := c.hint.externalId])
  }

  function WithSource(p: Principal, hint: Hint): Principal {
    if hint.sourceType in p.sourceIdentities then p
    else p.(sourceIdentities := p.sourceIdentities[hint.sourceType := hint.externalId])
  }

  /** The next atomic operation of a call. `newId` is the uuid4 it draws, if it draws one. */
  function Step(t: Tables, c: Call, valid: string -> bool, newId: Uuid): (Tables, Phase) {
    match (c.phase, NormalizeEmail(c.hint.email, valid))
    case (Waiting, None) => (t, Raised)
    case (Waiting, Some(email)) =>
      (match GetPrincipalByEmail(t, email, c.tenant)
       case Some(p) => (t, Matched(p))
       case None => (t, Missing))
    case (Missing, Some(email)) =>
      (match CreatePrincipal(t, NewPrincipal(c, email, newId))
       case Some(t') => (t', Finished(newId))
       case None => (t, Conflicted))
    case (Conflicted, Some(email)) =>
      (match GetPrincipalByEmail(t, email, c.tenant)
       case Some(p) => (t, Matched(p))
       case None => (t, Raised))
    case (Matched(p), _) =>
      ((if WithSource(p, c.hint) == p then t else UpdatePrincipal(t, WithSource(p, c.hint))), Finished(p.id))
    case _ => (t, c.phase)
  }

  // ---------------------------------------------------------------- all calls together

  /** `drawn` holds every id ever drawn: a uuid4 does not come up twice. */
  datatype State = State(tables: Tables, calls: seq<Call>, drawn: set<Uuid>)

  function Advance(s: State, i: nat, valid: string -> bool, newId: Uuid): State
    requires i < |s.calls|
  {
    var (t, phase) := Step(s.tables, s.calls[i], valid, newId);
    State(t, s.calls[i := s.calls[i].(phase := phase)], s.drawn + {newId})
  }

  ghost predicate Next(s: State, s': State, valid: string -> bool) {
    exists i: nat, newId :: i < |s.calls| && newId !in s.drawn && s' == Advance(s, i, valid, newId)
  }

  /** A run: each state follows from the one before by one operation of some call. */
  ghost predicate IsRun(run: seq<State>, valid: string -> bool) {
    |run| > 0 && forall n, m :: 0 <= n < |run| && m == n + 1 < |run| ==> Next(run[n], run[m], valid)
  }

  ghost predicate TablesAgree(t: Tables) {
    && (forall k :: k in t.byEmail ==>
          KeyOf(t.byEmail[k]) == k && t.byEmail[k].id in t.byId && t.byId[t.byEmail[k].id] == t.byEmail[k])
    && (forall id :: id in t.byId ==>
          && t.byId[id].id == id && NoCapital(t.byId[id].email)
          && KeyOf(t.byId[id]) in t.byEmail && t.byEmail[KeyOf(t.byId[id])].id == id)
  }

  ghost function CallKey(c: Call, valid: string -> bool): EmailKey {
    match NormalizeEmail(c.hint.email, valid)
    case Some(email) => (c.tenant, Lower(email))
    case None => (c.tenant, "")
  }

  /** What a call believes is true of the tables. */
  ghost predicate CallHonest(t: Tables, c: Call, valid: string -> bool) {
    var k := CallKey(c, valid);
    match c.phase
    case Waiting => true
    case Missing => NormalizeEmail(c.hint.email, valid).Some?
    case Raised => NormalizeEmail(c.hint.email, valid).None?
    case Conflicted => NormalizeEmail(c.hint.email, valid).Some? && k in t.byEmail
    case Matched(p) =>
      && NormalizeEmail(c.hint.email, valid).Some? && NoCapital(p.email)
      && k in t.byEmail && t.byEmail[k].id == p.id && KeyOf(p) == k
    case Finished(id) => NormalizeEmail(c.hint.email, valid).Some? && k in t.byEmail && t.byEmail[k].id == id
  }

  /** Drive and Gmail hints with an email bind to known users instead, and are
      not resolved here. */
  predicate ResolvedHere(hint: Hint, valid: string -> bool) {
    hint.sourceType !in MIRROR_BIND_SOURCES || NormalizeEmail(hint.email, valid).None?
  }

  ghost predicate Invariant(s: State, valid: string -> bool) {
    && TablesAgree(s.tables)
    && (forall c :: c in s.calls ==> ResolvedHere(c.hint, valid))
    && (forall id :: id in s.tables.byId ==> id in s.drawn)
    && (forall i :: 0 <= i < |s.calls| ==> CallHonest(s.tables, s.calls[i], valid))
  }

  /** Every email entry of t is still there in t', under the same id. */
  ghost predicate Keeps(t: Tables, t': Tables) {
    forall k :: k in t.byEmail ==> k in t'.byEmail && t'.byEmail[k].id == t.byEmail[k].id
  }

  lemma {:induction false} StepPreserves(t: Tables, c: Call, valid: string -> bool, newId: Uuid)
    requires TablesAgree(t) && CallHonest(t, c, valid) && newId !in t.byId
    ensures var (t', phase) := Step(t, c, valid, newId);
            && TablesAgree(t') && Keeps(t, t')
            && CallHonest(t', c.(phase := phase), valid)
            && t'.byId.Keys <= t.byId.Keys + {newId}
  {
    var (t', phase) := Step(t, c, valid, newId);
    if c.phase.Matched? {
      var p := c.phase.found;
      assert KeyOf(WithSource(p, c.hint)) == KeyOf(p);
      if t' != t {
        UpdateAgrees(t, WithSource(p, c.hint));
      }
    } else if c.phase.Missing? {
      var email := NormalizeEmail(c.hint.email, valid).value;
      LowerIsSmallForm(Strip(c.hint.email.value), email);
      if t' != t {
        CreateAgrees(t, NewPrincipal(c, email, newId));
      }
    }
  }

  lemma {:induction false} CreateAgrees(t: Tables, p: Principal)
    requires TablesAgree(t) && p.id !in t.byId && KeyOf(p) !in t.byEmail && NoCapital(p.email)
    ensures TablesAgree(UpdatePrincipal(t, p)) && Keeps(t, UpdatePrincipal(t, p))
  {
  }

  lemma {:induction false} UpdateAgrees(t: Tables, p: Principal)
    requires TablesAgree(t) && KeyOf(p) in t.byEmail && t.byEmail[KeyOf(p)].id == p.id && NoCapital(p.email)
    ensures TablesAgree(UpdatePrincipal(t, p)) && Keeps(t, UpdatePrincipal(t, p))
  {
    var t' := UpdatePrincipal(t, p);
    forall id | id in t'.byId
      ensures t'.byId[id].id == id && NoCapital(t'.byId[id].email)
      ensures KeyOf(t'.byId[id]) in t'.byEmail && t'.byEmail[KeyOf(t'.byId[id])].id == id
    {
      if id != p.id {
        assert KeyOf(t.byId[id]) != KeyOf(p);
      }
    }
  }

  lemma {:induction false} HonestyLasts(t: Tables, t': Tables, c: Call, valid: string -> bool)
    requires CallHonest(t, c, valid) && Keeps(t, t')
    ensures CallHonest(t', c, valid)
  {
  }

  lemma {:induction false} AnswerStays(t: Tables, c: Call, valid: string -> bool, newId: Uuid)
    ensures var phase := Step(t, c, valid, newId).1;
            (c.phase.Finished? ==> phase == c.phase) && CallKey(c.(phase := phase), valid) == CallKey(c, valid)
  {
  }

  /** s' is a later state: no email entry lost or rebound, calls as before but
      for their phase, and a finished call still holding its answer. */
  ghost predicate Continues(s: State, s': State, valid: string -> bool) {
    && Keeps(s.tables, s'.tables)
    && |s'.calls| == |s.calls|
    && forall i :: 0 <= i < |s.calls| ==>
         && CallKey(s'.calls[i], valid) == CallKey(s.calls[i], valid)
         && (s.calls[i].phase.Finished? ==> s'.calls[i].phase == s.calls[i].phase)
  }

  lemma {:induction false} NextPreserves(s: State, s': State, valid: string -> bool)
    requires Invariant(s, valid) && Next(s, s', valid)
    ensures Invariant(s', valid) && Continues(s, s', valid)
  {
    hide Step, TablesAgree, CallHonest, CallKey, NormalizeEmail, Keeps, ResolvedHere;
    var i: nat, newId :| i < |s.calls| && newId !in s.drawn && s' == Advance(s, i, valid, newId);
    assert newId !in s.tables.byId;
    StepPreserves(s.tables, s.calls[i], valid, newId);
    AnswerStays(s.tables, s.calls[i], valid, newId);
    var phase := Step(s.tables, s.calls[i], valid, newId).1;
    assert s'.calls == s.calls[i := s.calls[i].(phase := phase)];
    forall j | 0 <= j < |s'.calls|
      ensures CallHonest(s'.tables, s'.calls[j], valid) && CallKey(s'.calls[j], valid) == CallKey(s.calls[j], valid)
      ensures s.calls[j].phase.Finished? ==> s'.calls[j].phase == s.calls[j].phase
    {
      if j != i {
        HonestyLasts(s.tables, s'.tables, s.calls[j], valid);
      }
    }
  }

  /** Empty tables and calls that have read nothing yet. */
  lemma {:induction false} StartInvariant(calls: seq<Call>, valid: string -> bool, drawn: set<Uuid>)
    requires forall c :: c in calls ==> c.phase.Waiting? && ResolvedHere(c.hint, valid)
    ensures Invariant(State(Tables(map[], map[]), calls, drawn), valid)
  {
  }

  lemma {:induction false} RunInvariant(run: seq<State>, valid: string -> bool, n: nat)
    requires IsRun(run, valid) && n < |run| && Invariant(run[0], valid)
    ensures Invariant(run[n], valid)
  {
    if n > 0 {
      RunInvariant(run, valid, n - 1);
      NextPreserves(run[n - 1], run[n], valid);
    }
  }

  lemma {:induction false} ContinuesItself(s: State, valid: string -> bool)
    ensures Continues(s, s, valid)
  {
  }

  lemma {:induction false} ContinuesThrough(a: State, b: State, c: State, valid: string -> bool)
    requires Continues(a, b, valid) && Continues(b, c, valid)
    ensures Continues(a, c, valid)
  {
  }

  /** Once a tenant and email have a principal it never changes its id, and a
      finished call never changes its answer. */
  lemma {:induction false} PrincipalIsStable(run: seq<State>, valid: string -> bool, m: nat, n: nat)
    requires IsRun(run, valid) && m <= n < |run| && Invariant(run[0], valid)
    ensures Continues(run[m], run[n], valid)
    decreases n
  {
    hide *;
    if m == n {
      ContinuesItself(run[m], valid);
    } else {
      PrincipalIsStable(run, valid, m, n - 1);
      RunStep(run, valid, n - 1);
      ContinuesThrough(run[m], run[n - 1], run[n], valid);
    }
  }

  lemma {:induction false} RunStep(run: seq<State>, valid: string -> bool, n: nat)
    requires IsRun(run, valid) && n + 1 < |run| && Invariant(run[0], valid)
    ensures Continues(run[n], run[n + 1], valid)
  {
    RunInvariant(run, valid, n);
    NextPreserves(run[n], run[n + 1], valid);
  }

  /** Two principals of one tenant and email are one; every finished call holds
      the id stored for its tenant and email; two finished calls hold the same id
      exactly when they asked for the same tenant and email; and a call fails
      only for want of a valid email. */
  ghost predicate OneIdentity(s: State, valid: string -> bool) {
    var t := s.tables;
    && (forall a, b :: a in t.byId && b in t.byId && KeyOf(t.byId[a]) == KeyOf(t.byId[b]) ==> a == b)
    && (forall c :: c in s.calls && c.phase.Finished? ==>
          CallKey(c, valid) in t.byEmail && c.phase.id == t.byEmail[CallKey(c, valid)].id)
    && (forall c, d :: c in s.calls && d in s.calls && c.phase.Finished? && d.phase.Finished? ==>
          (c.phase.id == d.phase.id <==> CallKey(c, valid) == CallKey(d, valid)))
    && (forall c :: c in s.calls && c.phase.Raised? ==> NormalizeEmail(c.hint.email, valid).None?)
  }

  /** In every interleaving of any number of calls, in every state on the way. */
  lemma {:induction false} OnePrincipalPerEmail(run: seq<State>, valid: string -> bool, n: nat)
    requires IsRun(run, valid) && n < |run| && Invariant(run[0], valid)
    ensures OneIdentity(run[n], valid)
  {
    hide *;
    RunInvariant(run, valid, n);
    InvariantMeansOneIdentity(run[n], valid);
  }

  lemma {:induction false} InvariantMeansOneIdentity(s: State, valid: string -> bool)
    requires Invariant(s, valid)
    ensures OneIdentity(s, valid)
  {
    hide NormalizeEmail, CallKey;
    forall c, d | c in s.calls && d in s.calls && c.phase.Finished? && d.phase.Finished?
      ensures c.phase.id == d.phase.id <==> CallKey(c, valid) == CallKey(d, valid)
    {
      AnswersMatch(s, valid, c, d);
    }
    assert forall c :: c in s.calls ==> CallHonest(s.tables, c, valid);
    SameKeySamePrincipal(s.tables);
    hide TablesAgree, CallKey, NormalizeEmail, Invariant;
  }

  lemma {:induction false} SameKeySamePrincipal(t: Tables)
    requires TablesAgree(t)
    ensures forall a, b :: a in t.byId && b in t.byId && KeyOf(t.byId[a]) == KeyOf(t.byId[b]) ==> a == b
  {
  }

  lemma {:induction false} AnswersMatch(s: State, valid: string -> bool, c: Call, d: Call)
    requires Invariant(s, valid) && c in s.calls && d in s.calls
    requires c.phase.Finished? && d.phase.Finished?
    ensures c.phase.id == d.phase.id <==> CallKey(c, valid) == CallKey(d, valid)
  {
    assert CallHonest(s.tables, c, valid) && CallHonest(s.tables, d, valid);
    if c.phase.id == d.phase.id {
      SameIdSameKey(s.tables, CallKey(c, valid), CallKey(d, valid));
    }
  }

  lemma {:induction false} SameIdSameKey(t: Tables, k: EmailKey, m: EmailKey)
    requires TablesAgree(t) && k in t.byEmail && m in t.byEmail && t.byEmail[k].id == t.byEmail[m].id
    ensures k == m
  {
    var id := t.byEmail[k].id;
    assert KeyOf(t.byId[id]) in t.byEmail;
  }

  // ---------------------------------------------------------------- in plain characters

  /** An email is normal when it is valid once stripped and made small. */
  lemma {:induction false} EmailSpelled(email: Option<string>, valid: string -> bool)
    ensures match NormalizeEmail(email, valid)
            case Some(e) => email.Some? && email.value != "" && IsSmallFormOf(e, Strip(email.value)) && valid(e)
            case None => email.None? || email.value == ""
                         || forall e :: IsSmallFormOf(e, Strip(email.value)) ==> !valid(e)
  {
    if email.Some? {
      forall e ensures IsSmallFormOf(e, Strip(email.value)) <==> e == Lower(Strip(email.value)) {
        LowerIsSmallForm(Strip(email.value), e);
      }
    }
    hide Strip, Lower, IsSmallFormOf;
  }

  /** In every state of every run: a finished call's principal is stored for its
      tenant under the small form of its email, and two finished calls have one
      principal exactly when tenant and email agree, the case of letters apart. */
  lemma {:induction false} OnePrincipalWhateverTheCase(run: seq<State>, valid: string -> bool, n: nat, c: Call, d: Call)
    requires IsRun(run, valid) && n < |run| && Invariant(run[0], valid)
    requires c in run[n].calls && d in run[n].calls && c.phase.Finished? && d.phase.Finished?
    ensures c.hint.email.Some? && d.hint.email.Some?
    ensures c.phase.id == d.phase.id <==>
              c.tenant == d.tenant && SameButCase(Strip(c.hint.email.value), Strip(d.hint.email.value))
    ensures var stored := run[n].tables.byId;
            && c.phase.id in stored && stored[c.phase.id].tenantId == c.tenant
            && IsSmallFormOf(stored[c.phase.id].email, Strip(c.hint.email.value))
  {
    hide IsRun, Invariant, TablesAgree, NormalizeEmail, CallKey, Strip, SameButCase, IsSmallFormOf;
    RunInvariant(run, valid, n);
    AnswersMatch(run[n], valid, c, d);
    FinishedIsHonest(run[n], valid, c);
    FinishedIsHonest(run[n], valid, d);
    EmailSpelled(c.hint.email, valid);
    EmailSpelled(d.hint.email, valid);
    KeysSpelled(c, d, valid);
    StoredSpelled(run[n].tables, c, valid);
  }

  lemma {:induction false} FinishedIsHonest(s: State, valid: string -> bool, c: Call)
    requires Invariant(s, valid) && c in s.calls && c.phase.Finished?
    ensures TablesAgree(s.tables) && NormalizeEmail(c.hint.email, valid).Some?
    ensures CallKey(c, valid) in s.tables.byEmail && s.tables.byEmail[CallKey(c, valid)].id == c.phase.id
  {
    hide TablesAgree, NormalizeEmail, CallKey, ResolvedHere;
    var i :| 0 <= i < |s.calls| && s.calls[i] == c;
    assert CallHonest(s.tables, s.calls[i], valid);
  }

  lemma {:induction false} KeysSpelled(c: Call, d: Call, valid: string -> bool)
    requires NormalizeEmail(c.hint.email, valid).Some? && NormalizeEmail(d.hint.email, valid).Some?
    requires c.hint.email.Some? && d.hint.email.Some?
    ensures CallKey(c, valid) == CallKey(d, valid) <==>
              c.tenant == d.tenant && SameButCase(Strip(c.hint.email.value), Strip(d.hint.email.value))
  {
    var a, b := Strip(c.hint.email.value), Strip(d.hint.email.value);
    SameLower(a, b);
    LowerIsSmallForm(a, Lower(a));
    LowerIsSmallForm(b, Lower(b));
    LowerIsSmallForm(Lower(a), Lower(a));
    LowerIsSmallForm(Lower(b), Lower(b));
    hide Strip, Lower, SameButCase, IsSmallFormOf, NoCapital;
  }

  lemma {:induction false} StoredSpelled(t: Tables, c: Call, valid: string -> bool)
    requires TablesAgree(t) && NormalizeEmail(c.hint.email, valid).Some? && c.hint.email.Some?
    requires CallKey(c, valid) in t.byEmail
    ensures var p := t.byEmail[CallKey(c, valid)];
            && p.id in t.byId && t.byId[p.id].tenantId == c.tenant
            && IsSmallFormOf(t.byId[p.id].email, Strip(c.hint.email.value))
  {
    var p, e := t.byEmail[CallKey(c, valid)], Strip(c.hint.email.value);
    LowerIsSmallForm(p.email, p.email);
    LowerIsSmallForm(e, Lower(e));
    LowerIsSmallForm(Lower(e), Lower(e));
    hide Strip, Lower, IsSmallFormOf, NoCapital;
  }

  /** The table has a principal of this tenant and email, in whatever case. */
  ghost predicate HasEmail(t: Tables, tenant: Uuid, email: string) {
    exists id :: id in t.byId && t.byId[id].tenantId == tenant && SameButCase(t.byId[id].email, email)
  }

  lemma {:induction false} HasEmailSpelled(t: Tables, c: Call, valid: string -> bool)
    requires TablesAgree(t) && NormalizeEmail(c.hint.email, valid).Some? && c.hint.email.Some?
    ensures CallKey(c, valid) in t.byEmail <==> HasEmail(t, c.tenant, Strip(c.hint.email.value))
  {
    var e := Strip(c.hint.email.value);
    LowerIsSmallForm(e, Lower(e));
    LowerIsSmallForm(Lower(e), Lower(e));
    forall id | id in t.byId
      ensures Lower(t.byId[id].email) == Lower(e) <==> SameButCase(t.byId[id].email, e)
    {
      SameLower(t.byId[id].email, e);
    }
    hide Strip, Lower, SameButCase, IsSmallFormOf, NoCapital;
    if CallKey(c, valid) in t.byEmail {
      var id := t.byEmail[CallKey(c, valid)].id;
      assert t.byId[id].tenantId == c.tenant && SameButCase(t.byId[id].email, e);
    }
    if id :| id in t.byId && t.byId[id].tenantId == c.tenant && SameButCase(t.byId[id].email, e) {
      assert KeyOf(t.byId[id]) == CallKey(c, valid);
    }
  }

  // ---------------------------------------------------------------- the resolver

  /** A call run without interference, at most three operations long. */
  function Alone(t: Tables, c: Call, valid: string -> bool, newId: Uuid): (Tables, Phase) {
    var (t1, p1) := Step(t, c, valid, newId);
    var (t2, p2) := Step(t1, c.(phase := p1), valid, newId);
    Step(t2, c.(phase := p2), valid, newId)
  }

  datatype Resolution = Resolved(principalId: Uuid, matchedOn: string) | Unresolvable

  class IdentityResolver {
    var tables: Tables

    constructor ()
      ensures tables == Tables(map[], map[]) && TablesAgree(tables)
    {
      tables := Tables(map[], map[]);
    }

    method UpdateSourceIdentity(principal: Principal, hint: Hint)
      modifies this
      ensures tables == if WithSource(principal, hint) == principal then old(tables)
                        else UpdatePrincipal(old(tables), WithSource(principal, hint))
      ensures hint.sourceType in principal.sourceIdentities ==> tables == old(tables)
      ensures hint.sourceType !in principal.sourceIdentities ==>
                && principal.id in tables.byId
                && tables.byId[principal.id].sourceIdentities
                   == principal.sourceIdentities[hint.sourceType := hint.externalId]
    {
      if hint.sourceType !in principal.sourceIdentities {
        tables := UpdatePrincipal(tables,
          principal.(sourceIdentities := principal.sourceIdentities[hint.sourceType := hint.externalId]));
      } else {
        assert WithSource(principal, hint) == principal;
      }
    }

    /** `_create_principal`: on a taken key, the winner is queried and adopted. */
    method CreateOrAdopt(email: string, tenant: Uuid, hint: Hint, newId: Uuid) returns (principal: Option<Principal>)
      modifies this
      ensures match CreatePrincipal(old(tables), NewPrincipal(Call(hint, tenant, Missing), email, newId))
              case Some(t) => tables == t && principal.Some? && principal.value.id == newId
              case None =>
                && principal == GetPrincipalByEmail(old(tables), email, tenant)
                && (principal.Some? ==>
                      tables == Step(old(tables), Call(hint, tenant, Matched(principal.value)), _ => true, newId).0)
    {
      var created := Principal(newId, tenant, email, map[hint.sourceType := hint.externalId]);
      var result := CreatePrincipal(tables, created);
      if result.Some? {
        tables := result.value;
        return Some(created);
      }
      principal := GetPrincipalByEmail(tables, email, tenant);
      if principal.Some? {
        UpdateSourceIdentity(principal.value, hint);
      }
    }

    /** One call left alone does what its operations do in a row: an existing
        principal is matched, a new one is made only for a key that had none. */
    method Resolve(hint: Hint, tenant: Uuid, valid: string -> bool, newId: Uuid) returns (r: Resolution)
      requires TablesAgree(tables) && newId !in tables.byId && ResolvedHere(hint, valid)
      modifies this
      ensures TablesAgree(tables) && Keeps(old(tables), tables)
      ensures var (t, phase) := Alone(old(tables), Call(hint, tenant, Waiting), valid, newId);
              tables == t && phase == if r.Resolved? then Finished(r.principalId) else Raised
      ensures r.Unresolvable? <==> NormalizeEmail(hint.email, valid).None?
      ensures r.Unresolvable? <==>
                (|| hint.email.None? || hint.email.value == ""
                 || forall e :: IsSmallFormOf(e, Strip(hint.email.value)) ==> !valid(e))
      ensures r.Resolved? ==>
                && r.matchedOn == (if HasEmail(old(tables), tenant, Strip(hint.email.value)) then "email" else "new")
                && r.principalId in tables.byId && tables.byId[r.principalId].tenantId == tenant
                && IsSmallFormOf(tables.byId[r.principalId].email, Strip(hint.email.value))
                && hint.sourceType in tables.byId[r.principalId].sourceIdentities
    {
      ResolveSpelled(tables, Call(hint, tenant, Waiting), valid, newId);
      AloneIsSafe(tables, Call(hint, tenant, Waiting), valid, newId);
      AloneComputed(tables, Call(hint, tenant, Waiting), valid, newId);
      hide Step, Alone, TablesAgree, Keeps, NormalizeEmail, IsSmallFormOf, HasEmail, Strip;
      var normalized := NormalizeEmail(hint.email, valid);
      if normalized.None? {
        return Unresolvable;
      }
      var principal := GetPrincipalByEmail(tables, normalized.value, tenant);
      if principal.Some? {
        UpdateSourceIdentity(principal.value, hint);
        return Resolved(principal.value.id, "email");
      }
      var made := CreateOrAdopt(normalized.value, tenant, hint, newId);
      return Resolved(made.value.id, "new");
    }
  }

  lemma {:induction false} ResolveSpelled(t: Tables, c: Call, valid: string -> bool, newId: Uuid)
    requires TablesAgree(t) && newId !in t.byId && c.phase.Waiting?
    ensures NormalizeEmail(c.hint.email, valid).None? <==>
              (|| c.hint.email.None? || c.hint.email.value == ""
               || forall e :: IsSmallFormOf(e, Strip(c.hint.email.value)) ==> !valid(e))
    ensures NormalizeEmail(c.hint.email, valid).Some? ==>
              var (t', phase) := Alone(t, c, valid, newId);
              && (CallKey(c, valid) !in t.byEmail <==> !HasEmail(t, c.tenant, Strip(c.hint.email.value)))
              && phase.Finished? && phase.id in t'.byId && t'.byId[phase.id].tenantId == c.tenant
              && IsSmallFormOf(t'.byId[phase.id].email, Strip(c.hint.email.value))
              && c.hint.sourceType in t'.byId[phase.id].sourceIdentities
  {
    EmailSpelled(c.hint.email, valid);
    AloneComputed(t, c, valid, newId);
    AloneIsSafe(t, c, valid, newId);
    if NormalizeEmail(c.hint.email, valid).Some? {
      var (t', phase) := Alone(t, c, valid, newId);
      HasEmailSpelled(t, c, valid);
      hide Alone, Lower, Strip, IsSmallFormOf, SameButCase, NoCapital, HasEmail;
      assert CallKey(c, valid) in t'.byEmail && t'.byEmail[CallKey(c, valid)].id == phase.id;
      StoredSpelled(t', c, valid);
    }
  }

  lemma {:induction false} AloneComputed(t: Tables, c: Call, valid: string -> bool, newId: Uuid)
    requires c.phase.Waiting?
    ensures Alone(t, c, valid, newId) ==
            match NormalizeEmail(c.hint.email, valid)
            case None => (t, Raised)
            case Some(email) =>
              match GetPrincipalByEmail(t, email, c.tenant)
              case Some(p) =>
                ((if WithSource(p, c.hint) == p then t else UpdatePrincipal(t, WithSource(p, c.hint))), Finished(p.id))
              case None => (UpdatePrincipal(t, NewPrincipal(c, email, newId)), Finished(newId))
    ensures NormalizeEmail(c.hint.email, valid).Some? ==>
              var email := NormalizeEmail(c.hint.email, valid).value;
              CallKey(c, valid) == KeyOf(NewPrincipal(c, email, newId)) == (c.tenant, Lower(email))
  {
    hide NormalizeEmail, WithSource, UpdatePrincipal;
    var (t1, p1) := Step(t, c, valid, newId);
    var (t2, p2) := Step(t1, c.(phase := p1), valid, newId);
    if NormalizeEmail(c.hint.email, valid).Some? {
      var email := NormalizeEmail(c.hint.email, valid).value;
      var found := GetPrincipalByEmail(t, email, c.tenant);
      assert (t1, p1) == (t, if found.Some? then Matched(found.value) else Missing);
      if found.None? {
        assert KeyOf(NewPrincipal(c, email, newId)) !in t.byEmail;
        assert p2 == Finished(newId);
      } else {
        assert p2 == Finished(found.value.id);
      }
    } else {
      assert (t1, p1) == (t, Raised) == (t2, p2);
    }
  }

  lemma {:induction false} AloneIsSafe(t: Tables, c: Call, valid: string -> bool, newId: Uuid)
    requires TablesAgree(t) && newId !in t.byId && c.phase.Waiting?
    ensures TablesAgree(Alone(t, c, valid, newId).0) && Keeps(t, Alone(t, c, valid, newId).0)
  {
    var (t1, p1) := Step(t, c, valid, newId);
    StepPreserves(t, c, valid, newId);
    StepPreserves(t1, c.(phase := p1), valid, newId);
  }
}
