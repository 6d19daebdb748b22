/** ACL terms: strings such as `user:alice` that documents carry and callers
    hold (backend/app/acl/term_generator.py, and `acl_terms_from_jwt` of
    backend/app/acl/filter.py). The index-time generator and the query-time
    reader are separate code; they must produce the same terms. */
module AclTerms {
  import opened Prelude
  import opened TextOps

  const WILDCARD := "*"
  const USER_PREFIX := "user:"
  const GROUP_PREFIX := "group:"

  /** The claims of a token that the reader looks at; "" and [] stand for a
      missing claim. */
  datatype Claims = Claims(
    aclTerms: seq<string>,
    aclFilterTerms: seq<string>,
    sub: string,
    principalId: string,
    userId: string,
    email: string,
    groups: seq<string>)

  // ---------------------------------------------------------------- term lists

  predicate Keeps(raw: string) {
    Strip(raw) != "" && Strip(raw) != WILDCARD
  }

  /** The raw values stripped, blanks and `*` dropped. */
  function Cleaned(raws: seq<string>): seq<string> {
    if raws == [] then [] else Cleaned(raws[..|raws| - 1]) + Kept(raws[|raws| - 1])
  }

  function Kept(raw: string): seq<string> {
    if Keeps(raw) then [Strip(raw)] else []
  }

  lemma {:induction false} CleanedMember(raws: seq<string>, t: string)
    ensures t in Cleaned(raws) <==> exists x :: x in raws && Keeps(x) && t == Strip(x)
  {
    if raws != [] {
      var last := raws[|raws| - 1];
      assert raws == raws[..|raws| - 1] + [last];
      CleanedMember(raws[..|raws| - 1], t);
    }
  }

  /** The term list a run of `_add` calls leaves behind. */
  function Terms(raws: seq<string>): (r: seq<string>) {
    FromKeys(Cleaned(raws))
  }

  /** What any such list is: no blank, no wildcard, no repeat, no space at an end. */
  ghost predicate WellFormedTerms(terms: seq<string>) {
    Distinct(terms) && forall t :: t in terms ==> t != "" && t != WILDCARD && Trimmed(t)
  }

  lemma {:induction false} TermsWellFormed(raws: seq<string>)
    ensures WellFormedTerms(Terms(raws))
  {
    forall t | t in Terms(raws) ensures t != "" && t != WILDCARD && Trimmed(t) {
      CleanedMember(raws, t);
      var x :| x in raws && Keeps(x) && t == Strip(x);
      StripIsTrimmed(x);
    }
  }

  lemma {:induction false} NoTerms()
    ensures Terms([]) == [] && ToSet<string>([]) == {}
  {
  }

  lemma {:induction false} TermsMember(raws: seq<string>)
    ensures forall t :: t in Terms(raws) <==> t in Cleaned(raws)
  {
  }

  lemma {:induction false} SameTerms(a: seq<string>, b: seq<string>)
    requires Cleaned(a) == Cleaned(b)
    ensures Terms(a) == Terms(b)
  {
  }

  lemma {:induction false} TermsStep(raws: seq<string>, raw: string)
    ensures Terms(raws + [raw]) ==
              if Keeps(raw) && Strip(raw) !in Terms(raws) then Terms(raws) + [Strip(raw)] else Terms(raws)
  {
    var all := raws + [raw];
    assert all[..|all| - 1] == raws;
    if Keeps(raw) {
      var cleaned := Cleaned(raws) + [Strip(raw)];
      assert cleaned[..|cleaned| - 1] == Cleaned(raws);
    } else {
      assert Cleaned(all) == Cleaned(raws);
    }
  }

  lemma {:induction false} CleanedConcat(a: seq<string>, b: seq<string>)
    ensures Cleaned(a + b) == Cleaned(a) + Cleaned(b)
  {
    hide Kept;
    if b == [] {
      assert a + b == a;
    } else {
      var front := b[..|b| - 1];
      CleanedConcat(a, front);
      assert (a + b)[..|a + b| - 1] == a + front;
      assert (a + b)[|a + b| - 1] == b[|b| - 1];
      assert Cleaned(a) + Cleaned(front) + Kept(b[|b| - 1]) == Cleaned(a) + Cleaned(b);
    }
  }

  /** The inner `_add` of both functions. */
  method Add(terms: seq<string>, seen: set<string>, raw: string, ghost raws: seq<string>)
    returns (newTerms: seq<string>, newSeen: set<string>)
    requires terms == Terms(raws) && seen == ToSet(terms)
    ensures newTerms == Terms(raws + [raw]) && newSeen == ToSet(newTerms)
  {
    TermsStep(raws, raw);
    hide Terms, Strip;
    newTerms, newSeen := terms, seen;
    var value := Strip(raw);
    if value == "" || value == WILDCARD || value in seen {
      return;
    }
    newSeen := newSeen + {value};
    newTerms := newTerms + [value];
  }

  /** `_add(value)` and then `_add` of the value behind its prefix. */
  method AddBoth(terms: seq<string>, seen: set<string>, value: string, prefix: string, ghost raws: seq<string>)
    returns (newTerms: seq<string>, newSeen: set<string>)
    requires terms == Terms(raws) && seen == ToSet(terms)
    ensures newTerms == Terms(raws + [value, prefix + value]) && newSeen == ToSet(newTerms)
  {
    hide Terms, ToSet;
    newTerms, newSeen := Add(terms, seen, value, raws);
    newTerms, newSeen := Add(newTerms, newSeen, prefix + value, raws + [value]);
    assert raws + [value] + [prefix + value] == raws + [value, prefix + value];
  }

  // ---------------------------------------------------------------- index time

  function PrincipalRaws(principal: string): seq<string> {
    var p := Strip(principal);
    if p == "" then []
    else if StartsWith(p, USER_PREFIX) || StartsWith(p, GROUP_PREFIX) then [p]
    else [p, USER_PREFIX + p]
  }

  function EmailRaws(email: string): seq<string> {
    var e := Lower(Strip(email));
    if e == "" then [] else [e, USER_PREFIX + e]
  }

  function GroupRaws(group: string): seq<string> {
    var g := Strip(group);
    if g == "" then []
    else if StartsWith(g, GROUP_PREFIX) then [g]
    else [g, GROUP_PREFIX + g]
  }

  function GroupsRaws(groups: seq<string>): seq<string> {
    if groups == [] then [] else GroupsRaws(groups[..|groups| - 1]) + GroupRaws(groups[|groups| - 1])
  }

  function GeneratedRaws(principal: string, email: string, groups: seq<string>): seq<string> {
    PrincipalRaws(principal) + EmailRaws(email) + GroupsRaws(groups)
  }

  /** The terms a document is indexed with for its owner. */
  function GeneratedTerms(principal: string, email: string, groups: seq<string>): seq<string> {
    Terms(GeneratedRaws(principal, email, groups))
  }

  method AddPrincipal(terms: seq<string>, seen: set<string>, principalId: string, ghost raws: seq<string>)
    returns (newTerms: seq<string>, newSeen: set<string>)
    requires terms == Terms(raws) && seen == ToSet(terms)
    ensures newTerms == Terms(raws + PrincipalRaws(principalId)) && newSeen == ToSet(newTerms)
  {
    hide Terms, Strip, ToSet, StartsWith;
    newTerms, newSeen := terms, seen;
    var principal := Strip(principalId);
    if principal == "" {
      assert raws + [] == raws;
    } else if StartsWith(principal, USER_PREFIX) || StartsWith(principal, GROUP_PREFIX) {
      newTerms, newSeen := Add(terms, seen, principal, raws);
    } else {
      newTerms, newSeen := AddBoth(terms, seen, principal, USER_PREFIX, raws);
    }
  }

  method AddEmail(terms: seq<string>, seen: set<string>, email: string, ghost raws: seq<string>)
    returns (newTerms: seq<string>, newSeen: set<string>)
    requires terms == Terms(raws) && seen == ToSet(terms)
    ensures newTerms == Terms(raws + EmailRaws(email)) && newSeen == ToSet(newTerms)
  {
    hide Terms, Strip, Lower, ToSet;
    newTerms, newSeen := terms, seen;
    var normalized := Lower(Strip(email));
    if normalized != "" {
      newTerms, newSeen := AddBoth(terms, seen, normalized, USER_PREFIX, raws);
    } else {
      assert raws + [] == raws;
    }
  }

  method AddGroup(terms: seq<string>, seen: set<string>, group: string, ghost raws: seq<string>)
    returns (newTerms: seq<string>, newSeen: set<string>)
    requires terms == Terms(raws) && seen == ToSet(terms)
    ensures newTerms == Terms(raws + GroupRaws(group)) && newSeen == ToSet(newTerms)
  {
    hide Terms, Strip, ToSet, StartsWith;
    newTerms, newSeen := terms, seen;
    var g := Strip(group);
    if g == "" {
      assert raws + [] == raws;
    } else if StartsWith(g, GROUP_PREFIX) {
      newTerms, newSeen := Add(terms, seen, g, raws);
    } else {
      newTerms, newSeen := AddBoth(terms, seen, g, GROUP_PREFIX, raws);
    }
  }

  /** `generate_acl_terms_for_user` */
  method GenerateAclTermsForUser(principalId: string, email: string, groups: seq<string>) returns (terms: seq<string>)
    ensures terms == GeneratedTerms(principalId, email, groups)
  {
    hide Terms, ToSet, PrincipalRaws, EmailRaws, GroupRaws;
    NoTerms();
    var seen: set<string>;
    terms, seen := AddPrincipal([], {}, principalId, []);
    assert [] + PrincipalRaws(principalId) == PrincipalRaws(principalId);
    terms, seen := AddEmail(terms, seen, email, PrincipalRaws(principalId));
    ghost var before := PrincipalRaws(principalId) + EmailRaws(email);
    assert before + [] == before;
    for i := 0 to |groups|
      invariant terms == Terms(before + GroupsRaws(groups[..i])) && seen == ToSet(terms)
    {
      terms, seen := AddGroup(terms, seen, groups[i], before + GroupsRaws(groups[..i]));
      assert groups[..i + 1][..i] == groups[..i];
      assert before + GroupsRaws(groups[..i + 1]) == before + GroupsRaws(groups[..i]) + GroupRaws(groups[i]);
    }
    assert groups[..|groups|] == groups;
  }

  // ---------------------------------------------------------------- query time

  function TokenPrincipal(claims: Claims): string {
    if claims.sub != "" then claims.sub else if claims.principalId != "" then claims.principalId else claims.userId
  }

  function ClaimedTerms(claims: Claims): seq<string> {
    if claims.aclTerms != [] then claims.aclTerms else claims.aclFilterTerms
  }

  function TokenPrincipalRaws(principal: string): seq<string> {
    if principal == "" then [] else [principal, USER_PREFIX + principal]
  }

  function TokenEmailRaws(email: string): seq<string> {
    if email == "" then [] else [Lower(Strip(email)), USER_PREFIX + Lower(Strip(email))]
  }

  function TokenGroupRaws(group: string): seq<string> {
    if group == "" || StartsWith(group, GROUP_PREFIX) then [group] else [group, GROUP_PREFIX + group]
  }

  function TokenGroupsRaws(groups: seq<string>): seq<string> {
    if groups == [] then []
    else TokenGroupsRaws(groups[..|groups| - 1]) + TokenGroupRaws(groups[|groups| - 1])
  }

  function IdentityRaws(claims: Claims): seq<string> {
    TokenPrincipalRaws(TokenPrincipal(claims)) + TokenEmailRaws(claims.email) + TokenGroupsRaws(claims.groups)
  }

  /** The terms a caller holds. */
  function TokenTerms(claims: Claims): seq<string> {
    Terms(ClaimedTerms(claims) + IdentityRaws(claims))
  }

  method AddTokenPrincipal(terms: seq<string>, seen: set<string>, principal: string, ghost raws: seq<string>)
    returns (newTerms: seq<string>, newSeen: set<string>)
    requires terms == Terms(raws) && seen == ToSet(terms)
    ensures newTerms == Terms(raws + TokenPrincipalRaws(principal)) && newSeen == ToSet(newTerms)
  {
    hide Terms, ToSet;
    newTerms, newSeen := terms, seen;
    if principal != "" {
      newTerms, newSeen := AddBoth(terms, seen, principal, USER_PREFIX, raws);
    } else {
      assert raws + [] == raws;
    }
  }

  method AddTokenEmail(terms: seq<string>, seen: set<string>, email: string, ghost raws: seq<string>)
    returns (newTerms: seq<string>, newSeen: set<string>)
    requires terms == Terms(raws) && seen == ToSet(terms)
    ensures newTerms == Terms(raws + TokenEmailRaws(email)) && newSeen == ToSet(newTerms)
  {
    hide Terms, Strip, Lower, ToSet;
    newTerms, newSeen := terms, seen;
    if email != "" {
      newTerms, newSeen := AddBoth(terms, seen, Lower(Strip(email)), USER_PREFIX, raws);
    } else {
      assert raws + [] == raws;
    }
  }

  method AddTokenGroup(terms: seq<string>, seen: set<string>, group: string, ghost raws: seq<string>)
    returns (newTerms: seq<string>, newSeen: set<string>)
    requires terms == Terms(raws) && seen == ToSet(terms)
    ensures newTerms == Terms(raws + TokenGroupRaws(group)) && newSeen == ToSet(newTerms)
  {
    hide Terms, ToSet, StartsWith;
    newTerms, newSeen := Add(terms, seen, group, raws);
    if group != "" && !StartsWith(group, GROUP_PREFIX) {
      newTerms, newSeen := Add(newTerms, newSeen, GROUP_PREFIX + group, raws + [group]);
      assert raws + [group] + [GROUP_PREFIX + group] == raws + TokenGroupRaws(group);
    }
  }

  /** `acl_terms_from_jwt` */
  method AclTermsFromJwt(claims: Claims) returns (terms: seq<string>)
    ensures terms == TokenTerms(claims)
  {
    hide Terms, ToSet, TokenPrincipalRaws, TokenEmailRaws, TokenGroupRaws;
    NoTerms();
    terms := [];
    var seen: set<string> := {};
    var claimed := ClaimedTerms(claims);
    for i := 0 to |claimed|
      invariant terms == Terms(claimed[..i]) && seen == ToSet(terms)
    {
      terms, seen := Add(terms, seen, claimed[i], claimed[..i]);
      assert claimed[..i] + [claimed[i]] == claimed[..i + 1];
    }
    assert claimed[..|claimed|] == claimed;
    var principal, groups := TokenPrincipal(claims), claims.groups;
    terms, seen := AddTokenPrincipal(terms, seen, principal, claimed);
    terms, seen := AddTokenEmail(terms, seen, claims.email, claimed + TokenPrincipalRaws(principal));
    ghost var before := claimed + TokenPrincipalRaws(principal) + TokenEmailRaws(claims.email);
    assert before + [] == before;
    for i := 0 to |groups|
      invariant terms == Terms(before + TokenGroupsRaws(groups[..i])) && seen == ToSet(terms)
    {
      terms, seen := AddTokenGroup(terms, seen, groups[i], before + TokenGroupsRaws(groups[..i]));
      assert groups[..i + 1][..i] == groups[..i];
      assert before + TokenGroupsRaws(groups[..i + 1]) ==
          before + TokenGroupsRaws(groups[..i]) + TokenGroupRaws(groups[i]);
    }
    assert groups[..|groups|] == groups;
    assert before + TokenGroupsRaws(groups) == claimed + IdentityRaws(claims);
  }

  // ---------------------------------------------------------------- the lists, spelled out

  /** A term of a document's owner: the bare principal and email, each also
      behind "user:", and the bare groups, each also behind "group:"; a
      principal or group that has a prefix of its own gets no second one. */
  ghost predicate IsOwnerTerm(principal: string, email: string, groups: seq<string>, t: string) {
    var p := Strip(principal);
    || (p != "" && (t == p || (t == "user:" + p && !("user:" <= p) && !("group:" <= p))))
    || (exists e :: IsSmallFormOf(e, Strip(email)) && e != "" && (t == e || t == "user:" + e))
    || (exists g :: g in groups && Strip(g) != ""
                    && (t == Strip(g) || (t == "group:" + Strip(g) && !("group:" <= Strip(g)))))
  }

  /** What a token makes its caller hold, before stripping: the claimed terms,
      those of `acl_filter_terms` only where `acl_terms` is empty; the first
      principal claim there is, and the email, each also behind "user:"; and
      the groups, each also behind "group:" unless it starts so. */
  ghost predicate IsClaimed(claims: Claims, x: string) {
    || x in claims.aclTerms
    || (claims.aclTerms == [] && x in claims.aclFilterTerms)
    || (exists p :: IsSubject(claims, p) && (x == p || x == "user:" + p))
    || (claims.email != "" && exists e :: IsSmallFormOf(e, Strip(claims.email)) && (x == e || x == "user:" + e))
    || (exists g :: g in claims.groups && IsGroupClaim(g, x))
  }

  ghost predicate IsGroupClaim(group: string, x: string) {
    x == group || (group != "" && !("group:" <= group) && x == "group:" + group)
  }

  ghost predicate IsSubject(claims: Claims, p: string) {
    && p != ""
    && (|| p == claims.sub
        || (claims.sub == "" && p == claims.principalId)
        || (claims.sub == "" && claims.principalId == "" && p == claims.userId))
  }

  lemma {:induction false} InTwo(a: string, b: string, x: string)
    ensures x in [a, b] <==> x == a || x == b
    ensures x in [a] <==> x == a
  {
    assert [a, b][0] == a && [a, b][1] == b && [a][0] == a;
  }

  lemma {:induction false} PrincipalRawsSpelled(principal: string, x: string)
    ensures x in PrincipalRaws(principal) <==>
        var p := Strip(principal);
        p != "" && (x == p || (x == "user:" + p && !("user:" <= p) && !("group:" <= p)))
  {
    hide Strip;
    InTwo(Strip(principal), USER_PREFIX + Strip(principal), x);
  }

  lemma {:induction false} EmailRawsSpelled(email: string, x: string)
    ensures x in EmailRaws(email) <==>
        exists e :: IsSmallFormOf(e, Strip(email)) && e != "" && (x == e || x == "user:" + e)
    ensures x in TokenEmailRaws(email) <==>
        email != "" && exists e :: IsSmallFormOf(e, Strip(email)) && (x == e || x == "user:" + e)
  {
    hide Strip, Lower, IsSmallFormOf;
    var small := Lower(Strip(email));
    forall e { LowerIsSmallForm(Strip(email), e); }
    InTwo(small, USER_PREFIX + small, x);
    assert IsSmallFormOf(small, Strip(email));
  }

  lemma {:induction false} GroupRawsSpelled(group: string, x: string)
    ensures x in GroupRaws(group) <==>
        var g := Strip(group);
        g != "" && (x == g || (x == "group:" + g && !("group:" <= g)))
    ensures x in TokenGroupRaws(group) <==> IsGroupClaim(group, x)
  {
    hide Strip;
    InTwo(Strip(group), GROUP_PREFIX + Strip(group), x);
    InTwo(group, GROUP_PREFIX + group, x);
  }

  lemma {:induction false} GroupsRawsSpelled(groups: seq<string>, x: string)
    ensures x in GroupsRaws(groups) <==> exists g :: g in groups && x in GroupRaws(g)
    ensures x in TokenGroupsRaws(groups) <==> exists g :: g in groups && x in TokenGroupRaws(g)
  {
    hide GroupRaws, TokenGroupRaws;
    if groups != [] {
      var front, last := groups[..|groups| - 1], groups[|groups| - 1];
      GroupsRawsSpelled(front, x);
      assert groups == front + [last];
      assert forall g :: g in groups <==> g in front || g == last;
    }
  }

  lemma {:induction false} TokenPrincipalSpelled(claims: Claims, x: string)
    ensures x in TokenPrincipalRaws(TokenPrincipal(claims)) <==>
        exists p :: IsSubject(claims, p) && (x == p || x == "user:" + p)
  {
    var p := TokenPrincipal(claims);
    InTwo(p, USER_PREFIX + p, x);
    assert p != "" <==> IsSubject(claims, p);
    assert forall q :: IsSubject(claims, q) ==> q == p;
  }

  lemma {:induction false} GeneratedRawsSpelled(principal: string, email: string, groups: seq<string>, x: string)
    ensures x in GeneratedRaws(principal, email, groups) <==> IsOwnerTerm(principal, email, groups, x)
  {
    hide Strip, PrincipalRaws, EmailRaws, GroupRaws, GroupsRaws, IsSmallFormOf;
    PrincipalRawsSpelled(principal, x);
    EmailRawsSpelled(email, x);
    GroupsRawsSpelled(groups, x);
    forall g { GroupRawsSpelled(g, x); }
  }

  lemma {:induction false} ClaimedRawsSpelled(claims: Claims, x: string)
    ensures x in ClaimedTerms(claims) + IdentityRaws(claims) <==> IsClaimed(claims, x)
  {
    hide Strip, TokenPrincipalRaws, TokenEmailRaws, TokenGroupRaws, TokenGroupsRaws, TokenPrincipal, IsSubject,
      IsSmallFormOf, IsGroupClaim;
    TokenPrincipalSpelled(claims, x);
    EmailRawsSpelled(claims.email, x);
    GroupsRawsSpelled(claims.groups, x);
    forall g { GroupRawsSpelled(g, x); }
    InConcat(TokenPrincipalRaws(TokenPrincipal(claims)) + TokenEmailRaws(claims.email),
             TokenGroupsRaws(claims.groups), x);
    InConcat(TokenPrincipalRaws(TokenPrincipal(claims)), TokenEmailRaws(claims.email), x);
    InConcat(ClaimedTerms(claims), IdentityRaws(claims), x);
  }

  lemma {:induction false} InConcat<T>(a: seq<T>, b: seq<T>, x: T)
    ensures x in a + b <==> x in a || x in b
  {
  }

  /** A document is indexed with exactly the terms of its owner, a lone "*" excepted. */
  lemma {:induction false} GeneratedSpelled(principal: string, email: string, groups: seq<string>, t: string)
    ensures t in GeneratedTerms(principal, email, groups) <==>
        exists x :: IsOwnerTerm(principal, email, groups, x) && t == Strip(x) && t != "" && t != "*"
  {
    hide Strip, Terms, Cleaned, GeneratedRaws, IsOwnerTerm;
    TermsMember(GeneratedRaws(principal, email, groups));
    CleanedMember(GeneratedRaws(principal, email, groups), t);
    forall x { GeneratedRawsSpelled(principal, email, groups, x); }
  }

  /** A caller holds exactly the stripped values of the claims, blanks and a lone "*" excepted. */
  lemma {:induction false} HeldSpelled(claims: Claims, t: string)
    ensures t in TokenTerms(claims) <==> exists x :: IsClaimed(claims, x) && t == Strip(x) && t != "" && t != "*"
  {
    hide Strip, Terms, Cleaned, ClaimedTerms, IdentityRaws, IsClaimed;
    TermsMember(ClaimedTerms(claims) + IdentityRaws(claims));
    CleanedMember(ClaimedTerms(claims) + IdentityRaws(claims), t);
    forall x { ClaimedRawsSpelled(claims, x); }
  }

  lemma {:induction false} ExampleParts()
    ensures Strip("user-123") == "user-123" && Strip("user:user-123") == "user:user-123"
    ensures Strip("eng") == "eng" && Strip("group:eng") == "group:eng"
  {
    hide Strip;
    StripOfTrimmed("user-123");
    StripOfTrimmed("user:user-123");
    StripOfTrimmed("eng");
    StripOfTrimmed("group:eng");
  }

  lemma {:induction false} ExampleEmail()
    ensures Strip("Alice@Company.COM") == "Alice@Company.COM"
    ensures Lower("Alice@Company.COM") == "alice@company.com"
    ensures Strip("alice@company.com") == "alice@company.com"
    ensures Strip("user:alice@company.com") == "user:alice@company.com"
  {
    hide Strip, Lower, IsSmallFormOf;
    StripOfTrimmed("Alice@Company.COM");
    StripOfTrimmed("alice@company.com");
    StripOfTrimmed("user:alice@company.com");
    ExampleSmallForm();
    LowerIsSmallForm("Alice@Company.COM", "alice@company.com");
  }

  lemma {:induction false} ExampleSmallForm()
    ensures IsSmallFormOf("alice@company.com", "Alice@Company.COM")
  {
  }

  lemma {:induction false} PlainTerms(raws: seq<string>)
    requires Distinct(raws) && forall x :: x in raws ==> Strip(x) == x && x != "" && x != "*"
    ensures Terms(raws) == raws
  {
    if raws == [] {
      NoTerms();
    } else {
      var n := |raws| - 1;
      PlainTerms(raws[..n]);
      TermsStep(raws[..n], raws[n]);
      hide Strip, Terms;
      assert raws == raws[..n] + [raws[n]];
    }
  }

  lemma {:induction false} ExampleJoins()
    ensures USER_PREFIX + "user-123" == "user:user-123" && GROUP_PREFIX + "eng" == "group:eng"
    ensures USER_PREFIX + "alice@company.com" == "user:alice@company.com"
    ensures !StartsWith("user-123", USER_PREFIX) && !StartsWith("user-123", GROUP_PREFIX)
    ensures !StartsWith("eng", GROUP_PREFIX)
  {
    assert "user-123"[4] == '-' && USER_PREFIX[4] == ':' && "user-123"[0] != GROUP_PREFIX[0];
  }

  lemma {:induction false} ExampleRaws()
    ensures PrincipalRaws("user-123") == ["user-123", "user:user-123"]
    ensures EmailRaws("Alice@Company.COM") == ["alice@company.com", "user:alice@company.com"]
    ensures GroupsRaws(["eng"]) == ["eng", "group:eng"]
  {
    hide Strip, Lower, StartsWith;
    ExampleParts();
    ExampleEmail();
    ExampleJoins();
    assert GroupsRaws(["eng"]) == GroupsRaws([]) + GroupRaws("eng") by {
      assert ["eng"][..0] == [];
    }
  }

  /** Six strings of different lengths are different. */
  lemma {:induction false} DistinctByLength(raws: seq<string>)
    requires forall i, j :: 0 <= i < j < |raws| ==> |raws[i]| != |raws[j]|
    ensures Distinct(raws)
  {
  }

  /** The example of the generator's documentation. */
  lemma {:induction false} DocumentedExample()
    ensures GeneratedTerms("user-123", "Alice@Company.COM", ["eng"]) ==
        ["user-123", "user:user-123", "alice@company.com", "user:alice@company.com", "eng", "group:eng"]
  {
    hide Strip, Lower, Terms, StartsWith, PrincipalRaws, EmailRaws, GroupsRaws, Distinct;
    var raws := ["user-123", "user:user-123", "alice@company.com", "user:alice@company.com", "eng", "group:eng"];
    ExampleParts();
    ExampleEmail();
    ExampleRaws();
    assert GeneratedRaws("user-123", "Alice@Company.COM", ["eng"]) == raws;
    DistinctByLength(raws);
    PlainTerms(raws);
  }

  // ---------------------------------------------------------------- the two agree

  /** Stripping sees through a prefix that itself ends in no space. */
  lemma {:induction false} RStripPrefixed(a: string, p: string)
    requires a != "" && !IsSpace(a[|a| - 1])
    ensures RStrip(a + p) == a + RStrip(p)
  {
    if p == "" {
      assert a + p == a;
    } else if IsSpace(p[|p| - 1]) {
      assert (a + p)[..|a + p| - 1] == a + p[..|p| - 1];
      RStripPrefixed(a, p[..|p| - 1]);
    }
  }

  lemma {:induction false} RStripSplit(pre: string, l: string)
    requires l != "" && !IsSpace(l[0])
    ensures RStrip(pre + l) == pre + RStrip(l) && RStrip(l) != ""
  {
    hide RStrip, IsSpace;
    var first := [l[0]];
    assert l == first + l[1..];
    RStripPrefixed(first, l[1..]);
    RStripPrefixed(pre + first, l[1..]);
    assert pre + l == pre + first + l[1..];
    assert pre + first + RStrip(l[1..]) == pre + RStrip(l);
  }

  lemma {:induction false} RStripOfSpaces(p: string)
    requires LStrip(p) == ""
    ensures RStrip(p) == ""
  {
    if p != "" {
      LStripEmpty(p);
      var front := p[..|p| - 1];
      SpacesLStrip(front);
      RStripOfSpaces(front);
    }
  }

  lemma {:induction false} LStripEmpty(p: string)
    requires LStrip(p) == ""
    ensures forall i :: 0 <= i < |p| ==> IsSpace(p[i])
  {
    if p != "" {
      LStripEmpty(p[1..]);
      forall i | 0 <= i < |p| ensures IsSpace(p[i]) {
        if i > 0 {
          assert p[i] == p[1..][i - 1];
        }
      }
    }
  }

  lemma {:induction false} SpacesLStrip(p: string)
    requires forall i :: 0 <= i < |p| ==> IsSpace(p[i])
    ensures LStrip(p) == ""
  {
    if p != "" {
      SpacesLStrip(p[1..]);
    }
  }

  lemma {:induction false} StripParts(s: string)
    ensures Strip(s) == RStrip(LStrip(s)) && RStrip("") == ""
  {
  }

  lemma {:induction false} SolidStrip(s: string)
    requires s != "" && !IsSpace(s[0])
    ensures Strip(s) == RStrip(s)
  {
  }

  /** `("user:" + p).strip()` keeps the spaces in front of p and drops those after. */
  lemma {:induction false} StripPrefixed(a: string, p: string)
    requires a != "" && !IsSpace(a[0]) && !IsSpace(a[|a| - 1])
    ensures Strip(a + p) == if Strip(p) == "" then a else a + p[..|p| - |LStrip(p)|] + Strip(p)
    ensures Strip(p) == "" <==> LStrip(p) == ""
  {
    hide Strip, LStrip, RStrip, IsSpace;
    var l := LStrip(p);
    SolidStrip(a + p);
    StripParts(p);
    RStripPrefixed(a, p);
    if l == "" {
      RStripOfSpaces(p);
      assert a + RStrip(p) == a;
    } else {
      var pre := p[..|p| - |l|];
      assert p == pre + l;
      RStripSplit(pre, l);
      assert a + (pre + RStrip(l)) == a + pre + RStrip(l);
    }
  }

  lemma {:induction false} StripTwice(p: string)
    ensures Strip(Strip(p)) == Strip(p)
  {
    StripIsTrimmed(p);
    StripOfTrimmed(Strip(p));
  }

  lemma {:induction false} PrefixedTrimmed(a: string, s: string)
    requires a != "" && !IsSpace(a[0]) && !IsSpace(a[|a| - 1]) && Trimmed(s)
    ensures Strip(a + s) == a + s
  {
    StripOfTrimmed(a + s);
  }

  predicate LeadingSpace(s: string) {
    s != "" && IsSpace(s[0])
  }

  /** A principal both sides spell alike. */
  predicate PlainPrincipal(principal: string) {
    !LeadingSpace(principal) && !StartsWith(principal, USER_PREFIX) && !StartsWith(principal, GROUP_PREFIX)
  }

  predicate BlankButPresent(s: string) {
    s != "" && Strip(s) == ""
  }

  lemma {:induction false} CleanedTwo(x: string, y: string)
    ensures Cleaned([x]) == Kept(x) && Cleaned([x, y]) == Kept(x) + Kept(y)
  {
    assert [x][..0] == [];
    assert Cleaned([x][..0]) == [];
    assert [x, y][..1] == [x];
  }

  /** The strip of an unpadded value, and of its prefixed form. */
  lemma {:induction false} NoLeadingSpace(a: string, p: string)
    requires a != "" && !IsSpace(a[0]) && !IsSpace(a[|a| - 1])
    requires p != "" && !LeadingSpace(p)
    ensures Strip(p) != "" && Strip(p) <= p && Strip(a + p) == a + Strip(p)
  {
    assert LStrip(p) == p;
    StripPrefixed(a, p);
    assert p[..0] == "";
    assert a + "" == a;
  }

  lemma {:induction false} LeadingSpaceStays(a: string, p: string)
    requires a != "" && !IsSpace(a[0]) && !IsSpace(a[|a| - 1])
    requires LeadingSpace(p)
    ensures if Strip(p) == "" then Strip(a + p) == a else |Strip(a + p)| > |a + Strip(p)|
  {
    StripPrefixed(a, p);
    assert LStrip(p) == LStrip(p[1..]);
  }

  /** A value shows the prefix exactly when its strip does, spaces in front apart. */
  lemma {:induction false} PrefixSurvives(s: string, a: string)
    requires a != "" && !IsSpace(a[0]) && !IsSpace(a[|a| - 1])
    ensures LeadingSpace(s) ==> !StartsWith(s, a)
    ensures !LeadingSpace(s) ==> (StartsWith(Strip(s), a) <==> StartsWith(s, a))
  {
    if StartsWith(s, a) {
      assert s[0] == a[0];
      assert s == a + s[|a|..];
      RStripPrefixed(a, s[|a|..]);
    }
  }

  /** How the prefixed value strips, against the prefixed strip. */
  lemma {:induction false} PrefixedStrip(a: string, x: string)
    requires |a| > 1 && !IsSpace(a[0]) && !IsSpace(a[|a| - 1]) && x != ""
    ensures Strip(a + x) != Strip(x) && Strip(a + x) != "" && Strip(a + x) != WILDCARD
    ensures LeadingSpace(x) ==> Strip(a + x) != a + Strip(x) || Strip(x) == ""
    ensures !LeadingSpace(x) ==> Strip(x) != "" && Strip(a + x) == a + Strip(x)
  {
    StripPrefixed(a, x);
    if LeadingSpace(x) {
      LeadingSpaceStays(a, x);
    } else {
      NoLeadingSpace(a, x);
    }
  }

  /** Of a value without a space in front, the strip gives the same terms. */
  lemma {:induction false} PrefixedAgree(a: string, x: string)
    requires |a| > 1 && !IsSpace(a[0]) && !IsSpace(a[|a| - 1]) && x != "" && !LeadingSpace(x)
    ensures Cleaned([Strip(x)]) == Cleaned([x]) && Cleaned([Strip(x), a + Strip(x)]) == Cleaned([x, a + x])
  {
    PrefixedStrip(a, x);
    StripTwice(x);
    StripIsTrimmed(x);
    PrefixedTrimmed(a, Strip(x));
    CleanedTwo(Strip(x), a + Strip(x));
    CleanedTwo(x, a + x);
    hide Cleaned, Strip;
    assert Kept(x) == Kept(Strip(x)) && Kept(a + x) == Kept(a + Strip(x));
  }

  lemma {:induction false} KeptMember(raw: string, t: string)
    ensures t in Kept(raw) <==> Strip(raw) != "" && Strip(raw) != WILDCARD && t == Strip(raw)
  {
    hide Strip;
  }

  /** A prefixed value with a space in front gives a term of its own. */
  lemma {:induction false} PrefixedTerm(a: string, x: string)
    requires |a| > 1 && !IsSpace(a[0]) && !IsSpace(a[|a| - 1]) && x != ""
    ensures Strip(a + x) in Kept(a + x) && Strip(a + x) !in Kept(Strip(x))
    ensures Strip(x) != "" && LeadingSpace(x) ==> Strip(a + x) !in Kept(a + Strip(x))
  {
    PrefixedStrip(a, x);
    StripTwice(x);
    StripIsTrimmed(x);
    PrefixedTrimmed(a, Strip(x));
    KeptMember(a + x, Strip(a + x));
    KeptMember(Strip(x), Strip(a + x));
    KeptMember(a + Strip(x), Strip(a + x));
    hide Strip, LeadingSpace, IsSpace, Kept;
  }

  /** So a value with a space in front, or one whose strip goes without the
      prefix, ends with other terms. */
  lemma {:induction false} PrefixedDiffer(a: string, x: string, raws: seq<string>)
    requires |a| > 1 && !IsSpace(a[0]) && !IsSpace(a[|a| - 1]) && x != ""
    requires raws == [] || raws == [Strip(x)] || (raws == [Strip(x), a + Strip(x)] && Strip(x) != "" && LeadingSpace(x))
    ensures Terms(raws) != Terms([x, a + x])
  {
    PrefixedTerm(a, x);
    CleanedTwo(Strip(x), a + Strip(x));
    CleanedTwo(x, a + x);
    assert Cleaned([]) == [];
    hide Cleaned, Strip, Terms, Kept, IsSpace, LeadingSpace;
    TermsDiffer(raws, [x, a + x], Strip(a + x));
  }

  /** A term one list has and the other lacks. */
  lemma {:induction false} TermsDiffer(a: seq<string>, b: seq<string>, t: string)
    requires t !in Cleaned(a) && t in Cleaned(b)
    ensures Terms(a) != Terms(b) && Cleaned(a) != Cleaned(b)
  {
    TermsMember(a);
    TermsMember(b);
  }

  lemma {:induction false} BlankValue()
    ensures PrincipalRaws("") == TokenPrincipalRaws("") && PlainPrincipal("")
    ensures Cleaned(GroupRaws("")) == Cleaned(TokenGroupRaws("")) && !LeadingSpace("")
  {
    CleanedTwo("", "");
  }

  lemma {:induction false} SolidPrefixes()
    ensures |USER_PREFIX| > 1 && !IsSpace(USER_PREFIX[0]) && !IsSpace(USER_PREFIX[|USER_PREFIX| - 1])
    ensures |GROUP_PREFIX| > 1 && !IsSpace(GROUP_PREFIX[0]) && !IsSpace(GROUP_PREFIX[|GROUP_PREFIX| - 1])
  {
  }

  lemma {:induction false} PlainPrincipalRaws(principal: string)
    requires principal != "" && PlainPrincipal(principal)
    ensures PrincipalRaws(principal) == [Strip(principal), USER_PREFIX + Strip(principal)]
    ensures TokenPrincipalRaws(principal) == [principal, USER_PREFIX + principal]
  {
    hide Strip, IsSpace, StartsWith, LeadingSpace;
    SolidPrefixes();
    NoLeadingSpace(USER_PREFIX, principal);
    PrefixSurvives(principal, USER_PREFIX);
    PrefixSurvives(principal, GROUP_PREFIX);
  }

  lemma {:induction false} PlainPrincipalAgrees(principal: string)
    requires PlainPrincipal(principal)
    ensures Cleaned(PrincipalRaws(principal)) == Cleaned(TokenPrincipalRaws(principal))
  {
    hide Strip, Cleaned, StartsWith, LeadingSpace, IsSpace, PrincipalRaws, TokenPrincipalRaws;
    SolidPrefixes();
    BlankValue();
    if principal != "" {
      PrefixedAgree(USER_PREFIX, principal);
      PlainPrincipalRaws(principal);
    }
  }

  lemma {:induction false} OtherPrincipalDiffers(principal: string)
    requires !PlainPrincipal(principal)
    ensures Terms(PrincipalRaws(principal)) != Terms(TokenPrincipalRaws(principal))
  {
    BlankValue();
    PrefixSurvives(principal, USER_PREFIX);
    PrefixSurvives(principal, GROUP_PREFIX);
    hide Terms, Strip, StartsWith, LeadingSpace, IsSpace;
    PrefixedDiffer(USER_PREFIX, principal, PrincipalRaws(principal));
  }

  /** Terms of the principal alone: exactly the principals without a space in
      front and without a `user:` or `group:` of their own come out the same. */
  lemma {:induction false} PrincipalAgreesIff(principal: string)
    ensures Terms(PrincipalRaws(principal)) == Terms(TokenPrincipalRaws(principal)) <==> PlainPrincipal(principal)
  {
    if PlainPrincipal(principal) {
      PlainPrincipalAgrees(principal);
      SameTerms(PrincipalRaws(principal), TokenPrincipalRaws(principal));
    } else {
      OtherPrincipalDiffers(principal);
    }
  }

  lemma {:induction false} BlankEmail()
    ensures Lower("") == "" && Cleaned([]) == [] && USER_PREFIX in Cleaned(["", USER_PREFIX + ""])
  {
    hide Strip, Cleaned, Kept, IsSpace;
    SolidPrefixes();
    StripOfTrimmed(USER_PREFIX);
    assert USER_PREFIX + "" == USER_PREFIX;
    CleanedTwo("", USER_PREFIX);
    KeptMember(USER_PREFIX, USER_PREFIX);
    NothingCleaned();
  }

  lemma {:induction false} NothingCleaned()
    ensures Cleaned([]) == [] && Lower("") == ""
  {
  }

  /** Terms of the email alone: everything but a claim of only spaces. */
  lemma {:induction false} EmailAgreesIff(email: string)
    ensures Terms(EmailRaws(email)) == Terms(TokenEmailRaws(email)) <==> !BlankButPresent(email)
    ensures !BlankButPresent(email) ==> EmailRaws(email) == TokenEmailRaws(email)
  {
    if BlankButPresent(email) {
      BlankEmail();
      hide Terms, Cleaned, Strip, Lower;
      assert EmailRaws(email) == [] && TokenEmailRaws(email) == ["", USER_PREFIX + ""];
      TermsDiffer([], ["", USER_PREFIX + ""], USER_PREFIX);
    }
  }

  /** Terms of one group: everything without a space in front. */
  lemma {:induction false} GroupAgreesIff(group: string)
    ensures Terms(GroupRaws(group)) == Terms(TokenGroupRaws(group)) <==> !LeadingSpace(group)
    ensures !LeadingSpace(group) ==> Cleaned(GroupRaws(group)) == Cleaned(TokenGroupRaws(group))
  {
    BlankValue();
    if LeadingSpace(group) {
      PrefixSurvives(group, GROUP_PREFIX);
      hide Terms, Strip, StartsWith, IsSpace;
      PrefixedDiffer(GROUP_PREFIX, group, GroupRaws(group));
    } else {
      PlainGroupAgrees(group);
      SameTerms(GroupRaws(group), TokenGroupRaws(group));
    }
  }

  lemma {:induction false} PlainGroupAgrees(group: string)
    requires !LeadingSpace(group)
    ensures Cleaned(GroupRaws(group)) == Cleaned(TokenGroupRaws(group))
  {
    hide Strip, Cleaned, StartsWith, LeadingSpace, IsSpace;
    SolidPrefixes();
    BlankValue();
    if group != "" {
      PrefixedStrip(GROUP_PREFIX, group);
      PrefixedAgree(GROUP_PREFIX, group);
      PrefixSurvives(group, GROUP_PREFIX);
    }
  }

  lemma {:induction false} GroupsAgree(groups: seq<string>)
    requires forall g :: g in groups ==> !LeadingSpace(g)
    ensures Cleaned(GroupsRaws(groups)) == Cleaned(TokenGroupsRaws(groups))
  {
    if groups != [] {
      var front, last := groups[..|groups| - 1], groups[|groups| - 1];
      GroupsAgree(front);
      PlainGroupAgrees(last);
      CleanedConcat(GroupsRaws(front), GroupRaws(last));
      CleanedConcat(TokenGroupsRaws(front), TokenGroupRaws(last));
    }
  }

  /** An identity the two sides spell alike: no value starts with a space, the
      principal carries no prefix, the email is not all spaces. */
  predicate PlainIdentity(principal: string, email: string, groups: seq<string>) {
    PlainPrincipal(principal) && !BlankButPresent(email) && forall g :: g in groups ==> !LeadingSpace(g)
  }

  predicate SameIdentity(claims: Claims, principal: string, email: string, groups: seq<string>) {
    TokenPrincipal(claims) == principal && claims.email == email && claims.groups == groups
  }

  lemma {:induction false} IdentityAgrees(claims: Claims, principal: string, email: string, groups: seq<string>)
    requires SameIdentity(claims, principal, email, groups) && PlainIdentity(principal, email, groups)
    ensures Cleaned(GeneratedRaws(principal, email, groups)) == Cleaned(IdentityRaws(claims))
  {
    PlainPrincipalAgrees(principal);
    EmailAgreesIff(email);
    GroupsAgree(groups);
    CleanedConcat(PrincipalRaws(principal), EmailRaws(email));
    CleanedConcat(PrincipalRaws(principal) + EmailRaws(email), GroupsRaws(groups));
    CleanedConcat(TokenPrincipalRaws(principal), TokenEmailRaws(email));
    CleanedConcat(TokenPrincipalRaws(principal) + TokenEmailRaws(email), TokenGroupsRaws(groups));
  }

  /** The generator and the token reader return the same list, in the same order. */
  lemma {:induction false} GeneratorMatchesToken(claims: Claims, principal: string, email: string, groups: seq<string>)
    requires SameIdentity(claims, principal, email, groups) && PlainIdentity(principal, email, groups)
    requires ClaimedTerms(claims) == []
    ensures TokenTerms(claims) == GeneratedTerms(principal, email, groups)
  {
    hide GeneratedRaws, IdentityRaws, Cleaned, FromKeys;
    IdentityAgrees(claims, principal, email, groups);
    assert ClaimedTerms(claims) + IdentityRaws(claims) == IdentityRaws(claims);
  }

  /** Both sides, given the same identity and nothing else, return the same list. */
  predicate Matches(principal: string, email: string, groups: seq<string>) {
    TokenTerms(Claims([], [], principal, "", "", email, groups)) == GeneratedTerms(principal, email, groups)
  }

  lemma {:induction false} PartsOf(principal: string, email: string, groups: seq<string>)
    ensures Matches(principal, email, groups) <==>
              Terms(TokenPrincipalRaws(principal) + TokenEmailRaws(email) + TokenGroupsRaws(groups))
              == Terms(PrincipalRaws(principal) + EmailRaws(email) + GroupsRaws(groups))
  {
    var raws := TokenPrincipalRaws(principal) + TokenEmailRaws(email) + TokenGroupsRaws(groups);
    hide Terms, TokenPrincipalRaws, TokenEmailRaws, TokenGroupsRaws, PrincipalRaws, EmailRaws, GroupsRaws;
    assert principal == "" ==> TokenPrincipal(Claims([], [], principal, "", "", email, groups)) == principal;
    assert [] + raws == raws;
  }

  lemma {:induction false} NoParts()
    ensures TokenPrincipalRaws("") == [] && TokenEmailRaws("") == [] && TokenGroupsRaws([]) == []
    ensures PrincipalRaws("") == [] && EmailRaws("") == [] && GroupsRaws([]) == []
  {
    BlankEmail();
    assert Strip("") == "";
  }

  lemma {:induction false} OneGroup(g: string)
    ensures TokenGroupsRaws([g]) == TokenGroupRaws(g) && GroupsRaws([g]) == GroupRaws(g)
  {
    hide TokenGroupRaws, GroupRaws;
    assert [g][..0] == [];
    assert TokenGroupsRaws([g][..0]) == [] && GroupsRaws([g][..0]) == [];
  }

  /** The lists match for an identity and for each part of it alone exactly when
      the identity is plain. */
  lemma {:induction false} MatchesInEveryPartIff(principal: string, email: string, groups: seq<string>)
    ensures Matches(principal, email, groups) && Matches(principal, "", []) && Matches("", email, [])
            && (forall g :: g in groups ==> Matches("", "", [g]))
       <==> PlainIdentity(principal, email, groups)
  {
    NoParts();
    PartsOf(principal, "", []);
    PartsOf("", email, []);
    PrincipalAgreesIff(principal);
    EmailAgreesIff(email);
    hide Terms, TokenPrincipalRaws, TokenEmailRaws, PrincipalRaws, EmailRaws, TokenGroupRaws, GroupRaws, TokenTerms,
         GeneratedTerms, LeadingSpace, PlainPrincipal, BlankButPresent, TokenGroupsRaws, GroupsRaws;
    assert TokenPrincipalRaws(principal) + [] + [] == TokenPrincipalRaws(principal);
    assert PrincipalRaws(principal) + [] + [] == PrincipalRaws(principal);
    assert [] + TokenEmailRaws(email) + [] == TokenEmailRaws(email);
    assert [] + EmailRaws(email) + [] == EmailRaws(email);
    forall g | g in groups ensures Matches("", "", [g]) <==> !LeadingSpace(g) {
      PartsOf("", "", [g]);
      OneGroup(g);
      GroupAgreesIff(g);
      assert [] + [] + TokenGroupRaws(g) == TokenGroupRaws(g) && [] + [] + GroupRaws(g) == GroupRaws(g);
    }
    if PlainIdentity(principal, email, groups) {
      GeneratorMatchesToken(Claims([], [], principal, "", "", email, groups), principal, email, groups);
    }
  }

  /** The whole list alone may match by accident: the email hides what a prefixed
      principal lacks. */
  lemma {:induction false} OnePartMasksAnother(p: string)
    requires Strip(p) == p && Lower(p) == p && StartsWith(p, USER_PREFIX)
    ensures !PlainPrincipal(p) && Matches(p, p, [])
  {
    hide Strip, Lower, StartsWith, Terms, Keeps, Matches, IsSpace, PlainPrincipal, TokenPrincipalRaws, TokenEmailRaws,
        PrincipalRaws, EmailRaws;
    var u := USER_PREFIX + p;
    MaskedRaws(p);
    MaskedTerms(p);
    NoParts();
    PartsOf(p, p, []);
    assert TokenPrincipalRaws(p) + TokenEmailRaws(p) + [] == [p, u, p, u];
    assert PrincipalRaws(p) + EmailRaws(p) + [] == [p, p, u];
    TermsOfRepeats(p, u);
  }

  lemma {:induction false} MaskedRaws(p: string)
    requires Strip(p) == p && Lower(p) == p && StartsWith(p, USER_PREFIX)
    ensures var u := USER_PREFIX + p;
            && TokenPrincipalRaws(p) == [p, u] && TokenEmailRaws(p) == [p, u]
            && PrincipalRaws(p) == [p] && EmailRaws(p) == [p, u]
    ensures !PlainPrincipal(p)
  {
    hide Strip, Lower, StartsWith, IsSpace, LeadingSpace;
    LongerThan(p, USER_PREFIX);
  }

  lemma {:induction false} LongerThan(s: string, a: string)
    requires StartsWith(s, a)
    ensures |s| >= |a|
  {
  }

  lemma {:induction false} MaskedTerms(p: string)
    requires Strip(p) == p && StartsWith(p, USER_PREFIX)
    ensures var u := USER_PREFIX + p; Strip(u) == u && u != p && Keeps(p) && Keeps(u)
  {
    hide Strip, StartsWith, Trimmed;
    StripIsTrimmed(p);
    PrefixedTrimmed(USER_PREFIX, p);
    LongerThan(p, USER_PREFIX);
  }

  lemma {:induction false} TermsOfRepeats(p: string, u: string)
    requires Strip(p) == p && Strip(u) == u && Keeps(p) && Keeps(u) && p != u
    ensures Terms([p, u, p, u]) == Terms([p, p, u])
  {
    hide Strip, Terms, Keeps;
    NoTerms();
    TermsStep([], p);
    TermsStep([p], u);
    TermsStep([p, u], p);
    TermsStep([p, u, p], u);
    TermsStep([p], p);
    TermsStep([p, p], u);
    assert [] + [p] == [p] && [p] + [u] == [p, u] && [p, u] + [p] == [p, u, p] && [p, u, p] + [u] == [p, u, p, u];
    assert [p] + [p] == [p, p] && [p, p] + [u] == [p, p, u];
  }

  /** With claimed terms, the token holds at least the generated ones. */
  lemma {:induction false} TokenHoldsGenerated(claims: Claims, principal: string, email: string, groups: seq<string>)
    requires SameIdentity(claims, principal, email, groups) && PlainIdentity(principal, email, groups)
    ensures forall t :: t in GeneratedTerms(principal, email, groups) ==> t in TokenTerms(claims)
  {
    IdentityAgrees(claims, principal, email, groups);
    CleanedConcat(ClaimedTerms(claims), IdentityRaws(claims));
  }

  // ---------------------------------------------------------------- merging

  function Flat(lists: seq<seq<string>>): seq<string> {
    if lists == [] then [] else Flat(lists[..|lists| - 1]) + lists[|lists| - 1]
  }

  /** `merge_acl_terms` */
  method MergeAclTerms(lists: seq<seq<string>>) returns (merged: seq<string>)
    ensures merged == Terms(Flat(lists))
  {
    hide Terms, ToSet;
    NoTerms();
    merged := [];
    var seen: set<string> := {};
    for i := 0 to |lists|
      invariant merged == Terms(Flat(lists[..i])) && seen == ToSet(merged)
    {
      ghost var before := Flat(lists[..i]);
      assert before + lists[i][..0] == before;
      for j := 0 to |lists[i]|
        invariant merged == Terms(before + lists[i][..j]) && seen == ToSet(merged)
      {
        merged, seen := Add(merged, seen, lists[i][j], before + lists[i][..j]);
        assert before + lists[i][..j] + [lists[i][j]] == before + lists[i][..j + 1];
      }
      assert lists[i][..|lists[i]|] == lists[i];
      assert lists[..i + 1][..i] == lists[..i];
    }
    assert lists[..|lists|] == lists;
  }

  /** Merging term lists joins their sets: terms survive a merge unchanged. */
  lemma {:induction false} MergedTerms(a: seq<string>, b: seq<string>)
    ensures forall t :: t in Terms(Flat([a, b])) <==> exists x :: (x in a || x in b) && Keeps(x) && t == Strip(x)
    ensures WellFormedTerms(a) ==> forall t :: t in a ==> t in Terms(Flat([a, b]))
    ensures WellFormedTerms(b) ==> forall t :: t in b ==> t in Terms(Flat([a, b]))
  {
    assert [a, b][..1] == [a] && [a][..0] == [];
    assert Flat([a][..0]) == [];
    assert Flat([a, b]) == [] + a + b == a + b;
    forall t ensures t in Terms(Flat([a, b])) <==> exists x :: (x in a || x in b) && Keeps(x) && t == Strip(x) {
      CleanedMember(a + b, t);
    }
    forall t | t != "" && t != WILDCARD && Trimmed(t) && (t in a || t in b) ensures t in Terms(Flat([a, b])) {
      StripOfTrimmed(t);
    }
  }
}
