/** The owner's search: a document indexed with its owner's generated terms
    (backend/app/workers/tasks.py, backend/app/services/indexer.py) against the
    terms of the owner's token. */
module OwnerSearch {
  import opened Prelude
  import opened TextOps
  import opened AclTerms
  import opened AclFilter

  /** Whatever a part of the identity contributes, some of it carries a prefix. */
  ghost predicate NoneOrPrefixed(raws: seq<string>) {
    raws == [] || exists r :: r in raws && Prefixed(r)
  }

  lemma {:induction false} Joined(a: seq<string>, b: seq<string>)
    requires NoneOrPrefixed(a) && NoneOrPrefixed(b)
    ensures NoneOrPrefixed(a + b)
  {
    hide Prefixed;
    if r :| r in a && Prefixed(r) {
      assert r in a + b;
    } else if r :| r in b && Prefixed(r) {
      assert r in a + b;
    }
  }

  lemma {:induction false} PartsPrefixed(value: string)
    ensures NoneOrPrefixed(PrincipalRaws(value)) && NoneOrPrefixed(EmailRaws(value)) && NoneOrPrefixed(GroupRaws(value))
  {
    var s, e := Strip(value), Lower(Strip(value));
    StripIsTrimmed(value);
    LowerKeepsTrimmed(s);
    PrefixThen(s);
    PrefixThen(e);
    hide Strip, Lower, Prefixed, StartsWith, Trimmed;
    var u, g, m := USER_PREFIX + s, GROUP_PREFIX + s, USER_PREFIX + e;
    assert s in [s] && u in [s, u] && g in [s, g] && m in [e, m];
  }

  lemma {:induction false} GroupsPrefixed(groups: seq<string>)
    ensures NoneOrPrefixed(GroupsRaws(groups))
  {
    hide NoneOrPrefixed, GroupRaws;
    if groups == [] {
      assert NoneOrPrefixed([]) by { PartsPrefixed(""); BlankParts(); }
    } else {
      GroupsPrefixed(groups[..|groups| - 1]);
      PartsPrefixed(groups[|groups| - 1]);
      Joined(GroupsRaws(groups[..|groups| - 1]), GroupRaws(groups[|groups| - 1]));
    }
  }

  lemma {:induction false} BlankParts()
    ensures PrincipalRaws("") == []
  {
  }

  /** Whatever the generator makes terms of, one of them is `user:` or `group:`
      something, hence no deny term. */
  lemma {:induction false} GeneratedAdmits(principal: string, email: string, groups: seq<string>)
    requires GeneratedTerms(principal, email, groups) != []
    ensures exists t :: t in GeneratedTerms(principal, email, groups) && Prefixed(t)
  {
    var raws := GeneratedRaws(principal, email, groups);
    assert Terms([]) == [];
    PartsPrefixed(principal);
    PartsPrefixed(email);
    GroupsPrefixed(groups);
    hide Terms, Prefixed, PrincipalRaws, EmailRaws, GroupsRaws;
    Joined(PrincipalRaws(principal), EmailRaws(email));
    Joined(PrincipalRaws(principal) + EmailRaws(email), GroupsRaws(groups));
    var r :| r in raws && Prefixed(r);
    PrefixedIsKept(raws, r);
  }

  lemma {:induction false} PrefixedIsKept(raws: seq<string>, r: string)
    requires r in raws && Prefixed(r)
    ensures r in Terms(raws)
  {
    StripOfTrimmed(r);
    CleanedMember(raws, r);
  }

  /** The owner's generated terms are among the extra terms. */
  predicate IndexedFor(principal: string, email: string, groups: seq<string>, extraAcl: seq<string>) {
    forall t :: t in GeneratedTerms(principal, email, groups) ==> t in extraAcl
  }

  /** The token sees the stored document unless a term denies it. */
  predicate SeenUnlessDenied(claims: Claims, permissions: seq<string>, extraAcl: seq<string>) {
    var caller, stored := TokenTerms(claims), IndexedTerms(permissions, extraAcl);
    DocumentIsVisible(caller, stored) <==> !Denied(caller, stored)
  }

  /** One term that both sides hold, no deny term, decides. */
  lemma {:induction false} SharedTermShows(claims: Claims, principal: string, email: string, groups: seq<string>,
                        permissions: seq<string>, extraAcl: seq<string>, t: string)
    requires IndexedFor(principal, email, groups, extraAcl)
    requires t in GeneratedTerms(principal, email, groups) && t in TokenTerms(claims) && !IsDenyTerm(t)
    ensures SeenUnlessDenied(claims, permissions, extraAcl)
  {
    var caller, stored := TokenTerms(claims), IndexedTerms(permissions, extraAcl);
    TermsWellFormed(GeneratedRaws(principal, email, groups));
    TermsWellFormed(ClaimedTerms(claims) + IdentityRaws(claims));
    IndexedMembers(permissions, extraAcl);
    StripOfTrimmed(t);
    assert t in caller && t in stored;
    hide Terms, Strip, TokenTerms, IndexedTerms, GeneratedTerms;
    VisibleMeaning(caller, stored);
  }

  lemma {:induction false} RawGivesTerms(claims: Claims, principal: string, email: string, groups: seq<string>,
                                         raw: string, other: string)
    requires raw in GeneratedRaws(principal, email, groups) && other in IdentityRaws(claims)
    requires Keeps(raw) && Strip(other) == Strip(raw)
    ensures Strip(raw) in GeneratedTerms(principal, email, groups) && Strip(raw) in TokenTerms(claims)
  {
    CleanedMember(GeneratedRaws(principal, email, groups), Strip(raw));
    CleanedMember(ClaimedTerms(claims) + IdentityRaws(claims), Strip(raw));
    hide Strip, GeneratedRaws, IdentityRaws, Cleaned;
    TermsMember(GeneratedRaws(principal, email, groups));
    TermsMember(ClaimedTerms(claims) + IdentityRaws(claims));
  }

  /** A principal under whose terms owner and token meet: present, unpadded and
      unprefixed, or at least with a bare form that is a term and no deny term. */
  predicate SharesPrincipal(principal: string) {
    || (principal != "" && PlainPrincipal(principal))
    || (Keeps(principal) && !IsDenyTerm(Strip(principal)))
  }

  /** A document indexed with its owner's generated terms, whatever else was
      merged in and whatever email or groups the generator was given, is visible
      to any token of the owner's principal unless a term denies it. */
  lemma {:induction false} OwnerSeesOwnDocument(claims: Claims, principal: string, email: string, groups: seq<string>,
                             permissions: seq<string>, extraAcl: seq<string>)
    requires TokenPrincipal(claims) == principal && SharesPrincipal(principal)
    requires IndexedFor(principal, email, groups, extraAcl)
    ensures SeenUnlessDenied(claims, permissions, extraAcl)
  {
    var raw, other := SharedPrincipalRaw(principal);
    PrincipalRawsAreIn(claims, principal, email, groups, raw, other);
    RawGivesTerms(claims, principal, email, groups, raw, other);
    SharedTermShows(claims, principal, email, groups, permissions, extraAcl, Strip(raw));
  }

  lemma {:induction false} PrincipalRawsAreIn(claims: Claims, principal: string, email: string, groups: seq<string>,
                                              raw: string, other: string)
    requires TokenPrincipal(claims) == principal
    requires raw in PrincipalRaws(principal) && other in TokenPrincipalRaws(principal)
    ensures raw in GeneratedRaws(principal, email, groups) && other in IdentityRaws(claims)
  {
    hide PrincipalRaws, TokenPrincipalRaws;
  }

  /** A prefixed strip is a term as it stands, and no deny term. */
  lemma {:induction false} PrefixedTermOf(prefix: string, x: string)
    requires prefix == USER_PREFIX || prefix == GROUP_PREFIX
    ensures Strip(prefix + Strip(x)) == prefix + Strip(x)
    ensures Keeps(prefix + Strip(x)) && !IsDenyTerm(prefix + Strip(x))
    ensures x != "" && !LeadingSpace(x) ==> Strip(x) != "" && Strip(prefix + x) == prefix + Strip(x)
  {
    hide Strip, Trimmed, IsSpace, Prefixed, StartsWith, LeadingSpace, IsDenyTerm;
    SolidPrefixes();
    StripIsTrimmed(x);
    PrefixedTrimmed(prefix, Strip(x));
    PrefixThen(Strip(x));
    PrefixedAdmits(prefix + Strip(x));
    if x != "" && !LeadingSpace(x) { NoLeadingSpace(prefix, x); }
  }

  lemma {:induction false} BareRaws(principal: string)
    requires Strip(principal) != ""
    ensures Strip(principal) in PrincipalRaws(principal) && principal in TokenPrincipalRaws(principal)
    ensures Strip(Strip(principal)) == Strip(principal)
  {
    StripTwice(principal);
    assert principal != "" by { assert Strip("") == ""; }
    var p := Strip(principal);
    InPair(p, USER_PREFIX + p);
    InPair(principal, USER_PREFIX + principal);
    hide Strip, StartsWith;
  }

  lemma {:induction false} SharedPrincipalRaw(principal: string) returns (raw: string, other: string)
    requires SharesPrincipal(principal)
    ensures raw in PrincipalRaws(principal) && other in TokenPrincipalRaws(principal)
    ensures Keeps(raw) && Strip(other) == Strip(raw) && !IsDenyTerm(Strip(raw))
  {
    var p := Strip(principal);
    hide Strip, IsSpace, StartsWith, LeadingSpace, IsDenyTerm, PrincipalRaws;
    if principal != "" && PlainPrincipal(principal) {
      raw, other := USER_PREFIX + p, USER_PREFIX + principal;
      PlainPrincipalRaws(principal);
      PrefixedTermOf(USER_PREFIX, principal);
      InPair(p, raw);
      InPair(principal, other);
    } else {
      raw, other := p, principal;
      BareRaws(principal);
    }
  }

  /** The same by an email both sides know, in whatever case or padding. */
  lemma {:induction false} OwnerSeesByEmail(claims: Claims, principal: string, email: string, groups: seq<string>,
                         permissions: seq<string>, extraAcl: seq<string>)
    requires Lower(Strip(claims.email)) == Lower(Strip(email)) != ""
    requires IndexedFor(principal, email, groups, extraAcl)
    ensures SeenUnlessDenied(claims, permissions, extraAcl)
  {
    var raw := SharedEmailRaw(email, claims.email);
    hide EmailRaws, TokenEmailRaws, Strip;
    assert raw in GeneratedRaws(principal, email, groups) && raw in IdentityRaws(claims);
    RawGivesTerms(claims, principal, email, groups, raw, raw);
    SharedTermShows(claims, principal, email, groups, permissions, extraAcl, Strip(raw));
  }

  lemma {:induction false} SharedEmailRaw(email: string, claimed: string) returns (raw: string)
    requires Lower(Strip(claimed)) == Lower(Strip(email)) != ""
    ensures raw in EmailRaws(email) && raw in TokenEmailRaws(claimed)
    ensures Keeps(raw) && !IsDenyTerm(Strip(raw))
  {
    hide Strip, Lower, IsSpace, IsDenyTerm, Keeps;
    var e := Lower(Strip(email));
    NormalEmailTrimmed(email);
    NormalEmailTrimmed("");
    PrefixedTermOf(USER_PREFIX, e);
    raw := USER_PREFIX + e;
    InPair(e, raw);
  }

  lemma {:induction false} NormalEmailTrimmed(email: string)
    ensures Strip(Lower(Strip(email))) == Lower(Strip(email))
    ensures Lower(Strip("")) == ""
  {
    StripIsTrimmed(email);
    LowerKeepsTrimmed(Strip(email));
    StripOfTrimmed(Lower(Strip(email)));
    assert Strip("") == "" && Lower("") == "";
  }

  /** And by one group both sides name, without a space in front. */
  lemma {:induction false} OwnerSeesByGroup(claims: Claims, principal: string, email: string, groups: seq<string>,
                         permissions: seq<string>, extraAcl: seq<string>, g: string)
    requires g in groups && g in claims.groups && g != "" && !LeadingSpace(g)
    requires IndexedFor(principal, email, groups, extraAcl)
    ensures SeenUnlessDenied(claims, permissions, extraAcl)
  {
    var raw, other := SharedGroupRaw(g);
    GroupRawIn(groups, g, raw);
    TokenGroupRawIn(claims.groups, g, other);
    hide GroupRaws, TokenGroupRaws, Strip;
    assert raw in GeneratedRaws(principal, email, groups) && other in IdentityRaws(claims);
    RawGivesTerms(claims, principal, email, groups, raw, other);
    SharedTermShows(claims, principal, email, groups, permissions, extraAcl, Strip(raw));
  }

  lemma {:induction false} SharedGroupRaw(g: string) returns (raw: string, other: string)
    requires g != "" && !LeadingSpace(g)
    ensures raw in GroupRaws(g) && other in TokenGroupRaws(g)
    ensures Keeps(raw) && Strip(other) == Strip(raw) && !IsDenyTerm(Strip(raw))
  {
    var s := Strip(g);
    StripTwice(g);
    StripIsTrimmed(g);
    PrefixSurvives(g, GROUP_PREFIX);
    PrefixedTermOf(GROUP_PREFIX, g);
    PrefixThen(s);
    if StartsWith(g, GROUP_PREFIX) { PrefixedAdmits(s); }
    hide Strip, IsSpace, Prefixed, StartsWith, LeadingSpace, IsDenyTerm;
    InPair(s, GROUP_PREFIX + s);
    InPair(g, GROUP_PREFIX + g);
    raw, other := if StartsWith(g, GROUP_PREFIX) then s else GROUP_PREFIX + s,
                  if StartsWith(g, GROUP_PREFIX) then g else GROUP_PREFIX + g;
  }

  lemma {:induction false} GroupRawIn(groups: seq<string>, g: string, raw: string)
    requires g in groups && raw in GroupRaws(g)
    ensures raw in GroupsRaws(groups)
  {
    hide GroupRaws;
    if g != groups[|groups| - 1] {
      GroupRawIn(groups[..|groups| - 1], g, raw);
    }
  }

  lemma {:induction false} TokenGroupRawIn(groups: seq<string>, g: string, raw: string)
    requires g in groups && raw in TokenGroupRaws(g)
    ensures raw in TokenGroupsRaws(groups)
  {
    hide TokenGroupRaws;
    if g != groups[|groups| - 1] {
      TokenGroupRawIn(groups[..|groups| - 1], g, raw);
    }
  }

  /** And, whichever it is they share, by an identity both sides spell alike. */
  lemma {:induction false} OwnerSeesByIdentity(claims: Claims, principal: string, email: string, groups: seq<string>,
                            permissions: seq<string>, extraAcl: seq<string>)
    requires SameIdentity(claims, principal, email, groups) && PlainIdentity(principal, email, groups)
    requires GeneratedTerms(principal, email, groups) != []
    requires IndexedFor(principal, email, groups, extraAcl)
    ensures SeenUnlessDenied(claims, permissions, extraAcl)
  {
    GeneratedAdmits(principal, email, groups);
    TokenHoldsGenerated(claims, principal, email, groups);
    var t :| t in GeneratedTerms(principal, email, groups) && Prefixed(t);
    PrefixedAdmits(t);
    SharedTermShows(claims, principal, email, groups, permissions, extraAcl, t);
  }

  // ---------------------------------------------------------------- when a principal is not enough

  ghost predicate AlwaysSeen(principal: string) {
    forall claims, email, groups, permissions, extraAcl ::
      TokenPrincipal(claims) == principal && IndexedFor(principal, email, groups, extraAcl) ==>
        SeenUnlessDenied(claims, permissions, extraAcl)
  }

  function OnlyPrincipal(principal: string): Claims {
    Claims([], [], principal, "", "", "", [])
  }

  /** Otherwise the principal is blank or starts with a space, and what is stored
      is its bare form, if that is a deny term, and the prefixed one. */
  lemma {:induction false} StrangerStored(principal: string)
    requires !SharesPrincipal(principal)
    ensures forall x :: x in IndexedTerms([], GeneratedTerms(principal, "", [])) ==>
              && LeadingSpace(principal) && Strip(principal) != ""
              && ((x == Strip(principal) && IsDenyTerm(x)) || x == USER_PREFIX + Strip(principal))
  {
    hide Strip, IsSpace, LeadingSpace, Terms, IndexedTerms, SharesPrincipal, IsDenyTerm, Keeps, Prefixed;
    var extraAcl := GeneratedTerms(principal, "", []);
    IndexedMembers([], extraAcl);
    StrangerGenerated(principal);
    forall x | x in IndexedTerms([], extraAcl)
      ensures LeadingSpace(principal) && Strip(principal) != ""
      ensures (x == Strip(principal) && IsDenyTerm(x)) || x == USER_PREFIX + Strip(principal)
    {
      var y :| y in extraAcl && Keeps(y) && x == Strip(y);
    }
  }

  lemma {:induction false} StrangerGenerated(principal: string)
    requires !SharesPrincipal(principal)
    ensures forall y :: y in GeneratedTerms(principal, "", []) ==>
              && Strip(y) == y && LeadingSpace(principal) && Strip(principal) != ""
              && ((y == Strip(principal) && IsDenyTerm(y)) || y == USER_PREFIX + Strip(principal))
  {
    hide Strip, IsSpace, LeadingSpace, Terms, SharesPrincipal, IsDenyTerm;
    var p, raws := Strip(principal), PrincipalRaws(principal);
    OnlyPrincipalRaws(principal);
    TermsMember(raws);
    forall y | y in Terms(raws)
      ensures Strip(y) == y && LeadingSpace(principal) && p != ""
      ensures (y == p && IsDenyTerm(y)) || y == USER_PREFIX + p
    {
      CleanedMember(raws, y);
      StripTwice(principal);
      PrefixedTermOf(USER_PREFIX, principal);
      if p != "" { StrangerIsPadded(principal); }
    }
  }

  lemma {:induction false} OnlyPrincipalRaws(principal: string)
    ensures GeneratedRaws(principal, "", []) == PrincipalRaws(principal)
    ensures IdentityRaws(OnlyPrincipal(principal)) == TokenPrincipalRaws(principal)
  {
    NormalEmailTrimmed("");
    hide PrincipalRaws, TokenPrincipalRaws, Lower, Strip;
  }

  lemma {:induction false} StrangerIsPadded(principal: string)
    requires !SharesPrincipal(principal) && Strip(principal) != ""
    ensures LeadingSpace(principal) && (Strip(principal) == WILDCARD || IsDenyTerm(Strip(principal)))
  {
    PrefixSurvives(principal, USER_PREFIX);
    PrefixSurvives(principal, GROUP_PREFIX);
    assert Strip("") == "";
    hide Strip, IsSpace;
  }

  /** And what the token holds is the bare form and a longer, padded one. */
  lemma {:induction false} StrangerCaller(principal: string)
    requires LeadingSpace(principal) && Strip(principal) != ""
    ensures |Strip(USER_PREFIX + principal)| > |USER_PREFIX + Strip(principal)|
    ensures forall x :: x in TokenTerms(OnlyPrincipal(principal)) ==>
        x == Strip(principal) || x == Strip(USER_PREFIX + principal)
  {
    LeadingSpaceStays(USER_PREFIX, principal);
    hide Strip, IsSpace, TokenTerms;
    OnlyPrincipalTerms(principal);
  }

  lemma {:induction false} OnlyPrincipalTerms(principal: string)
    ensures forall x :: x in TokenTerms(OnlyPrincipal(principal)) ==>
        x == Strip(principal) || x == Strip(USER_PREFIX + principal)
  {
    var raws := TokenPrincipalRaws(principal);
    OnlyPrincipalRaws(principal);
    assert ClaimedTerms(OnlyPrincipal(principal)) + raws == raws;
    TermsMember(raws);
    hide Strip, Terms, IdentityRaws, OnlyPrincipal, Cleaned, Keeps, TokenPrincipalRaws;
    forall x | x in Terms(raws) ensures x == Strip(principal) || x == Strip(USER_PREFIX + principal) {
      CleanedMember(raws, x);
      var y :| y in raws && Keeps(y) && x == Strip(y);
      InTokenPrincipalRaws(principal, y);
    }
  }

  lemma {:induction false} InTokenPrincipalRaws(principal: string, y: string)
    requires y in TokenPrincipalRaws(principal)
    ensures y == principal || y == USER_PREFIX + principal
  {
  }

  /** Then nothing admits and nothing denies: the owner does not see the document. */
  lemma {:induction false} StrangerToOwnDocument(principal: string)
    requires !SharesPrincipal(principal)
    ensures !SeenUnlessDenied(OnlyPrincipal(principal), [], GeneratedTerms(principal, "", []))
  {
    hide Strip, TokenTerms, IndexedTerms, GeneratedTerms, SharesPrincipal, LeadingSpace, IsDenyTerm;
    var caller, stored := TokenTerms(OnlyPrincipal(principal)), IndexedTerms([], GeneratedTerms(principal, "", []));
    var s, t := Strip(principal), Strip(USER_PREFIX + principal);
    StrangerStored(principal);
    if LeadingSpace(principal) && s != "" {
      StrangerCaller(principal);
    }
    TokenHasNoWildcard(OnlyPrincipal(principal));
    forall x | x in stored ensures (IsDenyTerm(x) || x !in caller) && x !in DenyTermsFor(caller) {
      if c :| c in caller && x == DENY_PREFIX + c {
        DenyIsNoUser(c, s);
      }
    }
    if !FailClosed(caller) {
      VisibleMeaning(caller, stored);
    }
  }

  lemma {:induction false} DenyIsNoUser(c: string, s: string)
    ensures DENY_PREFIX + c != USER_PREFIX + s
  {
    assert (DENY_PREFIX + c)[0] == 'd' && (USER_PREFIX + s)[0] == 'u';
  }

  lemma {:induction false} TokenHasNoWildcard(claims: Claims)
    ensures !Bypass(TokenTerms(claims))
  {
    TermsWellFormed(ClaimedTerms(claims) + IdentityRaws(claims));
  }

  /** A principal is enough for the owner to see all their documents exactly when
      its terms meet. */
  lemma {:induction false} PrincipalIsEnoughIff(principal: string)
    ensures AlwaysSeen(principal) <==> SharesPrincipal(principal)
  {
    if SharesPrincipal(principal) {
      forall claims, email, groups, permissions, extraAcl
        | TokenPrincipal(claims) == principal && IndexedFor(principal, email, groups, extraAcl)
        ensures SeenUnlessDenied(claims, permissions, extraAcl)
      {
        OwnerSeesOwnDocument(claims, principal, email, groups, permissions, extraAcl);
      }
    } else {
      var claims, extraAcl := OnlyPrincipal(principal), GeneratedTerms(principal, "", []);
      StrangerToOwnDocument(principal);
      hide SeenUnlessDenied, GeneratedTerms, SharesPrincipal;
      assert TokenPrincipal(claims) == principal;
      assert IndexedFor(principal, "", [], extraAcl);
    }
  }
}
