/** Who sees which indexed document (backend/app/acl/filter.py): the in-process
    decision `document_is_visible`, the OpenSearch clause that must decide
    alike, and the terms documents are stored with
    (backend/app/services/indexer.py). */
module AclFilter {
  import opened Prelude
  import opened TextOps
  import opened AclTerms

  const DENY_PREFIX := "deny:"

  predicate FailClosed(userAcl: seq<string>) {
    forall t :: t in userAcl ==> t == ""
  }

  predicate Bypass(userAcl: seq<string>) {
    WILDCARD in userAcl
  }

  /** `deny_terms_for` */
  function DenyTermsFor(userAcl: seq<string>): (r: seq<string>)
    ensures forall d :: d in r <==> exists t :: t in userAcl && t != "" && t != WILDCARD && d == DENY_PREFIX + t
  {
    if userAcl == [] then []
    else
      var t := userAcl[0];
      assert userAcl == [t] + userAcl[1..];
      (if t != "" && t != WILDCARD then [DENY_PREFIX + t] else []) + DenyTermsFor(userAcl[1..])
  }

  predicate IsDenyTerm(t: string) {
    StartsWith(t, DENY_PREFIX)
  }

  /** A document term that denies this caller. */
  predicate Denied(userAcl: seq<string>, docAcl: seq<string>) {
    exists t :: t in docAcl && t in DenyTermsFor(userAcl)
  }

  /** A document term that admits this caller. */
  predicate Admitted(userAcl: seq<string>, docAcl: seq<string>) {
    exists t :: t in docAcl && t != "" && !IsDenyTerm(t) && t in userAcl
  }

  function NonBlank(terms: seq<string>): (r: seq<string>)
    ensures forall t :: t in r <==> t in terms && t != ""
  {
    if terms == [] then []
    else
      assert terms == [terms[0]] + terms[1..];
      (if terms[0] != "" then [terms[0]] else []) + NonBlank(terms[1..])
  }

  /** `document_is_visible` */
  predicate DocumentIsVisible(userAcl: seq<string>, docAcl: seq<string>) {
    if FailClosed(userAcl) then false
    else if Bypass(userAcl) then true
    else
      var terms := NonBlank(docAcl);
      if terms == [] then false
      else if Denied(userAcl, terms) then false
      else exists t :: t in terms && !IsDenyTerm(t) && t in userAcl
  }

  /** Deny wins, and no allow term means no access. */
  lemma {:induction false} VisibleMeaning(userAcl: seq<string>, docAcl: seq<string>)
    requires !FailClosed(userAcl) && !Bypass(userAcl)
    ensures DocumentIsVisible(userAcl, docAcl) <==> Admitted(userAcl, docAcl) && !Denied(userAcl, docAcl)
  {
    var terms := NonBlank(docAcl);
    if t :| t in docAcl && t in DenyTermsFor(userAcl) {
      assert t in terms;
    }
    if t :| t in docAcl && t != "" && !IsDenyTerm(t) && t in userAcl {
      assert t in terms;
    }
  }

  /** The caller has a term, and a term of the document admits the caller while
      none denies one of the caller's terms; or the caller holds "*". */
  lemma {:induction false} VisibleSpelled(userAcl: seq<string>, docAcl: seq<string>)
    ensures DocumentIsVisible(userAcl, docAcl) <==>
        || "*" in userAcl
        || (&& (exists t :: t in docAcl && t != "" && !("deny:" <= t) && t in userAcl)
            && !(exists t :: t in userAcl && t != "" && "deny:" + t in docAcl))
  {
    if !FailClosed(userAcl) && !Bypass(userAcl) {
      VisibleMeaning(userAcl, docAcl);
      hide DocumentIsVisible;
      if t :| t in userAcl && t != "" && "deny:" + t in docAcl {
        assert t != WILDCARD && DENY_PREFIX + t in DenyTermsFor(userAcl);
      }
    }
  }

  // ---------------------------------------------------------------- OpenSearch

  /** `Refused` is the ValueError of a caller without terms, `Everything` the
      missing clause of the wildcard. */
  datatype Clause = Refused | Everything | Bool(must: seq<string>, mustNot: seq<string>)

  /** `opensearch_acl_clause` */
  function OpensearchAclClause(userAcl: seq<string>): Clause {
    if FailClosed(userAcl) then Refused
    else if Bypass(userAcl) then Everything
    else Bool(userAcl, DenyTermsFor(userAcl))
  }

  /** A `terms` query: the field shares a value with the list. */
  predicate TermsQuery(values: seq<string>, field: seq<string>) {
    exists t :: t in field && t in values
  }

  predicate Accepts(clause: Clause, docAcl: seq<string>) {
    match clause
    case Refused => false
    case Everything => true
    case Bool(must, mustNot) => TermsQuery(must, docAcl) && !TermsQuery(mustNot, docAcl)
  }

  /** What the clause accepts: a field that shares a term with the caller and
      holds none of the caller's terms behind "deny:". */
  lemma {:induction false} ClauseSpelled(userAcl: seq<string>, docAcl: seq<string>)
    ensures Accepts(OpensearchAclClause(userAcl), docAcl) <==>
        || "*" in userAcl
        || (&& (exists t :: t in userAcl && t != "")
            && (exists t :: t in docAcl && t in userAcl)
            && !(exists t :: t in userAcl && t != "" && "deny:" + t in docAcl))
  {
    if !FailClosed(userAcl) && !Bypass(userAcl) {
      if t :| t in userAcl && t != "" && "deny:" + t in docAcl {
        assert t != WILDCARD && DENY_PREFIX + t in DenyTermsFor(userAcl);
      }
    }
  }

  /** The caller's terms leave the two deciders nothing to differ on: no blank
      term, and no deny term save one that also denies the caller. */
  predicate CleanCaller(userAcl: seq<string>) {
    forall t :: t in userAcl ==> t != "" && (IsDenyTerm(t) ==> t in DenyTermsFor(userAcl))
  }

  /** The search clause and the in-process decision agree on every document
      exactly when the caller is refused, is the wildcard, or is clean. */
  lemma {:induction false} DecidersAgreeIff(userAcl: seq<string>)
    ensures (forall docAcl :: Accepts(OpensearchAclClause(userAcl), docAcl) == DocumentIsVisible(userAcl, docAcl))
       <==> FailClosed(userAcl) || Bypass(userAcl) || CleanCaller(userAcl)
  {
    if !FailClosed(userAcl) && !Bypass(userAcl) {
      if CleanCaller(userAcl) {
        forall docAcl ensures Accepts(OpensearchAclClause(userAcl), docAcl) == DocumentIsVisible(userAcl, docAcl) {
          CleanCallerAgrees(userAcl, docAcl);
        }
      } else {
        var t :| t in userAcl && (t == "" || (IsDenyTerm(t) && t !in DenyTermsFor(userAcl)));
        StrayTermDisagrees(userAcl, t);
      }
    }
  }

  lemma {:induction false} CleanCallerAgrees(userAcl: seq<string>, docAcl: seq<string>)
    requires !FailClosed(userAcl) && !Bypass(userAcl) && CleanCaller(userAcl)
    ensures Accepts(OpensearchAclClause(userAcl), docAcl) == DocumentIsVisible(userAcl, docAcl)
  {
    VisibleMeaning(userAcl, docAcl);
    if t :| t in docAcl && t in userAcl {
      assert IsDenyTerm(t) ==> t in DenyTermsFor(userAcl);
    }
  }

  /** The document that carries only the stray term tells the deciders apart. */
  lemma {:induction false} StrayTermDisagrees(userAcl: seq<string>, t: string)
    requires !FailClosed(userAcl) && !Bypass(userAcl)
    requires t in userAcl && (t == "" || (IsDenyTerm(t) && t !in DenyTermsFor(userAcl)))
    ensures Accepts(OpensearchAclClause(userAcl), [t]) && !DocumentIsVisible(userAcl, [t])
  {
    VisibleMeaning(userAcl, [t]);
    assert t in [t];
    assert t !in DenyTermsFor(userAcl);
  }

  // ---------------------------------------------------------------- what is stored

  /** The terms `bulk_index` and `_fanout_search_pipeline` store: the
      permissions and the owner's terms joined, then merged with them again. */
  function IndexedTerms(permissions: seq<string>, extraAcl: seq<string>): seq<string> {
    Terms(Flat([FromKeys(permissions + extraAcl), extraAcl]))
  }

  lemma {:induction false} IndexedMembers(permissions: seq<string>, extraAcl: seq<string>)
    ensures WellFormedTerms(IndexedTerms(permissions, extraAcl))
    ensures WellFormedTerms(extraAcl) ==> forall t :: t in extraAcl ==> t in IndexedTerms(permissions, extraAcl)
    ensures forall t :: t in IndexedTerms(permissions, extraAcl)
                   <==> exists x :: (x in permissions || x in extraAcl) && Keeps(x) && t == Strip(x)
  {
    var joined := FromKeys(permissions + extraAcl);
    MergedTerms(joined, extraAcl);
    TermsWellFormed(Flat([joined, extraAcl]));
    assert forall x :: x in joined <==> x in permissions || x in extraAcl;
    hide FromKeys, Terms, Keeps, Strip;
  }

  predicate Prefixed(raw: string) {
    (StartsWith(raw, USER_PREFIX) || StartsWith(raw, GROUP_PREFIX)) && Trimmed(raw)
  }

  lemma {:induction false} PrefixThen(s: string)
    requires Trimmed(s)
    ensures Prefixed(USER_PREFIX + s) && Prefixed(GROUP_PREFIX + s)
    ensures StartsWith(s, USER_PREFIX) || StartsWith(s, GROUP_PREFIX) ==> Prefixed(s)
  {
  }

  lemma {:induction false} PrefixedAdmits(t: string)
    requires Prefixed(t)
    ensures t != "" && !IsDenyTerm(t) && t != WILDCARD
  {
    assert t[0] != 'd';
  }
}
