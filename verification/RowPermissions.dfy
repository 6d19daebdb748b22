/** Permission strings made from ACL rows (backend/app/services/pipeline.py)
    against the canonical permission check. */
module RowPermissions {
  import opened Prelude
  import opened Models
  import opened TextOps
  import opened AclTerms
  import opened AclFilter
  import P = PendingShares

  /** The canonical text of a UUID: hexadecimal digits and dashes. */
  predicate UuidText(s: string) {
    s != "" && forall i :: 0 <= i < |s| ==> '0' <= s[i] <= '9' || 'a' <= s[i] <= 'f' || s[i] == '-'
  }

  function PermissionOf(e: AclEntry): seq<string> {
    if e.principalId.Some? && e.principalId.value != "" then [USER_PREFIX + e.principalId.value]
    else if e.groupId.Some? && e.groupId.value != "" then [GROUP_PREFIX + e.groupId.value]
    else []
  }

  function PermissionList(rows: seq<AclEntry>): seq<string> {
    if rows == [] then [] else PermissionList(rows[..|rows| - 1]) + PermissionOf(rows[|rows| - 1])
  }

  /** The permission strings of `_build_unified_document`: allow and deny rows
      alike, without repeats, in whatever order the set gives them up. */
  method BuildPermissions(aclEntries: seq<AclEntry>) returns (permissions: seq<string>)
    ensures Distinct(permissions)
    ensures forall t :: t in permissions <==> t in PermissionList(aclEntries)
  {
    var all: seq<string> := [];
    for i := 0 to |aclEntries|
      invariant all == PermissionList(aclEntries[..i])
    {
      var entry := aclEntries[i];
      assert aclEntries[..i + 1][..i] == aclEntries[..i];
      if entry.principalId.Some? && entry.principalId.value != "" {
        all := all + [USER_PREFIX + entry.principalId.value];
      } else if entry.groupId.Some? && entry.groupId.value != "" {
        all := all + [GROUP_PREFIX + entry.groupId.value];
      }
    }
    assert aclEntries[..|aclEntries|] == aclEntries;
    permissions := [];
    var rest := ToSet(all);
    while rest != {}
      invariant Distinct(permissions) && ToSet(permissions) !! rest
      invariant ToSet(permissions) + rest == ToSet(all)
    {
      var t :| t in rest;
      rest := rest - {t};
      permissions := permissions + [t];
      assert ToSet(permissions) == ToSet(permissions[..|permissions| - 1]) + {t};
    }
    forall t ensures t in permissions <==> t in all {
      assert t in ToSet(permissions) <==> t in ToSet(all);
    }
  }

  lemma {:induction false} PermissionMember(rows: seq<AclEntry>, t: string)
    ensures t in PermissionList(rows) <==> exists e :: e in rows && t in PermissionOf(e)
  {
    if rows != [] {
      PermissionMember(rows[..|rows| - 1], t);
      assert rows == rows[..|rows| - 1] + [rows[|rows| - 1]];
    }
  }

  /** Rows as the repository of one tenant holds them. */
  ghost predicate TenantRows(rows: seq<AclEntry>, tenant: Uuid) {
    forall e :: e in rows ==>
      && e.tenantId == tenant
      && (e.principalId.Some? ==> UuidText(e.principalId.value))
      && (e.groupId.Some? ==> UuidText(e.groupId.value))
  }

  lemma {:induction false} PrefixedIsNoUuid(t: string)
    requires Prefixed(t)
    ensures !UuidText(t)
  {
    assert t[0] == 'u' || t[0] == 'g';
    hide Trimmed;
  }

  lemma {:induction false} PrefixedIsStored(t: string)
    requires Prefixed(t)
    ensures Keeps(t) && Strip(t) == t && !IsDenyTerm(t) && !UuidText(t)
  {
    PrefixedAdmits(t);
    PrefixedIsNoUuid(t);
    StripOfTrimmed(t);
    hide Strip, Trimmed, UuidText, StartsWith;
  }

  lemma {:induction false} NoWildcard(p: Uuid)
    requires UuidText(p)
    ensures p != WILDCARD && USER_PREFIX + p != WILDCARD
  {
    assert p[0] != '*' && (USER_PREFIX + p)[0] == 'u';
  }

  lemma {:induction false} UserTermsDiffer(id: Uuid, p: Uuid)
    ensures USER_PREFIX + id == USER_PREFIX + p ==> id == p
    ensures GROUP_PREFIX + id != USER_PREFIX + p
  {
    assert (GROUP_PREFIX + id)[0] == 'g' && (USER_PREFIX + p)[0] == 'u';
    assert (USER_PREFIX + id)[5..] == id && (USER_PREFIX + p)[5..] == p;
  }

  lemma {:induction false} RowPermission(rows: seq<AclEntry>, tenant: Uuid, p: Uuid, t: string)
    requires TenantRows(rows, tenant) && t in PermissionList(rows)
    ensures Prefixed(t)
    ensures t == USER_PREFIX + p ==> exists e :: e in rows && e.principalId == Some(p)
  {
    PermissionMember(rows, t);
    var e :| e in rows && t in PermissionOf(e);
    var id := if e.principalId.Some? && e.principalId.value != "" then e.principalId.value else e.groupId.value;
    UserTermsDiffer(id, p);
    assert Trimmed(id);
    PrefixThen(id);
    hide Prefixed, Trimmed, UuidText;
  }

  lemma {:induction false} StoredPermissions(permissions: seq<string>)
    requires forall t :: t in permissions ==> Prefixed(t)
    ensures forall t :: t in IndexedTerms(permissions, []) <==> t in permissions
  {
    var stored := IndexedTerms(permissions, []);
    IndexedMembers(permissions, []);
    hide IndexedTerms, Prefixed, Strip;
    forall t ensures t in stored <==> t in permissions {
      if t in permissions { PrefixedIsStored(t); }
      if x :| x in permissions && Keeps(x) && t == Strip(x) { PrefixedIsStored(x); }
    }
  }

  lemma {:induction false} OwnRowPermission(rows: seq<AclEntry>, e: AclEntry, p: Uuid)
    requires e in rows && e.principalId == Some(p) && p != ""
    ensures USER_PREFIX + p in PermissionList(rows)
  {
    PermissionMember(rows, USER_PREFIX + p);
  }

  /** A caller who holds p and user:p sees the document exactly when some row,
      allow or deny, names p. */
  lemma {:induction false} RowsMakeVisible(rows: seq<AclEntry>, permissions: seq<string>, tenant: Uuid, p: Uuid)
    requires TenantRows(rows, tenant) && UuidText(p)
    requires forall t :: t in permissions <==> t in PermissionList(rows)
    ensures DocumentIsVisible([p, USER_PREFIX + p], IndexedTerms(permissions, []))
       <==> exists e :: e in rows && e.principalId == Some(p)
  {
    var caller, stored := [p, USER_PREFIX + p], IndexedTerms(permissions, []);
    forall t | t in permissions ensures Prefixed(t) && !IsDenyTerm(t) && t != p {
      RowPermission(rows, tenant, p, t);
      PrefixedIsStored(t);
    }
    StoredPermissions(permissions);
    NoWildcard(p);
    assert caller[0] in caller && caller[1] in caller;
    hide IndexedTerms, Prefixed, UuidText;
    assert Denied(caller, stored) ==> exists t :: t in stored && IsDenyTerm(t);
    VisibleMeaning(caller, stored);
    if e :| e in rows && e.principalId == Some(p) {
      OwnRowPermission(rows, e, p);
      assert USER_PREFIX + p in stored;
    }
    if t :| t in stored && t in caller {
      RowPermission(rows, tenant, p, t);
    }
  }

  /** The permissions built from the rows under one id decide as
      `principal_can_read_document` does for another exactly when: with a row of
      the principal, allow or deny, under the first, no alias of the second has a
      deny row of it and some alias, such as the first id, an allow row; without
      one, some alias has a deny row or none an allow row. */
  lemma {:induction false} PermissionsDecideAlikeIff(acl: P.AclTable, tenant: Uuid, p: Uuid, rowsId: string,
                                                     documentId: string,
                                  permissions: seq<string>)
    requires TenantRows(P.Rows(acl, rowsId), tenant) && UuidText(p)
    requires forall t :: t in permissions <==> t in PermissionList(P.Rows(acl, rowsId))
    ensures (DocumentIsVisible([p, USER_PREFIX + p], IndexedTerms(permissions, [])) <==>
        P.CanRead(acl, tenant, p, documentId))
       <==> if P.Mentions(acl, tenant, p, rowsId) then
              && !P.HasRow(acl, tenant, p, documentId, true)
              && (rowsId in P.Aliases(documentId) || P.HasRow(acl, tenant, p, documentId, false))
            else P.HasRow(acl, tenant, p, documentId, true) || !P.HasRow(acl, tenant, p, documentId, false)
  {
    var rows := P.Rows(acl, rowsId);
    RowsMakeVisible(rows, permissions, tenant, p);
    hide IndexedTerms, DocumentIsVisible, P.Aliases;
    if e :| e in rows && e.principalId == Some(p) {
      assert P.RowFor(e, tenant, p, e.isDeny);
    }
  }

  /** The pipeline stores the rows under the source type and the source's id, and
      sends the document out under the latter alone: each is an alias of the other. */
  lemma {:induction false} StoredIdIsAlias(sourceId: string, prefix: string)
    requires prefix == P.DRIVE_PREFIX || prefix == P.GMAIL_PREFIX
    requires sourceId != "" && Trimmed(sourceId)
    requires !StartsWith(sourceId, P.DRIVE_PREFIX) && !StartsWith(sourceId, P.GMAIL_PREFIX)
    ensures prefix + sourceId in P.Aliases(sourceId) && sourceId in P.Aliases(prefix + sourceId)
  {
    hide Strip, IsSpace, StartsWith, Trimmed, P.Aliases, P.PrefixAlias;
    StoredIdTrimmed(sourceId, prefix);
    AliasForth(sourceId, prefix);
    AliasBack(sourceId, prefix);
    InPair(prefix + sourceId, sourceId);
    InPair(sourceId, sourceId);
    InAliases(sourceId, prefix, prefix + sourceId);
    InAliases(prefix + sourceId, prefix, sourceId);
  }

  lemma {:induction false} StoredIdTrimmed(sourceId: string, prefix: string)
    requires prefix == P.DRIVE_PREFIX || prefix == P.GMAIL_PREFIX
    requires sourceId != "" && Trimmed(sourceId)
    ensures Strip(sourceId) == sourceId && Strip(prefix + sourceId) == prefix + sourceId && prefix + sourceId != ""
  {
    StripOfTrimmed(sourceId);
    assert !IsSpace(prefix[0]) && !IsSpace(prefix[|prefix| - 1]);
    PrefixedTrimmed(prefix, sourceId);
  }

  lemma {:induction false} AliasForth(sourceId: string, prefix: string)
    requires prefix == P.DRIVE_PREFIX || prefix == P.GMAIL_PREFIX
    requires !StartsWith(sourceId, P.DRIVE_PREFIX) && !StartsWith(sourceId, P.GMAIL_PREFIX)
    ensures P.PrefixAlias(sourceId, prefix) == [prefix + sourceId]
  {
    hide StartsWith;
  }

  lemma {:induction false} AliasBack(sourceId: string, prefix: string)
    requires sourceId != ""
    ensures P.PrefixAlias(prefix + sourceId, prefix) == [sourceId]
  {
    assert StartsWith(prefix + sourceId, prefix) && (prefix + sourceId)[|prefix|..] == sourceId;
    hide StartsWith;
  }

  lemma {:induction false} InAliases(raw: string, prefix: string, alias: string)
    requires prefix == P.DRIVE_PREFIX || prefix == P.GMAIL_PREFIX
    requires Strip(raw) == raw != "" && alias in P.PrefixAlias(raw, prefix)
    ensures alias in P.Aliases(raw)
  {
    hide Strip, P.PrefixAlias;
  }
}
