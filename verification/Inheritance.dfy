/** `compute_inherited_entries` (backend/app/acl/inheritance.py): grants a
    document takes from the folders above it, a deny on a folder at the same
    distance or nearer suppressing the allow of the same identity. */
module Inheritance {
  import opened Prelude
  import opened Models
  import opened CanonicalRepo
  import opened ContainerService
  import opened AncestorWalk

  type ContainerAcl = map<ContainerKey, seq<ContainerAclEntry>>

  /** The dict key ("principal" | "group", id). */
  datatype Identity = PrincipalKey(id: Uuid) | GroupKey(id: Uuid)

  function IdentityOf(perm: ContainerAclEntry): Option<Identity> {
    if perm.principalId.Some? then Some(PrincipalKey(perm.principalId.value))
    else if perm.groupId.Some? then Some(GroupKey(perm.groupId.value))
    else None
  }

  function RowsOf(acl: ContainerAcl, tenant: Uuid, c: string): seq<ContainerAclEntry> {
    if (c, tenant) in acl then acl[(c, tenant)] else []
  }

  // ---------------------------------------------------------------- what the loops see

  /** A permission row met `distance` folders above the document's parent. */
  datatype Sighting = Sighting(distance: nat, containerId: string, perm: ContainerAclEntry)

  predicate AllowsFor(s: Sighting, k: Identity) {
    IdentityOf(s.perm) == Some(k) && !s.perm.isDeny
  }

  predicate DeniesFor(s: Sighting, k: Identity) {
    IdentityOf(s.perm) == Some(k) && s.perm.isDeny
  }

  function RowSightings(d: nat, c: string, rows: seq<ContainerAclEntry>): (r: seq<Sighting>)
    ensures |r| == |rows|
    ensures forall i :: 0 <= i < |rows| ==> r[i] == Sighting(d, c, rows[i])
  {
    seq(|rows|, i requires 0 <= i < |rows| => Sighting(d, c, rows[i]))
  }

  /** The rows of the first n containers of a chain, nearest first. */
  function ChainSightings(acl: ContainerAcl, tenant: Uuid, chain: seq<string>, n: nat): seq<Sighting>
    requires n <= |chain|
  {
    if n == 0 then []
    else ChainSightings(acl, tenant, chain, n - 1)
         + RowSightings(n - 1, chain[n - 1], RowsOf(acl, tenant, chain[n - 1]))
  }

  function AllSightings(acl: ContainerAcl, tenant: Uuid, chains: seq<seq<string>>): seq<Sighting> {
    if chains == [] then []
    else
      var last := chains[|chains| - 1];
      AllSightings(acl, tenant, chains[..|chains| - 1]) + ChainSightings(acl, tenant, last, |last|)
  }

  // ---------------------------------------------------------------- the fold

  /** The smallest distance of a deny for k. */
  function NearestDeny(s: seq<Sighting>, k: Identity): Option<nat> {
    if s == [] then None
    else
      var before := NearestDeny(s[..|s| - 1], k);
      var last := s[|s| - 1];
      if DeniesFor(last, k) && (before.None? || last.distance < before.value) then Some(last.distance)
      else before
  }

  /** The earliest of the allows for k of smallest distance. */
  function NearestAllow(s: seq<Sighting>, k: Identity): Option<Sighting> {
    if s == [] then None
    else
      var before := NearestAllow(s[..|s| - 1], k);
      var last := s[|s| - 1];
      if AllowsFor(last, k) && (before.None? || last.distance < before.value.distance) then Some(last)
      else before
  }

  /** The identities with an allow, in order of first sight: the key order of `allow_map`. */
  function AllowedIdentities(s: seq<Sighting>): seq<Identity> {
    if s == [] then []
    else
      var before := AllowedIdentities(s[..|s| - 1]);
      var last := s[|s| - 1];
      if !last.perm.isDeny && IdentityOf(last.perm).Some? && IdentityOf(last.perm).value !in before
      then before + [IdentityOf(last.perm).value]
      else before
  }

  predicate Survives(s: seq<Sighting>, k: Identity) {
    && NearestAllow(s, k).Some?
    && (NearestDeny(s, k).Some? ==> NearestAllow(s, k).value.distance < NearestDeny(s, k).value)
  }

  function EntryFor(document: Document, s: Sighting): AclEntry {
    AclEntry(document.id, s.perm.principalId, s.perm.groupId, s.perm.permission, "inherited",
             Some(s.containerId), false, document.sourceType, document.tenantId)
  }

  function Kept(document: Document, s: seq<Sighting>, ids: seq<Identity>): seq<AclEntry> {
    if ids == [] then []
    else
      var k := ids[|ids| - 1];
      Kept(document, s, ids[..|ids| - 1])
      + (if Survives(s, k) then [EntryFor(document, NearestAllow(s, k).value)] else [])
  }

  function Inherited(document: Document, s: seq<Sighting>): seq<AclEntry> {
    Kept(document, s, AllowedIdentities(s))
  }

  // ---------------------------------------------------------------- declarative meaning

  /** The row is about k: a row with a principal is about that principal,
      whatever group it carries, and a row without one about its group. */
  ghost predicate Names(perm: ContainerAclEntry, k: Identity) {
    match k
    case PrincipalKey(id) => perm.principalId == Some(id)
    case GroupKey(id) => perm.principalId == None && perm.groupId == Some(id)
  }

  /** `a` is an allow for k as near as any other. */
  ghost predicate IsNearestAllow(s: seq<Sighting>, k: Identity, a: Sighting) {
    && a in s && Names(a.perm, k) && !a.perm.isDeny
    && forall b :: b in s && Names(b.perm, k) && !b.perm.isDeny ==> a.distance <= b.distance
  }

  /** k has an allow strictly nearer than every deny it has. */
  ghost predicate Outranks(s: seq<Sighting>, k: Identity) {
    exists a :: a in s && Names(a.perm, k) && !a.perm.isDeny
                && forall d :: d in s && Names(d.perm, k) && d.perm.isDeny ==> a.distance < d.distance
  }

  lemma {:induction false} DecidesFor(s: Sighting, k: Identity)
    ensures AllowsFor(s, k) <==> Names(s.perm, k) && !s.perm.isDeny
    ensures DeniesFor(s, k) <==> Names(s.perm, k) && s.perm.isDeny
  {
  }

  lemma {:induction false} NearestDenyMeaning(s: seq<Sighting>, k: Identity)
    ensures NearestDeny(s, k).None? <==> forall d :: d in s ==> !(Names(d.perm, k) && d.perm.isDeny)
    ensures NearestDeny(s, k).Some? ==>
              && (forall d :: d in s && Names(d.perm, k) && d.perm.isDeny ==> NearestDeny(s, k).value <= d.distance)
              && (exists d :: d in s && Names(d.perm, k) && d.perm.isDeny && d.distance == NearestDeny(s, k).value)
  {
    hide Names, DeniesFor;
    if s != [] {
      NearestDenyMeaning(s[..|s| - 1], k);
      DecidesFor(s[|s| - 1], k);
      assert s == s[..|s| - 1] + [s[|s| - 1]];
    }
  }

  lemma {:induction false} NearestAllowMeaning(s: seq<Sighting>, k: Identity)
    ensures NearestAllow(s, k).None? <==> forall a :: a in s ==> !(Names(a.perm, k) && !a.perm.isDeny)
    ensures NearestAllow(s, k).Some? ==> IsNearestAllow(s, k, NearestAllow(s, k).value)
  {
    hide Names, AllowsFor;
    if s != [] {
      NearestAllowMeaning(s[..|s| - 1], k);
      DecidesFor(s[|s| - 1], k);
      assert s == s[..|s| - 1] + [s[|s| - 1]];
    }
  }

  /** `a` is the first met of the nearest allows of k. */
  ghost predicate IsFirstNearestAllow(s: seq<Sighting>, k: Identity, a: Sighting) {
    && IsNearestAllow(s, k, a)
    && exists i :: 0 <= i < |s| && s[i] == a
                   && forall j :: 0 <= j < i && Names(s[j].perm, k) && !s[j].perm.isDeny ==> a.distance < s[j].distance
  }

  lemma {:induction false} NearestAllowIsFirst(s: seq<Sighting>, k: Identity)
    requires NearestAllow(s, k).Some?
    ensures IsFirstNearestAllow(s, k, NearestAllow(s, k).value)
  {
    NearestAllowMeaning(s, k);
    var n := |s| - 1;
    var front := s[..n];
    if NearestAllow(s, k) == NearestAllow(front, k) {
      NearestAllowIsFirst(front, k);
      var a := NearestAllow(front, k).value;
      var i :| 0 <= i < |front| && front[i] == a
               && forall j :: 0 <= j < i && Names(front[j].perm, k) && !front[j].perm.isDeny ==>
                                a.distance < front[j].distance;
      assert s[i] == a && forall j :: 0 <= j < i ==> s[j] == front[j];
    } else {
      NearestAllowMeaning(front, k);
      assert forall j :: 0 <= j < n ==> s[j] in front;
      assert s[n] == NearestAllow(s, k).value;
    }
  }

  lemma {:induction false} AllowedIdentitiesMeaning(s: seq<Sighting>)
    ensures Distinct(AllowedIdentities(s))
    ensures forall k :: k in AllowedIdentities(s) <==> NearestAllow(s, k).Some?
  {
    if s != [] {
      AllowedIdentitiesMeaning(s[..|s| - 1]);
    }
  }

  lemma {:induction false} SurvivesMeaning(s: seq<Sighting>, k: Identity)
    ensures Survives(s, k) <==> Outranks(s, k)
  {
    NearestDenyMeaning(s, k);
    NearestAllowMeaning(s, k);
  }

  lemma {:induction false} KeptMeaning(document: Document, s: seq<Sighting>, ids: seq<Identity>, e: AclEntry)
    ensures e in Kept(document, s, ids)
       <==> exists k :: k in ids && Survives(s, k) && e == EntryFor(document, NearestAllow(s, k).value)
  {
    if ids != [] {
      KeptMeaning(document, s, ids[..|ids| - 1], e);
      assert ids == ids[..|ids| - 1] + [ids[|ids| - 1]];
    }
  }

  /** `e` is the document's allow row with the subject and level of the folder row `a`. */
  ghost predicate CarriesRow(document: Document, a: Sighting, e: AclEntry) {
    && e.documentId == document.id && e.sourceType == document.sourceType && e.tenantId == document.tenantId
    && e.principalId == a.perm.principalId && e.groupId == a.perm.groupId && e.permission == a.perm.permission
    && !e.isDeny && e.grantedVia == "inherited" && e.sourceContainerId == Some(a.containerId)
  }

  /** The rule: an identity is given an entry exactly when it has an allow
      strictly nearer than every deny it has, and the entry carries the
      subject and permission of the first of its nearest allows. */
  lemma {:induction false} InheritanceRule(document: Document, s: seq<Sighting>, e: AclEntry)
    ensures e in Inherited(document, s) ==>
              exists k, a :: Outranks(s, k) && IsFirstNearestAllow(s, k, a) && CarriesRow(document, a, e)
    ensures forall k :: Outranks(s, k) ==>
              exists a, r :: IsFirstNearestAllow(s, k, a) && r in Inherited(document, s) && CarriesRow(document, a, r)
  {
    AllowedIdentitiesMeaning(s);
    KeptMeaning(document, s, AllowedIdentities(s), e);
    if e in Inherited(document, s) {
      var k :| k in AllowedIdentities(s) && Survives(s, k) && e == EntryFor(document, NearestAllow(s, k).value);
      SurvivesMeaning(s, k);
      NearestAllowIsFirst(s, k);
    }
    forall k | Outranks(s, k)
      ensures exists a, r :: IsFirstNearestAllow(s, k, a) && r in Inherited(document, s) && CarriesRow(document, a, r)
    {
      SurvivesMeaning(s, k);
      NearestAllowIsFirst(s, k);
      var a := NearestAllow(s, k).value;
      KeptMeaning(document, s, AllowedIdentities(s), EntryFor(document, a));
      assert EntryFor(document, a) in Inherited(document, s) && CarriesRow(document, a, EntryFor(document, a));
    }
  }

  /** The identity an inherited entry was made for. */
  function EntryIdentity(e: AclEntry): Option<Identity> {
    if e.principalId.Some? then Some(PrincipalKey(e.principalId.value))
    else if e.groupId.Some? then Some(GroupKey(e.groupId.value))
    else None
  }

  /** Every entry names someone, and no principal and no group is given two. */
  lemma {:induction false} OneEntryPerIdentity(document: Document, s: seq<Sighting>)
    ensures forall e :: e in Inherited(document, s) ==> e.principalId.Some? || e.groupId.Some?
    ensures forall i, j :: 0 <= i < j < |Inherited(document, s)| ==>
              var a, b := Inherited(document, s)[i], Inherited(document, s)[j];
              !(a.principalId == b.principalId && (a.principalId.Some? || a.groupId == b.groupId))
  {
    AllowedIdentitiesMeaning(s);
    KeptDistinct(document, s, AllowedIdentities(s));
    forall i, j | 0 <= i < j < |Inherited(document, s)|
      ensures EntryIdentity(Inherited(document, s)[i]) != EntryIdentity(Inherited(document, s)[j]) {
    }
  }

  lemma {:induction false} KeptDistinct(document: Document, s: seq<Sighting>, ids: seq<Identity>)
    requires Distinct(ids)
    ensures forall e :: e in Kept(document, s, ids) ==> EntryIdentity(e).Some? && EntryIdentity(e).value in ids
    ensures forall i, j :: 0 <= i < j < |Kept(document, s, ids)| ==>
              EntryIdentity(Kept(document, s, ids)[i]) != EntryIdentity(Kept(document, s, ids)[j])
  {
    if ids != [] {
      var n := |ids| - 1;
      KeptDistinct(document, s, ids[..n]);
      NearestAllowMeaning(s, ids[n]);
      var front := Kept(document, s, ids[..n]);
      forall i | 0 <= i < |front| ensures EntryIdentity(front[i]) != Some(ids[n]) {
        assert front[i] in front;
      }
    }
  }

  // ---------------------------------------------------------------- sightings and chains

  lemma {:induction false} ChainSightingsMeaning(acl: ContainerAcl, tenant: Uuid, chain: seq<string>, n: nat,
                                                 s: Sighting)
    requires n <= |chain|
    ensures s in ChainSightings(acl, tenant, chain, n)
       <==> s.distance < n && s.containerId == chain[s.distance]
            && (s.containerId, tenant) in acl && s.perm in acl[(s.containerId, tenant)]
  {
    hide RowSightings;
    if n > 0 {
      ChainSightingsMeaning(acl, tenant, chain, n - 1, s);
      InRowSightings(n - 1, chain[n - 1], RowsOf(acl, tenant, chain[n - 1]), s);
    }
  }

  lemma {:induction false} InRowSightings(d: nat, c: string, rows: seq<ContainerAclEntry>, s: Sighting)
    ensures s in RowSightings(d, c, rows) <==> s.distance == d && s.containerId == c && s.perm in rows
  {
    var block := RowSightings(d, c, rows);
    if s in block {
      var i :| 0 <= i < |block| && block[i] == s;
      assert s.perm == rows[i];
    }
    if s.distance == d && s.containerId == c && s.perm in rows {
      var i :| 0 <= i < |rows| && rows[i] == s.perm;
      assert block[i] == s;
    }
  }

  /** The loops see exactly the stored rows of the containers on the chains,
      each at its position on the chain. */
  lemma {:induction false} SightingsMeaning(acl: ContainerAcl, tenant: Uuid, chains: seq<seq<string>>, s: Sighting)
    ensures s in AllSightings(acl, tenant, chains)
       <==> && (exists chain :: chain in chains && s.distance < |chain| && s.containerId == chain[s.distance])
            && (s.containerId, tenant) in acl && s.perm in acl[(s.containerId, tenant)]
  {
    hide ChainSightings;
    if chains != [] {
      var n := |chains| - 1;
      SightingsMeaning(acl, tenant, chains[..n], s);
      ChainSightingsMeaning(acl, tenant, chains[n], |chains[n]|, s);
      assert chains == chains[..n] + [chains[n]];
    }
  }

  /** `row` is stored for the parent f of the document. */
  ghost predicate OnParent(acl: ContainerAcl, document: Document, f: string, row: ContainerAclEntry) {
    f in document.parentIds && (f, document.tenantId) in acl && row in acl[(f, document.tenantId)]
  }

  ghost predicate NoParentDenies(acl: ContainerAcl, document: Document, k: Identity) {
    forall f, row :: OnParent(acl, document, f, row) && Names(row, k) ==> !row.isDeny
  }

  /** `e` is made of an allow of k stored for a parent of the document. */
  ghost predicate FromParentRow(acl: ContainerAcl, document: Document, k: Identity, e: AclEntry) {
    exists f, row :: OnParent(acl, document, f, row) && Names(row, k) && !row.isDeny
                     && CarriesRow(document, Sighting(0, f, row), e)
  }

  /** The chains start at the parents of the document. */
  ghost predicate StartAtParents(document: Document, chains: seq<seq<string>>) {
    && |chains| == |document.parentIds|
    && forall i :: 0 <= i < |chains| ==> |chains[i]| > 0 && chains[i][0] == document.parentIds[i]
  }

  /** An allow stored for a parent is inherited whatever the folders farther up
      say, unless a parent denies the same identity. */
  lemma {:induction false} ParentAllowIsInherited(acl: ContainerAcl, document: Document, chains: seq<seq<string>>,
                                                  f: string, row: ContainerAclEntry, k: Identity)
    returns (e: AclEntry)
    requires StartAtParents(document, chains) && OnParent(acl, document, f, row)
    requires Names(row, k) && !row.isDeny && NoParentDenies(acl, document, k)
    ensures e in Inherited(document, AllSightings(acl, document.tenantId, chains))
    ensures FromParentRow(acl, document, k, e)
  {
    var s, t := AllSightings(acl, document.tenantId, chains), document.tenantId;
    var i :| 0 <= i < |document.parentIds| && document.parentIds[i] == f;
    assert chains[i] in chains;
    var seen := Sighting(0, f, row);
    SightingsMeaning(acl, t, chains, seen);
    forall d | d in s && d.distance == 0 ensures OnParent(acl, document, d.containerId, d.perm) {
      SightingsMeaning(acl, t, chains, d);
      var chain :| chain in chains && d.distance < |chain| && d.containerId == chain[d.distance];
      var j :| 0 <= j < |chains| && chains[j] == chain;
      assert document.parentIds[j] in document.parentIds;
    }
    assert Outranks(s, k) by {
      assert seen in s && Names(seen.perm, k);
    }
    InheritanceRule(document, s, EntryFor(document, seen));
    var a, r :| IsFirstNearestAllow(s, k, a) && r in Inherited(document, s) && CarriesRow(document, a, r);
    e := r;
    assert a.distance <= seen.distance;
    assert CarriesRow(document, Sighting(0, a.containerId, a.perm), e);
  }

  // ---------------------------------------------------------------- a cycle's repeat is harmless

  lemma {:induction false} AllSightingsConcat(acl: ContainerAcl, tenant: Uuid, a: seq<seq<string>>, b: seq<seq<string>>)
    ensures AllSightings(acl, tenant, a + b) == AllSightings(acl, tenant, a) + AllSightings(acl, tenant, b)
  {
    if b == [] {
      assert a + b == a;
    } else {
      assert (a + b)[..|a + b| - 1] == a + b[..|b| - 1];
      AllSightingsConcat(acl, tenant, a, b[..|b| - 1]);
    }
  }

  /** Every row of `block` names an identity already met, no farther, in `a`. */
  ghost predicate AddsNothing(a: seq<Sighting>, block: seq<Sighting>) {
    forall s :: s in block ==> exists e :: e in a && e.perm == s.perm && e.distance <= s.distance
  }

  lemma {:induction false} AddsNothingToMore(before: seq<Sighting>, a: seq<Sighting>, block: seq<Sighting>)
    requires AddsNothing(a, block)
    ensures AddsNothing(before + a, block)
  {
    assert forall e :: e in a ==> e in before + a;
  }

  ghost predicate SameOutcome(a: seq<Sighting>, b: seq<Sighting>) {
    && (forall k :: NearestDeny(a, k) == NearestDeny(b, k))
    && (forall k :: NearestAllow(a, k) == NearestAllow(b, k))
    && AllowedIdentities(a) == AllowedIdentities(b)
  }

  lemma {:induction false} OneAddsNothing(a: seq<Sighting>, s: Sighting, e: Sighting)
    requires e in a && e.perm == s.perm && e.distance <= s.distance
    ensures SameOutcome(a + [s], a)
  {
    assert (a + [s])[..|a|] == a;
    forall k ensures NearestDeny(a + [s], k) == NearestDeny(a, k) {
      NearestDenyMeaning(a, k);
      DecidesFor(s, k);
      hide Names;
    }
    forall k ensures NearestAllow(a + [s], k) == NearestAllow(a, k) {
      NearestAllowMeaning(a, k);
      DecidesFor(s, k);
      hide Names;
    }
    if IdentityOf(s.perm).Some? && !s.perm.isDeny {
      var k := IdentityOf(s.perm).value;
      NearestAllowMeaning(a, k);
      assert Names(e.perm, k);
      AllowedIdentitiesMeaning(a);
    }
  }

  lemma {:induction false} BlockAddsNothing(a: seq<Sighting>, block: seq<Sighting>)
    requires AddsNothing(a, block)
    ensures SameOutcome(a + block, a)
  {
    hide NearestDeny, NearestAllow, AllowedIdentities;
    if block == [] {
      assert a + block == a;
    } else {
      var n := |block| - 1;
      var s := block[n];
      assert forall b :: b in block[..n] ==> b in block;
      BlockAddsNothing(a, block[..n]);
      assert a + block == (a + block[..n]) + [s];
      var e :| e in a && e.perm == s.perm && e.distance <= s.distance;
      OneAddsNothing(a + block[..n], s, e);
    }
  }

  lemma {:induction false} SameOutcomeExtends(a: seq<Sighting>, b: seq<Sighting>, more: seq<Sighting>)
    requires SameOutcome(a, b)
    ensures SameOutcome(a + more, b + more)
  {
    if more == [] {
      assert a + more == a && b + more == b;
    } else {
      var n := |more| - 1;
      SameOutcomeExtends(a, b, more[..n]);
      assert (a + more)[|a + more| - 1] == more[n] == (b + more)[|b + more| - 1];
      assert (a + more)[..|a + more| - 1] == a + more[..n];
      assert (b + more)[..|b + more| - 1] == b + more[..n];
      forall k ensures NearestDeny(a + more, k) == NearestDeny(b + more, k) {
        assert NearestDeny(a + more[..n], k) == NearestDeny(b + more[..n], k);
      }
      forall k ensures NearestAllow(a + more, k) == NearestAllow(b + more, k) {
        assert NearestAllow(a + more[..n], k) == NearestAllow(b + more[..n], k);
      }
      assert AllowedIdentities(a + more) == AllowedIdentities(b + more);
    }
  }

  lemma {:induction false} SameOutcomeSameEntries(document: Document, a: seq<Sighting>, b: seq<Sighting>,
                                                  ids: seq<Identity>)
    requires SameOutcome(a, b)
    ensures Kept(document, a, ids) == Kept(document, b, ids)
  {
    if ids != [] {
      SameOutcomeSameEntries(document, a, b, ids[..|ids| - 1]);
    }
  }

  /** Cutting from a chain a last container that occurs earlier on it, as a
      parent cycle leaves there, changes no entry of the result. */
  lemma {:induction false} RepeatedContainerIsHarmless(acl: ContainerAcl, document: Document, chains: seq<seq<string>>,
                                                       i: nat)
    requires i < |chains| && chains[i] != []
    requires chains[i][|chains[i]| - 1] in chains[i][..|chains[i]| - 1]
    ensures Inherited(document, AllSightings(acl, document.tenantId, chains))
         == Inherited(document, AllSightings(acl, document.tenantId, chains[i := chains[i][..|chains[i]| - 1]]))
  {
    var t := document.tenantId;
    var cut := chains[i][..|chains[i]| - 1];
    var a, b := AllSightings(acl, t, chains), AllSightings(acl, t, chains[i := cut]);
    RepeatChangesNoOutcome(acl, t, chains, i);
    SameOutcomeSameEntries(document, a, b, AllowedIdentities(a));
  }

  lemma {:induction false} RepeatChangesNoOutcome(acl: ContainerAcl, t: Uuid, chains: seq<seq<string>>, i: nat)
    requires i < |chains| && chains[i] != []
    requires chains[i][|chains[i]| - 1] in chains[i][..|chains[i]| - 1]
    ensures SameOutcome(AllSightings(acl, t, chains), AllSightings(acl, t, chains[i := chains[i][..|chains[i]| - 1]]))
  {
    var chain := chains[i];
    var n := |chain| - 1;
    SplitAt(acl, t, chains, i);
    CutSplit(acl, t, chains, i);
    RepeatAddsNothing(acl, t, chain);
    BlockIsHarmless(AllSightings(acl, t, chains[..i]), ChainSightings(acl, t, chain, n),
                    RowSightings(n, chain[n], RowsOf(acl, t, chain[n])), AllSightings(acl, t, chains[i + 1..]));
  }

  lemma {:induction false} BlockIsHarmless(before: seq<Sighting>, body: seq<Sighting>, block: seq<Sighting>,
                                           after: seq<Sighting>)
    requires AddsNothing(body, block)
    ensures SameOutcome(before + (body + block) + after, before + body + after)
  {
    assert before + (body + block) + after == ((before + body) + block) + after;
    AddsNothingToMore(before, body, block);
    BlockAddsNothing(before + body, block);
    SameOutcomeExtends((before + body) + block, before + body, after);
  }

  lemma {:induction false} CutSplit(acl: ContainerAcl, t: Uuid, chains: seq<seq<string>>, i: nat)
    requires i < |chains| && chains[i] != []
    ensures AllSightings(acl, t, chains[i := chains[i][..|chains[i]| - 1]])
         == AllSightings(acl, t, chains[..i]) + ChainSightings(acl, t, chains[i], |chains[i]| - 1)
            + AllSightings(acl, t, chains[i + 1..])
  {
    var n := |chains[i]| - 1;
    var cut := chains[i][..n];
    SplitAt(acl, t, chains[i := cut], i);
    ChainPrefix(acl, t, chains[i], n, n);
    assert chains[i := cut][..i] == chains[..i] && chains[i := cut][i + 1..] == chains[i + 1..];
  }

  lemma {:induction false} SplitAt(acl: ContainerAcl, tenant: Uuid, chains: seq<seq<string>>, i: nat)
    requires i < |chains|
    ensures AllSightings(acl, tenant, chains)
         == AllSightings(acl, tenant, chains[..i]) + ChainSightings(acl, tenant, chains[i], |chains[i]|)
            + AllSightings(acl, tenant, chains[i + 1..])
  {
    assert chains == chains[..i + 1] + chains[i + 1..];
    AllSightingsConcat(acl, tenant, chains[..i + 1], chains[i + 1..]);
    assert chains[..i + 1][..i] == chains[..i];
  }

  lemma {:induction false} ChainPrefix(acl: ContainerAcl, tenant: Uuid, chain: seq<string>, m: nat, n: nat)
    requires n <= m <= |chain|
    ensures ChainSightings(acl, tenant, chain, n) == ChainSightings(acl, tenant, chain[..m], n)
  {
    if n > 0 {
      ChainPrefix(acl, tenant, chain, m, n - 1);
    }
  }

  lemma {:induction false} RepeatAddsNothing(acl: ContainerAcl, tenant: Uuid, chain: seq<string>)
    requires chain != [] && chain[|chain| - 1] in chain[..|chain| - 1]
    ensures AddsNothing(ChainSightings(acl, tenant, chain, |chain| - 1),
                        RowSightings(|chain| - 1, chain[|chain| - 1], RowsOf(acl, tenant, chain[|chain| - 1])))
  {
    var n := |chain| - 1;
    var d :| 0 <= d < n && chain[d] == chain[n];
    var rows := RowsOf(acl, tenant, chain[n]);
    var block := RowSightings(n, chain[n], rows);
    forall s | s in block
      ensures exists e :: e in ChainSightings(acl, tenant, chain, n) && e.perm == s.perm && e.distance <= s.distance
    {
      var i :| 0 <= i < |block| && block[i] == s;
      var e := Sighting(d, chain[d], rows[i]);
      ChainSightingsMeaning(acl, tenant, chain, n, e);
    }
  }

  // ---------------------------------------------------------------- algorithm

  /** The two dicts after the rows `seen`. */
  ghost predicate MapsHold(document: Document, seen: seq<Sighting>, denyMap: map<Identity, nat>,
                           allowMap: map<Identity, (nat, AclEntry)>, allowOrder: seq<Identity>)
  {
    && (forall k :: k in denyMap <==> NearestDeny(seen, k).Some?)
    && (forall k :: k in denyMap ==> denyMap[k] == NearestDeny(seen, k).value)
    && (forall k :: k in allowMap <==> NearestAllow(seen, k).Some?)
    && (forall k :: k in allowMap ==>
          allowMap[k] == (NearestAllow(seen, k).value.distance, EntryFor(document, NearestAllow(seen, k).value)))
    && allowOrder == AllowedIdentities(seen)
  }

  lemma {:induction false} RowIgnored(document: Document, seen: seq<Sighting>, s: Sighting, denyMap: map<Identity, nat>,
                   allowMap: map<Identity, (nat, AclEntry)>, allowOrder: seq<Identity>)
    requires MapsHold(document, seen, denyMap, allowMap, allowOrder)
    requires IdentityOf(s.perm).Some? ==>
               var k := IdentityOf(s.perm).value;
               if s.perm.isDeny then k in denyMap && denyMap[k] <= s.distance
               else k in allowMap && allowMap[k].0 <= s.distance
    ensures MapsHold(document, seen + [s], denyMap, allowMap, allowOrder)
  {
    assert (seen + [s])[..|seen|] == seen;
    AllowedIdentitiesMeaning(seen);
    forall k ensures NearestDeny(seen + [s], k) == NearestDeny(seen, k)
             ensures NearestAllow(seen + [s], k) == NearestAllow(seen, k) {
    }
  }

  lemma {:induction false} DenyNoted(document: Document, seen: seq<Sighting>, s: Sighting, denyMap: map<Identity, nat>,
                  allowMap: map<Identity, (nat, AclEntry)>, allowOrder: seq<Identity>, k: Identity)
    requires MapsHold(document, seen, denyMap, allowMap, allowOrder)
    requires DeniesFor(s, k) && (k !in denyMap || s.distance < denyMap[k])
    ensures MapsHold(document, seen + [s], denyMap[k := s.distance], allowMap, allowOrder)
  {
    assert (seen + [s])[..|seen|] == seen;
    forall j ensures NearestDeny(seen + [s], j) == if j == k then Some(s.distance) else NearestDeny(seen, j)
             ensures NearestAllow(seen + [s], j) == NearestAllow(seen, j) {
    }
  }

  lemma {:induction false} AllowNoted(document: Document, seen: seq<Sighting>, s: Sighting, denyMap: map<Identity, nat>,
                   allowMap: map<Identity, (nat, AclEntry)>, allowOrder: seq<Identity>, k: Identity)
    requires MapsHold(document, seen, denyMap, allowMap, allowOrder)
    requires AllowsFor(s, k) && (k !in allowMap || s.distance < allowMap[k].0)
    ensures MapsHold(document, seen + [s], denyMap, allowMap[k := (s.distance, EntryFor(document, s))],
                     if k in allowMap then allowOrder else allowOrder + [k])
  {
    assert (seen + [s])[..|seen|] == seen;
    AllowedIdentitiesMeaning(seen);
    forall j ensures NearestDeny(seen + [s], j) == NearestDeny(seen, j)
             ensures NearestAllow(seen + [s], j) == if j == k then Some(s) else NearestAllow(seen, j) {
    }
  }

  /** What the innermost loops do with one container: `denyMap` and `allowMap` after its rows. */
  method NoteContainer(document: Document, distance: nat, containerId: string, perms: seq<ContainerAclEntry>,
                       ghost seen: seq<Sighting>, denyMap: map<Identity, nat>,
                       allowMap: map<Identity, (nat, AclEntry)>, allowOrder: seq<Identity>)
    returns (denyMap': map<Identity, nat>, allowMap': map<Identity, (nat, AclEntry)>, allowOrder': seq<Identity>)
    requires MapsHold(document, seen, denyMap, allowMap, allowOrder)
    ensures MapsHold(document, seen + RowSightings(distance, containerId, perms), denyMap', allowMap', allowOrder')
  {
    denyMap', allowMap', allowOrder' := denyMap, allowMap, allowOrder;
    ghost var all := RowSightings(distance, containerId, perms);
    assert seen + all[..0] == seen;
    for i := 0 to |perms|
      invariant MapsHold(document, seen + all[..i], denyMap', allowMap', allowOrder')
    {
      var perm := perms[i];
      ghost var s := Sighting(distance, containerId, perm);
      assert seen + all[..i + 1] == (seen + all[..i]) + [s];
      var key := IdentityOf(perm);
      if key.None? {
        RowIgnored(document, seen + all[..i], s, denyMap', allowMap', allowOrder');
      } else if perm.isDeny {
        if key.value !in denyMap' || distance < denyMap'[key.value] {
          DenyNoted(document, seen + all[..i], s, denyMap', allowMap', allowOrder', key.value);
          denyMap' := denyMap'[key.value := distance];
        } else {
          RowIgnored(document, seen + all[..i], s, denyMap', allowMap', allowOrder');
        }
      } else if key.value !in allowMap' || distance < allowMap'[key.value].0 {
        AllowNoted(document, seen + all[..i], s, denyMap', allowMap', allowOrder', key.value);
        var entry := AclEntry(document.id, perm.principalId, perm.groupId, perm.permission, "inherited",
                              Some(containerId), false, document.sourceType, document.tenantId);
        allowOrder' := if key.value in allowMap' then allowOrder' else allowOrder' + [key.value];
        allowMap' := allowMap'[key.value := (distance, entry)];
      } else {
        RowIgnored(document, seen + all[..i], s, denyMap', allowMap', allowOrder');
      }
    }
    assert all[..|perms|] == all;
  }

  lemma {:induction false} NoContainer(acl: ContainerAcl, tenant: Uuid, chain: seq<string>)
    ensures ChainSightings(acl, tenant, chain, 0) == []
  {
  }

  lemma {:induction false} OneMoreContainer(repo: Repo, tenant: Uuid, chain: seq<string>, n: nat)
    requires n < |chain|
    ensures ChainSightings(repo.containerAclEntries, tenant, chain, n + 1)
         == ChainSightings(repo.containerAclEntries, tenant, chain, n)
            + RowSightings(n, chain[n], repo.GetContainerAclEntries(chain[n], tenant))
  {
  }

  /** The loop over one parent and its ancestors. */
  method NoteChain(document: Document, repo: Repo, allContainers: seq<string>, ghost seen: seq<Sighting>,
                   denyMap: map<Identity, nat>, allowMap: map<Identity, (nat, AclEntry)>, allowOrder: seq<Identity>)
    returns (denyMap': map<Identity, nat>, allowMap': map<Identity, (nat, AclEntry)>, allowOrder': seq<Identity>)
    requires MapsHold(document, seen, denyMap, allowMap, allowOrder)
    ensures MapsHold(document,
              seen + ChainSightings(repo.containerAclEntries, document.tenantId, allContainers, |allContainers|),
              denyMap', allowMap', allowOrder')
  {
    hide MapsHold, ChainSightings, RowSightings, Repo.GetContainerAclEntries;
    denyMap', allowMap', allowOrder' := denyMap, allowMap, allowOrder;
    ghost var sofar := seen;
    ghost var acl := repo.containerAclEntries;
    NoContainer(acl, document.tenantId, allContainers);
    for distance := 0 to |allContainers|
      invariant sofar == seen + ChainSightings(acl, document.tenantId, allContainers, distance)
      invariant MapsHold(document, sofar, denyMap', allowMap', allowOrder')
    {
      var perms := repo.GetContainerAclEntries(allContainers[distance], document.tenantId);
      denyMap', allowMap', allowOrder' :=
        NoteContainer(document, distance, allContainers[distance], perms, sofar, denyMap', allowMap', allowOrder');
      OneMoreContainer(repo, document.tenantId, allContainers, distance);
      sofar := sofar + RowSightings(distance, allContainers[distance], perms);
    }
  }

  lemma {:induction false} MapsAt(document: Document, seen: seq<Sighting>, denyMap: map<Identity, nat>,
                                  allowMap: map<Identity, (nat, AclEntry)>, allowOrder: seq<Identity>, k: Identity)
    requires MapsHold(document, seen, denyMap, allowMap, allowOrder) && k in allowOrder
    ensures k in allowMap && NearestAllow(seen, k).Some?
    ensures allowMap[k].1 == EntryFor(document, NearestAllow(seen, k).value)
    ensures Survives(seen, k) <==> !(k in denyMap && denyMap[k] <= allowMap[k].0)
  {
    AllowedIdentitiesMeaning(seen);
  }

  /** The last loop: drop the allows with a deny as near or nearer. */
  method ApplyDenyOverride(document: Document, ghost seen: seq<Sighting>, denyMap: map<Identity, nat>,
                           allowMap: map<Identity, (nat, AclEntry)>, allowOrder: seq<Identity>)
    returns (entries: seq<AclEntry>)
    requires MapsHold(document, seen, denyMap, allowMap, allowOrder)
    ensures entries == Inherited(document, seen)
  {
    entries := [];
    for i := 0 to |allowOrder|
      invariant entries == Kept(document, seen, allowOrder[..i])
    {
      var key := allowOrder[i];
      MapsAt(document, seen, denyMap, allowMap, allowOrder, key);
      assert allowOrder[..i + 1][..i] == allowOrder[..i];
      var (distance, entry) := allowMap[key];
      if !(key in denyMap && denyMap[key] <= distance) {
        entries := entries + [entry];
      }
    }
    assert allowOrder[..|allowOrder|] == allowOrder;
  }

  /** `chains[i]` is the i-th parent followed by its ancestors as the service gave them. */
  ghost predicate ChainsFrom(parents: seq<string>, tenant: Uuid, e: Evidence, chains: seq<seq<string>>) {
    && |chains| == |parents|
    && forall i :: 0 <= i < |parents| ==>
         |chains[i]| > 0 && chains[i][0] == parents[i] && RecentWalk(e, tenant, parents[i], chains[i][1..])
  }

  lemma {:induction false} OneMoreAnswer(parents: seq<string>, i: nat, tenant: Uuid, e: Evidence,
                                         walks: seq<WalkRecord>,
                                         chains: seq<seq<string>>, chain: seq<string>)
    requires i < |parents| && e.walks <= walks
    requires ChainsFrom(parents[..i], tenant, e, chains)
    requires |chain| > 0 && chain[0] == parents[i] && RecentWalk(e.(walks := walks), tenant, parents[i], chain[1..])
    ensures ChainsFrom(parents[..i + 1], tenant, e.(walks := walks), chains + [chain])
  {
    forall j | 0 <= j < i ensures RecentWalk(e.(walks := walks), tenant, parents[j], chains[j][1..]) {
      assert parents[..i][j] == parents[j];
      RecentWithMore(e, walks, tenant, parents[j], chains[j][1..]);
    }
  }

  /** The chains a walk over the present edges gives. */
  function PresentChains(edges: Edges, tenant: Uuid, parents: seq<string>): seq<seq<string>> {
    if parents == [] then []
    else
      var p := parents[|parents| - 1];
      PresentChains(edges, tenant, parents[..|parents| - 1]) + [[p] + Ancestors(edges, tenant, p, DEFAULT_MAX_DEPTH)]
  }

  /** Each chain is a parent followed by its ancestors over the present edges, fifty at most. */
  lemma {:induction false} PresentChainsSpelled(edges: Edges, tenant: Uuid, parents: seq<string>)
    ensures var chains := PresentChains(edges, tenant, parents);
            && |chains| == |parents|
            && forall i :: 0 <= i < |parents| ==>
                 chains[i] != [] && chains[i][0] == parents[i]
                 && IsWalk(edges, tenant, parents[i], chains[i][1..], 50, {})
  {
    hide IsWalk, Ancestors;
    if parents != [] {
      var p := parents[|parents| - 1];
      PresentChainsSpelled(edges, tenant, parents[..|parents| - 1]);
      AncestorsAreAWalk(edges, tenant, p);
      var w := Ancestors(edges, tenant, p, DEFAULT_MAX_DEPTH);
      assert ([p] + w)[1..] == w;
    }
  }

  lemma {:induction false} AncestorsAreAWalk(edges: Edges, tenant: Uuid, c: string)
    ensures IsWalk(edges, tenant, c, Ancestors(edges, tenant, c, DEFAULT_MAX_DEPTH), 50, {})
  {
    WalkCharacterised(edges, tenant, c, DEFAULT_MAX_DEPTH, {}, Ancestors(edges, tenant, c, DEFAULT_MAX_DEPTH));
  }

  ghost predicate AllExact(parents: seq<string>, tenant: Uuid, service: Service)
    reads service, service.repo`containerEdges
  {
    forall c :: c in parents ==> service.Exact(tenant, c, DEFAULT_MAX_DEPTH)
  }

  /** One parent's chain: the parent at distance 0, then what the service answers. */
  method NextChain(parents: seq<string>, i: nat, tenant: Uuid, service: Service, now: int,
                   ghost chains: seq<seq<string>>)
    returns (chain: seq<string>)
    requires service.Valid() && i < |parents|
    requires ChainsFrom(parents[..i], tenant, service.EvidenceAt(now), chains)
    modifies service
    ensures service.Valid() && |chain| > 0
    ensures ChainsFrom(parents[..i + 1], tenant, service.EvidenceAt(now), chains + [chain])
    ensures old(AllExact(parents, tenant, service)) ==>
              AllExact(parents, tenant, service)
              && chain == [parents[i]] + Ancestors(service.repo.containerEdges, tenant, parents[i], DEFAULT_MAX_DEPTH)
  {
    ghost var before := service.EvidenceAt(now);
    var ancestors := service.GetAncestors(parents[i], tenant, now);
    chain := [parents[i]] + ancestors;
    assert chain[1..] == ancestors;
    OneMoreAnswer(parents, i, tenant, before, service.walks, chains, chain);
  }

  lemma {:induction false} NoChains(acl: ContainerAcl, edges: Edges, tenant: Uuid)
    ensures AllSightings(acl, tenant, []) == [] && PresentChains(edges, tenant, []) == []
  {
  }

  lemma {:induction false} OneMoreChain(acl: ContainerAcl, edges: Edges, tenant: Uuid, parents: seq<string>, i: nat,
                                        chains: seq<seq<string>>, chain: seq<string>)
    requires i < |parents|
    ensures AllSightings(acl, tenant, chains + [chain])
         == AllSightings(acl, tenant, chains) + ChainSightings(acl, tenant, chain, |chain|)
    ensures PresentChains(edges, tenant, parents[..i + 1])
         == PresentChains(edges, tenant, parents[..i])
            + [[parents[i]] + Ancestors(edges, tenant, parents[i], DEFAULT_MAX_DEPTH)]
  {
    assert (chains + [chain])[..|chains|] == chains;
    assert parents[..i + 1][..i] == parents[..i];
  }

  lemma {:induction false} ParentAllowsAreInherited(acl: ContainerAcl, document: Document, e: Evidence,
                                                    chains: seq<seq<string>>)
    requires ChainsFrom(document.parentIds, document.tenantId, e, chains)
    ensures forall f, row, k | OnParent(acl, document, f, row) && Names(row, k) && !row.isDeny
                               && NoParentDenies(acl, document, k)
              :: exists r :: r in Inherited(document, AllSightings(acl, document.tenantId, chains))
                          && FromParentRow(acl, document, k, r)
  {
    assert StartAtParents(document, chains);
    forall f, row, k | OnParent(acl, document, f, row) && Names(row, k) && !row.isDeny
                       && NoParentDenies(acl, document, k)
      ensures exists r :: r in Inherited(document, AllSightings(acl, document.tenantId, chains))
                          && FromParentRow(acl, document, k, r)
    {
      var r := ParentAllowIsInherited(acl, document, chains, f, row, k);
    }
  }

  method ComputeInheritedEntries(document: Document, service: Service, now: int)
    returns (entries: seq<AclEntry>, ghost chains: seq<seq<string>>)
    requires service.Valid()
    modifies service
    ensures service.Valid()
    ensures ChainsFrom(document.parentIds, document.tenantId, service.EvidenceAt(now), chains)
    ensures entries == Inherited(document, AllSightings(service.repo.containerAclEntries, document.tenantId, chains))
    ensures var acl := service.repo.containerAclEntries;
            forall f, row, k | OnParent(acl, document, f, row) && Names(row, k) && !row.isDeny
                               && NoParentDenies(acl, document, k)
              :: exists e :: e in entries && FromParentRow(acl, document, k, e)
    ensures old(AllExact(document.parentIds, document.tenantId, service)) ==>
              chains == PresentChains(service.repo.containerEdges, document.tenantId, document.parentIds)
  {
    var denyMap: map<Identity, nat> := map[];
    var allowMap: map<Identity, (nat, AclEntry)>, allowOrder: seq<Identity> := map[], [];
    var parents, tenant := document.parentIds, document.tenantId;
    chains := [];
    assert MapsHold(document, [], denyMap, allowMap, allowOrder);
    assert ChainsFrom(parents[..0], tenant, service.EvidenceAt(now), chains);
    NoChains(service.repo.containerAclEntries, service.repo.containerEdges, tenant);
    hide *;
    ghost var seen: seq<Sighting> := [];
    for i := 0 to |parents|
      invariant service.Valid()
      invariant ChainsFrom(parents[..i], tenant, service.EvidenceAt(now), chains)
      invariant seen == AllSightings(service.repo.containerAclEntries, tenant, chains)
      invariant MapsHold(document, seen, denyMap, allowMap, allowOrder)
      invariant old(AllExact(parents, tenant, service)) ==>
                  AllExact(parents, tenant, service)
                  && chains == PresentChains(service.repo.containerEdges, tenant, parents[..i])
    {
      var chain := NextChain(parents, i, tenant, service, now, chains);
      denyMap, allowMap, allowOrder := NoteChain(document, service.repo, chain, seen, denyMap, allowMap, allowOrder);
      OneMoreChain(service.repo.containerAclEntries, service.repo.containerEdges, tenant, parents, i, chains, chain);
      seen := seen + ChainSightings(service.repo.containerAclEntries, tenant, chain, |chain|);
      chains := chains + [chain];
    }
    assert parents[..|parents|] == parents;
    entries := ApplyDenyOverride(document, seen, denyMap, allowMap, allowOrder);
    ParentAllowsAreInherited(service.repo.containerAclEntries, document, service.EvidenceAt(now), chains);
  }

  ghost predicate OnlyRowFor(acl: ContainerAcl, document: Document, row: ContainerAclEntry, k: Identity) {
    && document.parentIds == [row.containerId] && (row.containerId, document.tenantId) in acl
    && row in acl[(row.containerId, document.tenantId)]
    && forall other :: other in acl[(row.containerId, document.tenantId)] && Names(other, k) ==> other == row
  }

  lemma {:induction false} NewRowDecides(acl: ContainerAcl, document: Document, row: ContainerAclEntry, k: Identity)
    requires OnlyRowFor(acl, document, row, k) && Names(row, k) && !row.isDeny
    ensures OnParent(acl, document, row.containerId, row) && NoParentDenies(acl, document, k)
  {
    assert document.parentIds[0] == row.containerId;
  }

  lemma {:induction false} NewRowIsCarried(acl: ContainerAcl, document: Document, row: ContainerAclEntry, k: Identity,
                                           e: AclEntry)
    requires OnlyRowFor(acl, document, row, k) && FromParentRow(acl, document, k, e)
    ensures e == AclEntry(document.id, row.principalId, row.groupId, row.permission, "inherited",
                          Some(row.containerId), false, document.sourceType, document.tenantId)
  {
    var f, r :| OnParent(acl, document, f, r) && Names(r, k) && !r.isDeny
                && CarriesRow(document, Sighting(0, f, r), e);
    assert f == row.containerId && r == row;
  }

  /** A row granted on the one parent of a document by `upsert_container_acl`
      is the row the document inherits, if no other row there is about its subject. */
  method InheritNewRow(document: Document, service: Service, row: ContainerAclEntry, k: Identity, now: int)
    returns (entries: seq<AclEntry>)
    requires service.Valid()
    requires document.parentIds == [row.containerId] && Names(row, k) && !row.isDeny
    requires forall other |
               OnParent(service.repo.containerAclEntries, document, row.containerId, other) && Names(other, k)
               :: other.principalId == row.principalId && other.groupId == row.groupId
    modifies service, service.repo`containerAclEntries
    ensures service.Valid()
    ensures AclEntry(document.id, row.principalId, row.groupId, row.permission, "inherited", Some(row.containerId),
                     false, document.sourceType, document.tenantId) in entries
  {
    service.repo.UpsertContainerAcl(document.tenantId, row);
    ghost var acl := service.repo.containerAclEntries;
    assert OnlyRowFor(acl, document, row, k) by {
      forall other | other in acl[(row.containerId, document.tenantId)] && Names(other, k) ensures other == row {
        assert multiset(acl[(row.containerId, document.tenantId)])[other] > 0;
      }
    }
    NewRowDecides(acl, document, row, k);
    hide *;
    ghost var chains;
    entries, chains := ComputeInheritedEntries(document, service, now);
    ghost var e :| e in entries && FromParentRow(acl, document, k, e);
    NewRowIsCarried(acl, document, row, k, e);
  }
}
