/** The in-memory tables of `CanonicalRepo`
    (backend/app/storage/canonical_repo.py), one dict per field. */
module CanonicalRepo {
  import opened Prelude
  import opened Models
  import opened TextOps
  import opened AncestorWalk

  type ContainerKey = (string, Uuid)

  /** The rows `upsert_container_acl` leaves: any row for the same identity is replaced. */
  function UpsertedRows(rows: seq<ContainerAclEntry>, entry: ContainerAclEntry): (r: seq<ContainerAclEntry>)
    ensures forall e :: e in r <==>
              e == entry || (e in rows && !(e.principalId == entry.principalId && e.groupId == entry.groupId))
  {
    OtherSubjects(rows, entry) + [entry]
  }

  predicate SameSubject(a: ContainerAclEntry, b: ContainerAclEntry) {
    a.principalId == b.principalId && a.groupId == b.groupId
  }

  function OtherSubjects(rows: seq<ContainerAclEntry>, entry: ContainerAclEntry): (r: seq<ContainerAclEntry>)
    ensures forall e :: e in r <==> e in rows && !SameSubject(e, entry)
  {
    if rows == [] then []
    else (if SameSubject(rows[0], entry) then [] else [rows[0]]) + OtherSubjects(rows[1..], entry)
  }

  /** Exactly one row names the entry's subject afterwards, the entry, and every
      other row is there as often as before. */
  lemma {:induction false} UpsertedOnce(rows: seq<ContainerAclEntry>, entry: ContainerAclEntry, e: ContainerAclEntry)
    ensures multiset(UpsertedRows(rows, entry))[e] ==
              if e == entry then 1
              else if e.principalId == entry.principalId && e.groupId == entry.groupId then 0
              else multiset(rows)[e]
  {
    OthersAsOften(rows, entry, e);
    assert multiset([entry])[e] == if e == entry then 1 else 0;
  }

  lemma {:induction false} OthersAsOften(rows: seq<ContainerAclEntry>, entry: ContainerAclEntry, e: ContainerAclEntry)
    ensures multiset(OtherSubjects(rows, entry))[e] == if SameSubject(e, entry) then 0 else multiset(rows)[e]
  {
    if rows != [] {
      OthersAsOften(rows[1..], entry, e);
      assert rows == [rows[0]] + rows[1..];
      CountConcat([rows[0]], rows[1..], e);
      CountConcat(if SameSubject(rows[0], entry) then [] else [rows[0]], OtherSubjects(rows[1..], entry), e);
      CountOne(rows[0], e);
      hide SameSubject;
    }
  }

  lemma {:induction false} CountConcat<T>(a: seq<T>, b: seq<T>, e: T)
    ensures multiset(a + b)[e] == multiset(a)[e] + multiset(b)[e]
  {
  }

  lemma {:induction false} CountOne<T>(x: T, e: T)
    ensures multiset([x])[e] == if x == e then 1 else 0
  {
  }

  /** Every index holds a group of the main table, under that group's own key. */
  ghost predicate InStep(groups: map<Uuid, Group>, byEmail: map<(Uuid, string), Group>,
                         bySource: map<(string, string, Uuid), Group>)
  {
    && (forall id :: id in groups ==> groups[id].id == id)
    && (forall k :: k in byEmail ==> byEmail[k].id in groups && byEmail[k].tenantId == k.0)
    && (forall k :: k in bySource ==> bySource[k].id in groups && bySource[k].tenantId == k.2)
  }

  lemma {:induction false} StoringKeepsStep(groups: map<Uuid, Group>, byEmail: map<(Uuid, string), Group>,
                                            bySource: map<(string, string, Uuid), Group>, g: Group, email: string)
    requires InStep(groups, byEmail, bySource)
    ensures InStep(groups[g.id := g], byEmail, bySource[(g.sourceType, g.sourceId, g.tenantId) := g])
    ensures InStep(groups[g.id := g], byEmail[(g.tenantId, email) := g],
                   bySource[(g.sourceType, g.sourceId, g.tenantId) := g])
  {
  }

  class Repo {
    var groups: map<Uuid, Group>
    var groupsByEmail: map<(Uuid, string), Group>
    var groupsBySource: map<(string, string, Uuid), Group>
    var containerAclEntries: map<ContainerKey, seq<ContainerAclEntry>>
    var containerEdges: Edges

    constructor ()
      ensures groups == map[] && groupsByEmail == map[] && groupsBySource == map[]
      ensures containerAclEntries == map[] && containerEdges == map[]
    {
      groups, groupsByEmail, groupsBySource := map[], map[], map[];
      containerAclEntries, containerEdges := map[], map[];
    }

    ghost predicate GroupsIndexed()
      reads this
    {
      InStep(groups, groupsByEmail, groupsBySource)
    }

    /** Looking up the email, with its letters in any case, gives the group. */
    ghost predicate FoundInAnyCase(email: string, tenant: Uuid, group: Group)
      reads this`groupsByEmail
    {
      forall e :: SameButCase(e, email) ==> GetGroupByEmail(e, tenant) == Some(group)
    }

    lemma {:induction false} OneKeyForAllCases(email: string, tenant: Uuid, group: Group)
      requires GetGroupByEmail(email, tenant) == Some(group)
      ensures FoundInAnyCase(email, tenant, group)
    {
      hide Lower, SameButCase;
      forall e | SameButCase(e, email) ensures GetGroupByEmail(e, tenant) == Some(group) {
        SameLower(e, email);
      }
    }

    method CreateGroup(group: Group)
      requires GroupsIndexed() && group.id !in groups
      modifies this`groups, this`groupsByEmail, this`groupsBySource
      ensures GroupsIndexed()
      ensures groups == old(groups)[group.id := group]
      ensures groupsBySource == old(groupsBySource)[(group.sourceType, group.sourceId, group.tenantId) := group]
      ensures groupsByEmail == match group.email
                               case Some(e) => if e == "" then old(groupsByEmail)
                                               else old(groupsByEmail)[(group.tenantId, Lower(e)) := group]
                               case None => old(groupsByEmail)
      ensures group.email.Some? && group.email.value != "" ==>
                FoundInAnyCase(group.email.value, group.tenantId, group)
    {
      hide Lower, SameButCase, FoundInAnyCase, InStep;
      StoringKeepsStep(groups, groupsByEmail, groupsBySource, group,
                       Lower(if group.email.Some? then group.email.value else ""));
      groups := groups[group.id := group];
      if group.email.Some? && group.email.value != "" {
        groupsByEmail := groupsByEmail[(group.tenantId, Lower(group.email.value)) := group];
        OneKeyForAllCases(group.email.value, group.tenantId, group);
      }
      groupsBySource := groupsBySource[(group.sourceType, group.sourceId, group.tenantId) := group];
    }

    function GetGroupByEmail(email: string, tenant: Uuid): Option<Group>
      reads this`groupsByEmail
    {
      if (tenant, Lower(email)) in groupsByEmail then Some(groupsByEmail[(tenant, Lower(email))]) else None
    }

    function GetGroupBySourceIdentity(sourceType: string, sourceId: string, tenant: Uuid): Option<Group>
      reads this`groupsBySource
    {
      if (sourceType, sourceId, tenant) in groupsBySource then Some(groupsBySource[(sourceType, sourceId, tenant)])
      else None
    }

    method UpsertContainerEdge(parent: string, child: string, tenant: Uuid)
      modifies this`containerEdges
      ensures containerEdges == old(containerEdges)[(child, tenant) := parent]
    {
      containerEdges := containerEdges[(child, tenant) := parent];
    }

    /** The container's list ends with the new row, keeps every stored row of
        another subject as often as it stood there and loses the others; the
        lists of the other containers stay. */
    method UpsertContainerAcl(tenant: Uuid, entry: ContainerAclEntry)
      modifies this`containerAclEntries
      ensures forall key :: key != (entry.containerId, tenant) ==>
                && (key in containerAclEntries <==> key in old(containerAclEntries))
                && (key in containerAclEntries ==> containerAclEntries[key] == old(containerAclEntries)[key])
      ensures var key := (entry.containerId, tenant);
              && key in containerAclEntries
              && containerAclEntries[key] != []
              && containerAclEntries[key][|containerAclEntries[key]| - 1] == entry
              && forall e :: multiset(containerAclEntries[key])[e] ==
                   if e == entry then 1
                   else if e.principalId == entry.principalId && e.groupId == entry.groupId then 0
                   else if key in old(containerAclEntries) then multiset(old(containerAclEntries)[key])[e]
                   else 0
    {
      var existing := GetContainerAclEntries(entry.containerId, tenant);
      containerAclEntries := containerAclEntries[(entry.containerId, tenant) := UpsertedRows(existing, entry)];
      forall e { UpsertedOnce(existing, entry, e); }
    }

    function GetContainerAclEntries(containerId: string, tenant: Uuid): seq<ContainerAclEntry>
      reads this`containerAclEntries
    {
      if (containerId, tenant) in containerAclEntries then containerAclEntries[(containerId, tenant)] else []
    }
  }
}
