/** `ACLCompiler.compile` (backend/app/acl/compiler.py): direct grants, folder
    inheritance, group expansion and deduplication, and who ends up with what. */
module Compiler {
  import opened Prelude
  import opened Models
  import opened TextOps
  import opened DenyOverrides
  import opened GroupExpansion
  import opened CanonicalRepo
  import opened ContainerService
  import opened Inheritance

  /** A raw identity of the source (`IdentityHint`). */
  datatype Hint = Hint(sourceType: string, externalId: string, email: Option<string>)

  // ---------------------------------------------------------------- whom a hint names

  /** The three group tables of the repository. */
  datatype Directory = Directory(groups: Groups, byEmail: map<(Uuid, string), Group>,
                                 bySource: map<(string, string, Uuid), Group>)

  datatype Target = ToGroup(group: Uuid) | ToPrincipal(principal: Uuid) | Unresolved

  function HintEmail(hint: Hint): string {
    if hint.email.Some? then hint.email.value else ""
  }

  predicate EmailNamesGroup(dir: Directory, hint: Hint, tenant: Uuid) {
    HintEmail(hint) != "" && (tenant, Lower(HintEmail(hint))) in dir.byEmail
  }

  predicate IsGroupHint(dir: Directory, hint: Hint, tenant: Uuid) {
    StartsWith(hint.externalId, "group:") || EmailNamesGroup(dir, hint, tenant)
  }

  /** `_resolve_group` before it creates anything. */
  function FindGroup(dir: Directory, hint: Hint, tenant: Uuid): Option<Group> {
    if (hint.sourceType, hint.externalId, tenant) in dir.bySource then
      Some(dir.bySource[(hint.sourceType, hint.externalId, tenant)])
    else if EmailNamesGroup(dir, hint, tenant) then Some(dir.byEmail[(tenant, Lower(HintEmail(hint)))])
    else None
  }

  function NewGroup(hint: Hint, tenant: Uuid, id: Uuid): Group {
    Group(id, tenant, hint.email, hint.sourceType, hint.externalId, [], [])
  }

  function WithGroup(dir: Directory, g: Group): Directory {
    Directory(
      dir.groups[g.id := g],
      (match g.email
       case Some(e) => if e == "" then dir.byEmail else dir.byEmail[(g.tenantId, Lower(e)) := g]
       case None => dir.byEmail),
      dir.bySource[(g.sourceType, g.sourceId, g.tenantId) := g])
  }

  /** One hint: `answer` is what the identity resolver says for it, `newId` the id a new group would take. */
  function ResolveHint(dir: Directory, hint: Hint, tenant: Uuid, answer: Option<Uuid>, newId: Uuid)
    : (Target, Directory)
  {
    if hint.sourceType !in MIRROR_BIND_SOURCES && IsGroupHint(dir, hint, tenant) then
      match FindGroup(dir, hint, tenant)
      case Some(g) => (ToGroup(g.id), dir)
      case None => (ToGroup(newId), WithGroup(dir, NewGroup(hint, tenant, newId)))
    else
      match answer
      case Some(p) => (ToPrincipal(p), dir)
      case None => (Unresolved, dir)
  }

  datatype Request = Request(hint: Hint, level: PermissionLevel, answer: Option<Uuid>, newId: Uuid)

  function ResolveAll(dir: Directory, requests: seq<Request>, tenant: Uuid): (seq<Target>, Directory) {
    if requests == [] then ([], dir)
    else
      var n := |requests| - 1;
      var (targets, dir') := ResolveAll(dir, requests[..n], tenant);
      var r := requests[n];
      var (target, dir'') := ResolveHint(dir', r.hint, tenant, r.answer, r.newId);
      (targets + [target], dir'')
  }

  lemma {:induction false} ResolveAllLength(dir: Directory, requests: seq<Request>, tenant: Uuid)
    ensures |ResolveAll(dir, requests, tenant).0| == |requests|
  {
    if requests != [] {
      ResolveAllLength(dir, requests[..|requests| - 1], tenant);
    }
  }

  /** The hint carries an email that, with its capitals made small, is the key of a group of the tenant. */
  ghost predicate EmailIsKey(dir: Directory, hint: Hint, tenant: Uuid, key: string) {
    hint.email.Some? && hint.email.value != "" && IsSmallFormOf(key, hint.email.value) && (tenant, key) in dir.byEmail
  }

  /** Whom a hint names. Outside the mirror sources it is a group exactly when
      the external id begins with "group:" or the email is a group's key: the
      group of the hint's source identity, else the group of its email, else a
      new one. Any other hint is whomever the resolver answers. */
  ghost predicate IsTarget(dir: Directory, r: Request, tenant: Uuid, target: Target) {
    var source := (r.hint.sourceType, r.hint.externalId, tenant);
    if r.hint.sourceType != "google_drive" && r.hint.sourceType != "google_gmail"
       && ("group:" <= r.hint.externalId || exists key :: EmailIsKey(dir, r.hint, tenant, key)) then
      if source in dir.bySource then target == ToGroup(dir.bySource[source].id)
      else if exists key :: EmailIsKey(dir, r.hint, tenant, key) then
        exists key :: EmailIsKey(dir, r.hint, tenant, key) && target == ToGroup(dir.byEmail[(tenant, key)].id)
      else target == ToGroup(r.newId)
    else
      target == if r.answer.Some? then ToPrincipal(r.answer.value) else Unresolved
  }

  /** `after` is `before` with the group stored under its id, its source
      identity and, if it has one, its email in small letters. */
  ghost predicate Stores(before: Directory, g: Group, after: Directory) {
    && after.groups == before.groups[g.id := g]
    && after.bySource == before.bySource[(g.sourceType, g.sourceId, g.tenantId) := g]
    && (if g.email.Some? && g.email.value != "" then
          exists key :: IsSmallFormOf(key, g.email.value)
                        && after.byEmail == before.byEmail[(g.tenantId, key) := g]
        else after.byEmail == before.byEmail)
  }

  /** What one request does to the tables: an unheard-of group hint stores an
      empty group under the new id, and nothing else stores anything. */
  ghost predicate IsStep(before: Directory, r: Request, tenant: Uuid, target: Target, after: Directory) {
    if target == ToGroup(r.newId) && r.newId !in before.groups then
      Stores(before, Group(r.newId, tenant, r.hint.email, r.hint.sourceType, r.hint.externalId, [], []), after)
    else after == before
  }

  /** Every group an index gives is in the main table. */
  ghost predicate Indexed(dir: Directory) {
    && (forall k :: k in dir.byEmail ==> dir.byEmail[k].id in dir.groups)
    && (forall k :: k in dir.bySource ==> dir.bySource[k].id in dir.groups)
  }

  lemma {:induction false} KeyIsLower(dir: Directory, hint: Hint, tenant: Uuid, key: string)
    ensures EmailIsKey(dir, hint, tenant, key) <==> EmailNamesGroup(dir, hint, tenant) && key == Lower(HintEmail(hint))
  {
    if hint.email.Some? {
      LowerIsSmallForm(hint.email.value, key);
    }
    hide Lower, IsSmallFormOf;
  }

  lemma {:induction false} GroupPrefix(id: string)
    ensures StartsWith(id, "group:") <==> "group:" <= id
  {
  }

  lemma {:induction false} MirrorSources(source: string)
    ensures source in MIRROR_BIND_SOURCES <==> source == "google_drive" || source == "google_gmail"
  {
  }

  lemma {:induction false} TargetSpelled(dir: Directory, r: Request, tenant: Uuid)
    ensures IsTarget(dir, r, tenant, ResolveHint(dir, r.hint, tenant, r.answer, r.newId).0)
  {
    var key := Lower(HintEmail(r.hint));
    forall k { KeyIsLower(dir, r.hint, tenant, k); }
    GroupPrefix(r.hint.externalId);
    MirrorSources(r.hint.sourceType);
    hide Lower, EmailIsKey, StartsWith;
    assert EmailNamesGroup(dir, r.hint, tenant) ==> EmailIsKey(dir, r.hint, tenant, key);
  }

  lemma {:induction false} StoresGroup(dir: Directory, g: Group)
    ensures Stores(dir, g, WithGroup(dir, g))
  {
    if g.email.Some? && g.email.value != "" {
      LowerIsSmallForm(g.email.value, Lower(g.email.value));
      hide Lower, IsSmallFormOf;
      assert IsSmallFormOf(Lower(g.email.value), g.email.value)
          && WithGroup(dir, g).byEmail == dir.byEmail[(g.tenantId, Lower(g.email.value)) := g];
    }
  }

  lemma {:induction false} StepSpelled(dir: Directory, r: Request, tenant: Uuid)
    requires Indexed(dir) && r.newId !in dir.groups
    ensures var (target, after) := ResolveHint(dir, r.hint, tenant, r.answer, r.newId);
            IsStep(dir, r, tenant, target, after) && Indexed(after) && after.groups.Keys <= dir.groups.Keys + {r.newId}
  {
    StoresGroup(dir, NewGroup(r.hint, tenant, r.newId));
    hide Lower, IsSmallFormOf, StartsWith;
  }

  /** The requests in turn, each resolved against the tables the earlier ones left. */
  ghost predicate Resolution(dirs: seq<Directory>, requests: seq<Request>, tenant: Uuid, targets: seq<Target>) {
    && |dirs| == |requests| + 1 && |targets| == |requests|
    && forall i :: 0 <= i < |requests| ==>
         && IsTarget(dirs[i], requests[i], tenant, targets[i])
         && IsStep(dirs[i], requests[i], tenant, targets[i], dirs[i + 1])
  }

  ghost predicate Resolved(start: Directory, requests: seq<Request>, tenant: Uuid, targets: seq<Target>,
                           end: Directory)
  {
    exists dirs :: Resolution(dirs, requests, tenant, targets) && dirs[0] == start && dirs[|requests|] == end
  }

  lemma {:induction false} LongerResolution(dirs: seq<Directory>, requests: seq<Request>, tenant: Uuid,
                                            targets: seq<Target>, target: Target, last: Directory)
    requires requests != []
    requires var n := |requests| - 1;
             && Resolution(dirs, requests[..n], tenant, targets)
             && IsTarget(dirs[n], requests[n], tenant, target) && IsStep(dirs[n], requests[n], tenant, target, last)
    ensures Resolution(dirs + [last], requests, tenant, targets + [target])
  {
    hide IsTarget, IsStep;
    var n := |requests| - 1;
    forall i | 0 <= i < n
      ensures IsTarget((dirs + [last])[i], requests[i], tenant, (targets + [target])[i])
           && IsStep((dirs + [last])[i], requests[i], tenant, (targets + [target])[i], (dirs + [last])[i + 1])
    {
      assert requests[..n][i] == requests[i];
    }
  }

  lemma {:induction false} ResolvedSpelled(dir: Directory, requests: seq<Request>, tenant: Uuid)
    returns (dirs: seq<Directory>)
    requires Indexed(dir)
    requires forall i :: 0 <= i < |requests| ==> requests[i].newId !in dir.groups
    requires forall i, j :: 0 <= i < j < |requests| ==> requests[i].newId != requests[j].newId
    ensures var (targets, end) := ResolveAll(dir, requests, tenant);
            Resolution(dirs, requests, tenant, targets) && dirs[0] == dir && dirs[|requests|] == end
    ensures Indexed(dirs[|requests|])
    ensures dirs[|requests|].groups.Keys <= dir.groups.Keys + set i | 0 <= i < |requests| :: requests[i].newId
  {
    if requests == [] {
      dirs := [dir];
    } else {
      var n := |requests| - 1;
      var front := ResolvedSpelled(dir, requests[..n], tenant);
      var r := requests[n];
      TargetSpelled(front[n], r, tenant);
      StepSpelled(front[n], r, tenant);
      var (targets, end) := ResolveAll(dir, requests[..n], tenant);
      var (target, last) := ResolveHint(end, r.hint, tenant, r.answer, r.newId);
      assert ResolveAll(dir, requests, tenant) == (targets + [target], last);
      dirs := front + [last];
      LongerResolution(front, requests, tenant, targets, target, last);
      hide IsTarget, IsStep, ResolveHint, Indexed, ResolveAll, Resolution;
    }
  }

  /** A group hint met again names the same group and creates no second one. */
  lemma {:induction false} GroupHintIsStable(dir: Directory, hint: Hint, tenant: Uuid, a: Option<Uuid>,
                                             b: Option<Uuid>, f1: Uuid, f2: Uuid)
    ensures var (first, dir1) := ResolveHint(dir, hint, tenant, a, f1);
            first.ToGroup? ==> ResolveHint(dir1, hint, tenant, b, f2) == (first, dir1)
  {
  }

  /** Once a group is stored, a hint with its email in any case names it,
      unless the hint's source identity is another group's. */
  lemma {:induction false} StoredEmailNamesGroup(before: Directory, g: Group, after: Directory, r: Request,
                                                 target: Target)
    requires Stores(before, g, after) && IsTarget(after, r, g.tenantId, target)
    requires r.hint.sourceType != "google_drive" && r.hint.sourceType != "google_gmail"
    requires g.email.Some? && g.email.value != "" && r.hint.email.Some?
    requires SameButCase(r.hint.email.value, g.email.value)
    ensures var source := (r.hint.sourceType, r.hint.externalId, g.tenantId);
            target == ToGroup(if source in after.bySource then after.bySource[source].id else g.id)
  {
    var stored :| IsSmallFormOf(stored, g.email.value)
                  && after.byEmail == before.byEmail[(g.tenantId, stored) := g];
    LowerIsSmallForm(g.email.value, stored);
    SameLower(r.hint.email.value, g.email.value);
    forall key { LowerIsSmallForm(r.hint.email.value, key); }
    hide Lower, SameButCase, IsSmallFormOf;
    assert EmailIsKey(after, r.hint, g.tenantId, stored);
  }

  // ---------------------------------------------------------------- direct rows

  function GrantedVia(sourceType: string): string {
    if sourceType == "google_drive" then "drive_share"
    else if sourceType == "google_gmail" then "gmail_mailbox"
    else "direct"
  }

  function DirectEntry(document: Document, target: Target, level: PermissionLevel, tenant: Uuid): AclEntry
    requires !target.Unresolved?
  {
    match target
    case ToGroup(g) => AclEntry(document.id, None, Some(g), level, "direct", None, false, document.sourceType, tenant)
    case ToPrincipal(p) =>
      AclEntry(document.id, Some(p), None, level, GrantedVia(document.sourceType), None, false, document.sourceType,
          tenant)
  }

  /** The direct row of a hint: an allow of the document for the group or the
      principal named, at the level of the hint, tagged with where it came from. */
  ghost predicate IsDirectRow(document: Document, target: Target, level: PermissionLevel, tenant: Uuid, e: AclEntry) {
    && e.documentId == document.id && e.sourceType == document.sourceType && e.tenantId == tenant
    && e.permission == level && !e.isDeny && e.sourceContainerId == None
    && match target
       case ToGroup(g) => e.principalId == None && e.groupId == Some(g) && e.grantedVia == "direct"
       case ToPrincipal(p) =>
         && e.principalId == Some(p) && e.groupId == None
         && (document.sourceType == "google_drive" ==> e.grantedVia == "drive_share")
         && (document.sourceType == "google_gmail" ==> e.grantedVia == "gmail_mailbox")
         && (document.sourceType != "google_drive" && document.sourceType != "google_gmail" ==>
               e.grantedVia == "direct")
       case Unresolved => false
  }

  lemma {:induction false} DirectRowSpelled(document: Document, target: Target, level: PermissionLevel, tenant: Uuid,
                                            e: AclEntry)
    ensures IsDirectRow(document, target, level, tenant, e) <==>
        !target.Unresolved? && e == DirectEntry(document, target, level, tenant)
  {
  }

  function DirectEntries(document: Document, targets: seq<Target>, requests: seq<Request>, tenant: Uuid): seq<AclEntry>
    requires |targets| == |requests|
  {
    if targets == [] then []
    else
      var n := |targets| - 1;
      DirectEntries(document, targets[..n], requests[..n], tenant)
      + (if targets[n].Unresolved? then [] else [DirectEntry(document, targets[n], requests[n].level, tenant)])
  }

  /** The positions of the hints that named someone, in order. */
  function Named(targets: seq<Target>): (r: seq<nat>)
    ensures forall i: nat :: i in r <==> i < |targets| && !targets[i].Unresolved?
    ensures forall i, j :: 0 <= i < j < |r| ==> r[i] < r[j]
  {
    if targets == [] then []
    else
      var n := |targets| - 1;
      var front := Named(targets[..n]);
      assert forall k :: 0 <= k < |front| ==> front[k] in front;
      front + (if targets[n].Unresolved? then [] else [n])
  }

  /** One row for each such hint, in the order of the hints. */
  lemma {:induction false} DirectEntriesInOrder(document: Document, targets: seq<Target>, requests: seq<Request>,
                                                tenant: Uuid)
    requires |targets| == |requests|
    ensures var rows, named := DirectEntries(document, targets, requests, tenant), Named(targets);
            && |rows| == |named|
            && forall k :: 0 <= k < |rows| ==>
                 named[k] in named
                 && IsDirectRow(document, targets[named[k]], requests[named[k]].level, tenant, rows[k])
  {
    hide DirectEntry, IsDirectRow;
    if targets != [] {
      var n := |targets| - 1;
      DirectEntriesInOrder(document, targets[..n], requests[..n], tenant);
      var named := Named(targets[..n]);
      assert forall k :: 0 <= k < |named| ==> named[k] in named && named[k] < n;
      if !targets[n].Unresolved? {
        DirectRowSpelled(document, targets[n], requests[n].level, tenant,
                         DirectEntry(document, targets[n], requests[n].level, tenant));
      }
      var front := DirectEntries(document, targets[..n], requests[..n], tenant);
      forall k | 0 <= k < |front|
        ensures IsDirectRow(document, targets[named[k]], requests[named[k]].level, tenant, front[k])
      {
        assert targets[..n][named[k]] == targets[named[k]] && requests[..n][named[k]] == requests[named[k]];
      }
    }
  }

  ghost predicate IsDirect(document: Document, targets: seq<Target>, requests: seq<Request>, tenant: Uuid, e: AclEntry)
    requires |targets| == |requests|
  {
    exists i :: 0 <= i < |targets| && IsDirectRow(document, targets[i], requests[i].level, tenant, e)
  }

  lemma {:induction false} InDirectEntries(document: Document, targets: seq<Target>, requests: seq<Request>,
                                           tenant: Uuid, e: AclEntry)
    requires |targets| == |requests|
    ensures e in DirectEntries(document, targets, requests, tenant) <==>
        IsDirect(document, targets, requests, tenant, e)
  {
    hide IsDirectRow, DirectEntry;
    if targets != [] {
      var n := |targets| - 1;
      InDirectEntries(document, targets[..n], requests[..n], tenant, e);
      DirectRowSpelled(document, targets[n], requests[n].level, tenant, e);
      if IsDirect(document, targets[..n], requests[..n], tenant, e) {
        var i :| 0 <= i < n && IsDirectRow(document, targets[..n][i], requests[..n][i].level, tenant, e);
        assert IsDirectRow(document, targets[i], requests[i].level, tenant, e);
      }
      if IsDirect(document, targets, requests, tenant, e) {
        var i :| 0 <= i < |targets| && IsDirectRow(document, targets[i], requests[i].level, tenant, e);
        if i < n {
          assert targets[..n][i] == targets[i] && requests[..n][i] == requests[i];
        }
      }
    }
  }

  // ---------------------------------------------------------------- expansion rows

  function ExpandedEntry(row: AclEntry, p: Uuid, tenant: Uuid): AclEntry {
    AclEntry(row.documentId, Some(p), None, row.permission, "group_membership", row.sourceContainerId,
             row.isDeny, row.sourceType, tenant)
  }

  function RowsFor(row: AclEntry, members: seq<Uuid>, tenant: Uuid): (r: seq<AclEntry>)
    ensures |r| == |members|
    ensures forall i :: 0 <= i < |members| ==> r[i] == ExpandedEntry(row, members[i], tenant)
  {
    seq(|members|, i requires 0 <= i < |members| => ExpandedEntry(row, members[i], tenant))
  }

  predicate NamesGroup(groups: Groups, tenant: Uuid, row: AclEntry) {
    row.groupId.Some? && Resolves(groups, tenant, row.groupId.value)
  }

  function Expanded(groups: Groups, tenant: Uuid, rows: seq<AclEntry>): seq<AclEntry> {
    if rows == [] then []
    else
      var row := rows[|rows| - 1];
      Expanded(groups, tenant, rows[..|rows| - 1])
      + (if NamesGroup(groups, tenant, row) then RowsFor(row, Expansion(groups, tenant, row.groupId.value), tenant)
         else [])
  }

  /** `row` names a group of the tenant, and `e` is the row of a member of it:
      what `row` grants, for that member instead of the group. */
  ghost predicate IsExpansionOf(groups: Groups, tenant: Uuid, row: AclEntry, e: AclEntry) {
    && row.groupId.Some?
    && row.groupId.value in groups && groups[row.groupId.value].tenantId == tenant
    && e.principalId.Some?
    && IsMember(groups, tenant, row.groupId.value, e.principalId.value)
    && e == row.(principalId := e.principalId, groupId := None, grantedVia := "group_membership", tenantId := tenant)
  }

  lemma {:induction false} InRowsFor(groups: Groups, tenant: Uuid, row: AclEntry, e: AclEntry)
    requires NamesGroup(groups, tenant, row)
    ensures e in RowsFor(row, Expansion(groups, tenant, row.groupId.value), tenant)
       <==> IsExpansionOf(groups, tenant, row, e)
  {
    var members := Expansion(groups, tenant, row.groupId.value);
    var made := RowsFor(row, members, tenant);
    ExpansionIsMembership(groups, tenant, row.groupId.value);
    if e in made {
      var i :| 0 <= i < |made| && made[i] == e;
      assert members[i] in members;
    }
    if IsExpansionOf(groups, tenant, row, e) {
      var i :| 0 <= i < |members| && members[i] == e.principalId.value;
      assert made[i] == e;
    }
  }

  lemma {:induction false} InExpanded(groups: Groups, tenant: Uuid, rows: seq<AclEntry>, e: AclEntry)
    ensures e in Expanded(groups, tenant, rows) <==> exists row :: row in rows && IsExpansionOf(groups, tenant, row, e)
  {
    if rows != [] {
      var n := |rows| - 1;
      InExpanded(groups, tenant, rows[..n], e);
      assert rows == rows[..n] + [rows[n]];
      if NamesGroup(groups, tenant, rows[n]) {
        InRowsFor(groups, tenant, rows[n], e);
      }
    }
  }

  // ---------------------------------------------------------------- who gets what

  /** Everything `compile` decides from. */
  datatype Case = Case(document: Document, requests: seq<Request>, targets: seq<Target>, groups: Groups,
                       sightings: seq<Sighting>, tenant: Uuid)
  {
    ghost predicate Valid() {
      |targets| == |requests|
    }
  }

  predicate IsMirrored(document: Document) {
    document.sourceType in MIRROR_BIND_SOURCES
  }

  function BaseRows(c: Case): seq<AclEntry>
    requires c.Valid()
  {
    DirectEntries(c.document, c.targets, c.requests, c.tenant)
    + (if IsMirrored(c.document) then [] else Inherited(c.document, c.sightings))
  }

  function RowsBeforeDedup(c: Case): seq<AclEntry>
    requires c.Valid()
  {
    BaseRows(c) + (if IsMirrored(c.document) then [] else Expanded(c.groups, c.tenant, BaseRows(c)))
  }

  function CompiledRows(c: Case): seq<AclEntry>
    requires c.Valid()
  {
    NormalForm(RowsBeforeDedup(c))
  }

  /** A hint gave `level` to principal p. */
  ghost predicate DirectGrant(c: Case, p: Uuid, level: PermissionLevel)
    requires c.Valid()
  {
    exists i :: 0 <= i < |c.targets| && c.targets[i] == ToPrincipal(p) && c.requests[i].level == level
  }

  /** A hint gave `level` to group g. */
  ghost predicate DirectGroupGrant(c: Case, g: Uuid, level: PermissionLevel)
    requires c.Valid()
  {
    exists i :: 0 <= i < |c.targets| && c.targets[i] == ToGroup(g) && c.requests[i].level == level
  }

  /** The folder row `a` survives: it is the nearest allow of its identity, and
      no deny of that identity is as near. */
  ghost predicate SurvivingFolderGrant(c: Case, a: Sighting) {
    && !IsMirrored(c.document)
    && exists k :: NearestAllow(c.sightings, k) == Some(a) && Outranks(c.sightings, k)
  }

  ghost predicate InheritedGrant(c: Case, p: Uuid, level: PermissionLevel) {
    exists a :: SurvivingFolderGrant(c, a) && a.perm.principalId == Some(p) && a.perm.permission == level
  }

  ghost predicate InheritedGroupGrant(c: Case, g: Uuid, level: PermissionLevel) {
    exists a :: SurvivingFolderGrant(c, a) && a.perm.groupId == Some(g) && a.perm.permission == level
  }

  /** p is in a group of the tenant, however deeply nested, that was given `level`. */
  ghost predicate GroupGrant(c: Case, p: Uuid, level: PermissionLevel)
    requires c.Valid()
  {
    && !IsMirrored(c.document)
    && exists g :: (DirectGroupGrant(c, g, level) || InheritedGroupGrant(c, g, level))
                   && g in c.groups && c.groups[g].tenantId == c.tenant && IsMember(c.groups, c.tenant, g, p)
  }

  ghost predicate Granted(c: Case, p: Uuid, level: PermissionLevel)
    requires c.Valid()
  {
    DirectGrant(c, p, level) || InheritedGrant(c, p, level) || GroupGrant(c, p, level)
  }

  lemma {:induction false} InheritedRow(c: Case, e: AclEntry)
    requires !IsMirrored(c.document)
    ensures e in Inherited(c.document, c.sightings)
       <==> exists a :: SurvivingFolderGrant(c, a) && e == EntryFor(c.document, a)
  {
    var s := c.sightings;
    AllowedIdentitiesMeaning(s);
    KeptMeaning(c.document, s, AllowedIdentities(s), e);
    if e in Inherited(c.document, s) {
      var k :| k in AllowedIdentities(s) && Survives(s, k) && e == EntryFor(c.document, NearestAllow(s, k).value);
      SurvivesMeaning(s, k);
      assert SurvivingFolderGrant(c, NearestAllow(s, k).value);
    }
    if exists a :: SurvivingFolderGrant(c, a) && e == EntryFor(c.document, a) {
      var a :| SurvivingFolderGrant(c, a) && e == EntryFor(c.document, a);
      var k :| NearestAllow(s, k) == Some(a) && Outranks(s, k);
      SurvivesMeaning(s, k);
    }
  }

  /** Every row stands for the document, is an allow, and names whom and what a grant gave. */
  lemma {:induction false} BaseRowMeaning(c: Case, e: AclEntry)
    requires c.Valid() && e in BaseRows(c)
    ensures e.documentId == c.document.id && !e.isDeny
    ensures e.principalId.Some? ==> Granted(c, e.principalId.value, e.permission)
    ensures e.groupId.Some? ==>
              DirectGroupGrant(c, e.groupId.value, e.permission)
                  || InheritedGroupGrant(c, e.groupId.value, e.permission)
  {
    InDirectEntries(c.document, c.targets, c.requests, c.tenant, e);
    if e !in DirectEntries(c.document, c.targets, c.requests, c.tenant) {
      InheritedRow(c, e);
    }
  }

  lemma {:induction false} BaseRowExists(c: Case, who: Target, level: PermissionLevel) returns (e: AclEntry)
    requires c.Valid()
    requires match who
             case ToPrincipal(p) => DirectGrant(c, p, level) || InheritedGrant(c, p, level)
             case ToGroup(g) => DirectGroupGrant(c, g, level) || InheritedGroupGrant(c, g, level)
             case Unresolved => false
    ensures e in BaseRows(c) && e.permission == level
    ensures who.ToPrincipal? ==> e.principalId == Some(who.principal)
    ensures who.ToGroup? ==> e.groupId == Some(who.group)
  {
    if i :| 0 <= i < |c.targets| && c.targets[i] == who && c.requests[i].level == level {
      e := DirectEntry(c.document, who, level, c.tenant);
      DirectRowSpelled(c.document, who, level, c.tenant, e);
      InDirectEntries(c.document, c.targets, c.requests, c.tenant, e);
    } else {
      var a :| SurvivingFolderGrant(c, a) && a.perm.permission == level
               && (if who.ToPrincipal? then a.perm.principalId == Some(who.principal)
                   else a.perm.groupId == Some(who.group));
      e := EntryFor(c.document, a);
      InheritedRow(c, e);
    }
  }

  lemma {:induction false} RowIsGrant(c: Case, e: AclEntry)
    requires c.Valid() && e in RowsBeforeDedup(c)
    ensures e.documentId == c.document.id && !e.isDeny
    ensures e.principalId.Some? ==> Granted(c, e.principalId.value, e.permission)
  {
    if e in BaseRows(c) {
      BaseRowMeaning(c, e);
    } else {
      InExpanded(c.groups, c.tenant, BaseRows(c), e);
      var row :| row in BaseRows(c) && IsExpansionOf(c.groups, c.tenant, row, e);
      BaseRowMeaning(c, row);
    }
  }

  lemma {:induction false} GrantHasRow(c: Case, p: Uuid, level: PermissionLevel) returns (e: AclEntry)
    requires c.Valid() && Granted(c, p, level)
    ensures e in RowsBeforeDedup(c) && e.principalId == Some(p) && e.permission == level
  {
    if DirectGrant(c, p, level) || InheritedGrant(c, p, level) {
      e := BaseRowExists(c, ToPrincipal(p), level);
    } else {
      var g :| (DirectGroupGrant(c, g, level) || InheritedGroupGrant(c, g, level))
               && g in c.groups && c.groups[g].tenantId == c.tenant && IsMember(c.groups, c.tenant, g, p);
      var row := BaseRowExists(c, ToGroup(g), level);
      e := ExpandedEntry(row, p, c.tenant);
      assert IsExpansionOf(c.groups, c.tenant, row, e);
      InExpanded(c.groups, c.tenant, BaseRows(c), e);
    }
  }

  /** The row for p in a compiled list. */
  ghost predicate HasRow(rows: seq<AclEntry>, p: Uuid) {
    exists e :: e in rows && e.principalId == Some(p)
  }

  /** A compiled list has no deny row, at most one row for a principal, a row
      for p exactly when some source grants p something, and in it the highest
      level any source grants p. */
  lemma {:induction false} CompiledAccess(c: Case, p: Uuid)
    requires c.Valid()
    ensures HasRow(CompiledRows(c), p) <==> exists level :: Granted(c, p, level)
    ensures forall e :: e in CompiledRows(c) && e.principalId == Some(p) ==>
              Granted(c, p, e.permission) && forall level :: Granted(c, p, level) ==> Rank(level) <= Rank(e.permission)
    ensures forall i, j :: 0 <= i < j < |CompiledRows(c)| && CompiledRows(c)[i].principalId == Some(p) ==>
              CompiledRows(c)[j].principalId != Some(p)
    ensures forall e :: e in CompiledRows(c) ==> !e.isDeny && e.documentId == c.document.id
  {
    var rows, final := RowsBeforeDedup(c), CompiledRows(c);
    CompiledRowsAreRows(c);
    hide CompiledRows, RowsBeforeDedup, Granted, NormalForm, Position;
    forall e | e in final && e.principalId == Some(p)
      ensures Granted(c, p, e.permission) && forall level :: Granted(c, p, level) ==> Rank(level) <= Rank(e.permission)
    {
      HighestGrant(c, p, e);
    }
    if level :| Granted(c, p, level) {
      GrantIsCompiled(c, p, level);
    }
  }

  /** A principal that no group of the tenant lists, and to whom nothing is
      granted by name, has no row, whatever other tenants' groups list it. */
  lemma {:induction false} OtherTenantsGrantNothing(c: Case, p: Uuid)
    requires c.Valid()
    requires forall g :: g in c.groups && c.groups[g].tenantId == c.tenant ==> p !in c.groups[g].memberPrincipalIds
    requires forall level :: !DirectGrant(c, p, level) && !InheritedGrant(c, p, level)
    ensures forall e :: e in CompiledRows(c) ==> e.principalId != Some(p)
  {
    CompiledAccess(c, p);
    hide CompiledRows, DirectGrant, InheritedGrant;
    forall level ensures !Granted(c, p, level) {
    }
  }

  lemma {:induction false} GrantIsCompiled(c: Case, p: Uuid, level: PermissionLevel)
    requires c.Valid() && Granted(c, p, level)
    ensures HasRow(CompiledRows(c), p)
  {
    CompiledRowsAreRows(c);
    hide CompiledRows, RowsBeforeDedup, Granted;
    var final := CompiledRows(c);
    var e := GrantHasRow(c, p, level);
    var row := final[Position(final, KeyOf(e))];
    assert row in final && row.principalId == Some(p);
  }

  /** The normal form keeps rows only, one a key, and here all are allows of this document. */
  lemma {:induction false} CompiledRowsAreRows(c: Case)
    requires c.Valid()
    ensures DistinctKeys(CompiledRows(c))
    ensures forall e :: e in RowsBeforeDedup(c) ==> Position(CompiledRows(c), KeyOf(e)) < |CompiledRows(c)|
    ensures forall e :: e in CompiledRows(c) ==> e in RowsBeforeDedup(c) && !e.isDeny && e.documentId == c.document.id
  {
    var rows := RowsBeforeDedup(c);
    OneRowPerKey(rows);
    hide RowsBeforeDedup, NormalForm, Position;
    forall e | e in CompiledRows(c) ensures e in rows && !e.isDeny && e.documentId == c.document.id {
      KeptRowMeaning(rows, e);
      RowIsGrant(c, e);
    }
  }

  lemma {:induction false} HighestGrant(c: Case, p: Uuid, e: AclEntry)
    requires c.Valid() && e in CompiledRows(c) && e.principalId == Some(p)
    ensures Granted(c, p, e.permission)
    ensures forall level :: Granted(c, p, level) ==> Rank(level) <= Rank(e.permission)
  {
    var rows := RowsBeforeDedup(c);
    KeptRowMeaning(rows, e);
    RowIsGrant(c, e);
    forall level | Granted(c, p, level) ensures Rank(level) <= Rank(e.permission) {
      var w := GrantHasRow(c, p, level);
      RowIsGrant(c, w);
      assert KeyOf(w) == KeyOf(e);
    }
  }

  // ---------------------------------------------------------------- algorithm

  lemma {:induction false} NoRequests(dir: Directory, document: Document, tenant: Uuid)
    ensures ResolveAll(dir, [], tenant) == ([], dir) && DirectEntries(document, [], [], tenant) == []
  {
  }

  lemma {:induction false} OneMoreRequest(dir: Directory, document: Document, requests: seq<Request>, i: nat,
                                          tenant: Uuid, targets: seq<Target>, dir': Directory)
    requires i < |requests|
    requires (targets, dir') == ResolveAll(dir, requests[..i], tenant) && |targets| == i
    ensures var r := requests[i];
            var (target, dir'') := ResolveHint(dir', r.hint, tenant, r.answer, r.newId);
            && (targets + [target], dir'') == ResolveAll(dir, requests[..i + 1], tenant)
            && DirectEntries(document, targets + [target], requests[..i + 1], tenant)
               == DirectEntries(document, targets, requests[..i], tenant)
                  + (if target.Unresolved? then [] else [DirectEntry(document, target, r.level, tenant)])
  {
    var r := requests[i];
    var target := ResolveHint(dir', r.hint, tenant, r.answer, r.newId).0;
    assert requests[..i + 1][..i] == requests[..i];
    assert (targets + [target])[..i] == targets;
  }

  lemma {:induction false} TablesResolved(start: Directory, requests: seq<Request>, tenant: Uuid, targets: seq<Target>,
                                          end: Directory)
    requires Indexed(start) && (targets, end) == ResolveAll(start, requests, tenant)
    requires forall i :: 0 <= i < |requests| ==> requests[i].newId !in start.groups
    requires forall i, j :: 0 <= i < j < |requests| ==> requests[i].newId != requests[j].newId
    ensures Resolved(start, requests, tenant, targets, end)
  {
    var dirs := ResolvedSpelled(start, requests, tenant);
    hide Resolution;
  }

  lemma {:induction false} MirroredRows(document: Document)
    ensures IsMirrored(document) <==> document.sourceType in MIRROR_BIND_SOURCES
  {
  }

  lemma {:induction false} CaseRows(c: Case)
    requires c.Valid()
    ensures var direct := DirectEntries(c.document, c.targets, c.requests, c.tenant);
            var base := direct + Inherited(c.document, c.sightings);
            CompiledRows(c) == NormalForm(if IsMirrored(c.document) then direct
                                          else base + Expanded(c.groups, c.tenant, base))
  {
    var direct := DirectEntries(c.document, c.targets, c.requests, c.tenant);
    assert direct + [] + [] == direct;
  }

  class ACLCompiler {
    const repo: Repo
    const containerService: Service

    constructor (repo: Repo, containerService: Service)
      requires containerService.repo == repo
      ensures this.repo == repo && this.containerService == containerService
    {
      this.repo, this.containerService := repo, containerService;
    }

    function Tables(): Directory
      reads repo
    {
      Directory(repo.groups, repo.groupsByEmail, repo.groupsBySource)
    }

    /** The id a request would give a new group is unused and not promised to a later request. */
    ghost predicate IdsAreNew(requests: seq<Request>)
      reads repo
    {
      && (forall i :: 0 <= i < |requests| ==> requests[i].newId !in repo.groups)
      && (forall i, j :: 0 <= i < j < |requests| ==> requests[i].newId != requests[j].newId)
    }

    method ResolveGroup(hint: Hint, tenant: Uuid, newId: Uuid) returns (group: Group)
      requires repo.GroupsIndexed() && newId !in repo.groups
      modifies repo`groups, repo`groupsByEmail, repo`groupsBySource
      ensures repo.GroupsIndexed()
      ensures match old(FindGroup(Tables(), hint, tenant))
              case Some(g) => group == g && Tables() == old(Tables())
              case None => group == NewGroup(hint, tenant, newId) && Tables() == WithGroup(old(Tables()), group)
      ensures repo.groups.Keys <= old(repo.groups.Keys) + {newId}
    {
      var bySource := repo.GetGroupBySourceIdentity(hint.sourceType, hint.externalId, tenant);
      if bySource.Some? {
        return bySource.value;
      }
      if HintEmail(hint) != "" {
        var byEmail := repo.GetGroupByEmail(HintEmail(hint), tenant);
        if byEmail.Some? {
          return byEmail.value;
        }
      }
      group := Group(newId, tenant, hint.email, hint.sourceType, hint.externalId, [], []);
      repo.CreateGroup(group);
    }

    method CompileDirectEntries(document: Document, requests: seq<Request>, tenant: Uuid)
      returns (entries: seq<AclEntry>, ghost targets: seq<Target>)
      requires repo.GroupsIndexed() && IdsAreNew(requests)
      modifies repo`groups, repo`groupsByEmail, repo`groupsBySource
      ensures repo.GroupsIndexed()
      ensures (targets, Tables()) == ResolveAll(old(Tables()), requests, tenant)
      ensures Resolved(old(Tables()), requests, tenant, targets, Tables())
      ensures |targets| == |requests| && entries == DirectEntries(document, targets, requests, tenant)
    {
      entries, targets := [], [];
      assert Indexed(Tables());
      hide Indexed, Resolved, IsGroupHint, FindGroup, NewGroup, WithGroup;
      hide ResolveAll, DirectEntries, Repo.GroupsIndexed;
      assert ([], Tables()) == ResolveAll(Tables(), [], tenant) && DirectEntries(document, [], [], tenant) == [] by {
        NoRequests(Tables(), document, tenant);
      }
      for i := 0 to |requests|
        invariant repo.GroupsIndexed()
        invariant forall j :: i <= j < |requests| ==> requests[j].newId !in repo.groups
        invariant (targets, Tables()) == ResolveAll(old(Tables()), requests[..i], tenant)
        invariant |targets| == i && entries == DirectEntries(document, targets, requests[..i], tenant)
      {
        var r := requests[i];
        OneMoreRequest(old(Tables()), document, requests, i, tenant, targets, Tables());
        ghost var (target, _) := ResolveHint(Tables(), r.hint, tenant, r.answer, r.newId);
        if r.hint.sourceType !in MIRROR_BIND_SOURCES && IsGroupHint(Tables(), r.hint, tenant) {
          var group := ResolveGroup(r.hint, tenant, r.newId);
          entries := entries + [AclEntry(document.id, None, Some(group.id), r.level, "direct", None, false,
                                         document.sourceType, tenant)];
        } else if r.answer.Some? {
          entries := entries + [AclEntry(document.id, Some(r.answer.value), None, r.level,
                                         GrantedVia(document.sourceType), None, false, document.sourceType, tenant)];
        }
        targets := targets + [target];
      }
      assert requests[..|requests|] == requests;
      TablesResolved(old(Tables()), requests, tenant, targets, Tables());
    }

    method ExpandGroupMembership(entries: seq<AclEntry>, tenant: Uuid) returns (expanded: seq<AclEntry>)
      requires repo.GroupsIndexed()
      ensures expanded == Expanded(repo.groups, tenant, entries)
    {
      expanded := [];
      for i := 0 to |entries|
        invariant expanded == Expanded(repo.groups, tenant, entries[..i])
      {
        assert entries[..i + 1][..i] == entries[..i];
        var entry := entries[i];
        if entry.groupId.Some? && Resolves(repo.groups, tenant, entry.groupId.value) {
          var visited := new Visited();
          var members := ExpandGroupMembersSafe(repo.groups, repo.groups[entry.groupId.value], tenant, visited);
          expanded := expanded + RowsFor(entry, members, tenant);
        }
      }
      assert entries[..|entries|] == entries;
    }

    /** Hints, folders and groups to the rows of the document. The ghost results
        are what was looked at: whom each hint named and which chains the
        container service gave. */
    method Compile(document: Document, requests: seq<Request>, tenant: Uuid, now: int)
      returns (entries: seq<AclEntry>, ghost targets: seq<Target>, ghost chains: seq<seq<string>>)
      requires containerService.repo == repo && containerService.Valid()
      requires repo.GroupsIndexed() && IdsAreNew(requests)
      modifies repo`groups, repo`groupsByEmail, repo`groupsBySource, containerService
      ensures containerService.Valid() && repo.GroupsIndexed()
      ensures (targets, Tables()) == ResolveAll(old(Tables()), requests, tenant) && |targets| == |requests|
      ensures Resolved(old(Tables()), requests, tenant, targets, Tables())
      ensures IsMirrored(document) ==> chains == [] && unchanged(containerService)
      ensures !IsMirrored(document) ==>
                ChainsFrom(document.parentIds, document.tenantId, containerService.EvidenceAt(now), chains)
      ensures !IsMirrored(document) && old(AllExact(document.parentIds, document.tenantId, containerService)) ==>
                chains == PresentChains(repo.containerEdges, document.tenantId, document.parentIds)
      ensures entries == CompiledRows(Case(document, requests, targets, repo.groups,
                                           AllSightings(repo.containerAclEntries, document.tenantId, chains), tenant))
    {
      MirroredRows(document);
      hide *;
      var allEntries: seq<AclEntry>;
      allEntries, targets := CompileDirectEntries(document, requests, tenant);
      chains := [];
      if document.sourceType !in MIRROR_BIND_SOURCES {
        var inherited: seq<AclEntry>;
        inherited, chains := ComputeInheritedEntries(document, containerService, now);
        allEntries := allEntries + inherited;
        var expanded := ExpandGroupMembership(allEntries, tenant);
        allEntries := allEntries + expanded;
      }
      entries := ApplyDenyOverrides(allEntries);
      CaseRows(Case(document, requests, targets, repo.groups,
                  AllSightings(repo.containerAclEntries, document.tenantId, chains), tenant));
    }
  }
}
