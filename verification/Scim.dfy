/** Provisioning from an identity provider's feed
    (backend/app/services/scim_sync.py): users and groups of one tenant
    database, synchronised again and again from the same kind of feed. */
module Scim {
  import opened Prelude
  import opened Models

  /** A feed user. A missing `emails` list is None, an entry without `value` is None. */
  datatype ScimUser = ScimUser(
    id: string,
    emails: Option<seq<Option<string>>>,
    displayName: Option<string>,
    userName: Option<string>)

  datatype ScimGroup = ScimGroup(id: string, displayName: string, members: seq<Option<string>>)

  datatype User = User(
    tenantId: Uuid,
    idpSubject: string,
    email: string,
    displayName: string,
    sourceProfiles: ScimUser,
    status: string)

  type Uuid5 = string -> Uuid

  type Users = map<Uuid, User>

  // ---------------------------------------------------------------- one user

  /** `scim_user.get("emails", [{}])[0]` raises on an empty list. */
  predicate Readable(u: ScimUser) {
    u.emails.None? || u.emails.value != []
  }

  function EmailOf(u: ScimUser): string
    requires Readable(u)
  {
    if u.emails.Some? && u.emails.value[0].Some? then u.emails.value[0].value else ""
  }

  function NameOf(u: ScimUser): string {
    if u.displayName.Some? then u.displayName.value
    else if u.userName.Some? then u.userName.value
    else ""
  }

  /** The first listed email is e; without one e is blank. */
  ghost predicate CarriesEmail(u: ScimUser, e: string) {
    match u.emails
    case Some(listed) => listed != [] && e == if listed[0] == None then "" else listed[0].value
    case None => e == ""
  }

  /** n is the display name, without one the user name, without both blank. */
  ghost predicate CarriesName(u: ScimUser, n: string) {
    && (u.displayName != None ==> n == u.displayName.value)
    && (u.displayName == None && u.userName != None ==> n == u.userName.value)
    && (u.displayName == None && u.userName == None ==> n == "")
  }

  predicate FeedReadable(feed: seq<ScimUser>) {
    forall u :: u in feed && u.id != "" ==> Readable(u)
  }

  /** What one feed entry makes of the user row it names. */
  function Synced(row: Option<User>, u: ScimUser, tenant: Uuid): User
    requires Readable(u)
  {
    match row
    case None => User(tenant, u.id, EmailOf(u), NameOf(u), u, "active")
    case Some(user) =>
      if user.email != EmailOf(u) || user.displayName != NameOf(u)
      then user.(email := EmailOf(u), displayName := NameOf(u), sourceProfiles := u)
      else user
  }

  function Find<K, V>(m: map<K, V>, k: K): Option<V> {
    if k in m then Some(m[k]) else None
  }

  function SyncUser(users: Users, u: ScimUser, tenant: Uuid, uuid5: Uuid5): Users
    requires u.id != "" ==> Readable(u)
  {
    if u.id == "" then users else users[uuid5(u.id) := Synced(Find(users, uuid5(u.id)), u, tenant)]
  }

  function SyncedUsers(users: Users, feed: seq<ScimUser>, tenant: Uuid, uuid5: Uuid5): Users
    requires FeedReadable(feed)
    decreases |feed|
  {
    if feed == [] then users else SyncedUsers(SyncUser(users, feed[0], tenant, uuid5), feed[1..], tenant, uuid5)
  }

  // ---------------------------------------------------------------- one principal's row through a run

  function RowStep(row: Option<User>, u: ScimUser, p: Uuid, tenant: Uuid, uuid5: Uuid5): Option<User>
    requires u.id != "" ==> Readable(u)
  {
    if u.id != "" && uuid5(u.id) == p then Some(Synced(row, u, tenant)) else row
  }

  function RowAfter(row: Option<User>, feed: seq<ScimUser>, p: Uuid, tenant: Uuid, uuid5: Uuid5): Option<User>
    requires FeedReadable(feed)
    decreases |feed|
  {
    if feed == [] then row else RowAfter(RowStep(row, feed[0], p, tenant, uuid5), feed[1..], p, tenant, uuid5)
  }

  lemma {:induction false} RowsAreIndependent(users: Users, feed: seq<ScimUser>, p: Uuid, tenant: Uuid, uuid5: Uuid5)
    requires FeedReadable(feed)
    ensures Find(SyncedUsers(users, feed, tenant, uuid5), p) == RowAfter(Find(users, p), feed, p, tenant, uuid5)
    decreases |feed|
  {
    if feed != [] {
      RowsAreIndependent(SyncUser(users, feed[0], tenant, uuid5), feed[1..], p, tenant, uuid5);
    }
  }

  /** What a run never rewrites: who the row belongs to. */
  predicate SameCore(a: User, b: User) {
    a.tenantId == b.tenantId && a.idpSubject == b.idpSubject && a.status == b.status
  }

  predicate SameValue(a: User, b: User) {
    a.email == b.email && a.displayName == b.displayName
  }

  lemma {:induction false} CoreStays(user: User, feed: seq<ScimUser>, p: Uuid, tenant: Uuid, uuid5: Uuid5)
    requires FeedReadable(feed)
    ensures var after := RowAfter(Some(user), feed, p, tenant, uuid5); after.Some? && SameCore(user, after.value)
    decreases |feed|
  {
    if feed != [] {
      CoreStays(RowStep(Some(user), feed[0], p, tenant, uuid5).value, feed[1..], p, tenant, uuid5);
    }
  }

  /** First and second run side by side, after the same entries: the rows are
      equal, or the second run has not moved yet, or both show a value that is
      not the final one, so that a later entry must rewrite both. */
  predicate InStep(first: Option<User>, second: User, end: User) {
    || first == Some(second)
    || second == end
    || (first.Some? && SameValue(first.value, second) && SameCore(first.value, second) && !SameValue(second, end))
  }

  lemma {:induction false} SecondRunSettles(first: Option<User>, second: User, end: User, feed: seq<ScimUser>,
                         p: Uuid, tenant: Uuid, uuid5: Uuid5)
    requires FeedReadable(feed)
    requires RowAfter(first, feed, p, tenant, uuid5) == Some(end)
    requires InStep(first, second, end) && SameCore(second, end)
    ensures RowAfter(Some(second), feed, p, tenant, uuid5) == Some(end)
    decreases |feed|
  {
    if feed != [] {
      var first', second' := RowStep(first, feed[0], p, tenant, uuid5),
          RowStep(Some(second), feed[0], p, tenant, uuid5).value;
      if first'.Some? {
        CoreStays(first'.value, feed[1..], p, tenant, uuid5);
      }
      SecondRunSettles(first', second', end, feed[1..], p, tenant, uuid5);
    }
  }

  /** Running the same user feed again leaves every row as it is, repeated ids
      and conflicting entries included. */
  lemma {:induction false} UserFeedIsIdempotent(users: Users, feed: seq<ScimUser>, tenant: Uuid, uuid5: Uuid5)
    requires FeedReadable(feed)
    ensures var once := SyncedUsers(users, feed, tenant, uuid5); SyncedUsers(once, feed, tenant, uuid5) == once
  {
    var once := SyncedUsers(users, feed, tenant, uuid5);
    var twice := SyncedUsers(once, feed, tenant, uuid5);
    forall p ensures Find(twice, p) == Find(once, p) {
      RowsAreIndependent(users, feed, p, tenant, uuid5);
      RowsAreIndependent(once, feed, p, tenant, uuid5);
      if Find(once, p).Some? {
        SecondRunSettles(Find(users, p), once[p], once[p], feed, p, tenant, uuid5);
      } else {
        assert Find(users, p).None? by {
          if p in users { CoreStays(users[p], feed, p, tenant, uuid5); }
        }
      }
    }
    SameMap(twice, once);
  }

  lemma {:induction false} SameMap<K, V>(a: map<K, V>, b: map<K, V>)
    requires forall k :: Find(a, k) == Find(b, k)
    ensures a == b
  {
    forall k ensures k in a <==> k in b {
      assert Find(a, k) == Find(b, k);
    }
    forall k | k in a ensures a[k] == b[k] {
      assert Find(a, k) == Find(b, k);
    }
  }

  /** The last entry for a principal decides its email and name; the row sits
      under the id derived from the subject, on every run. */
  lemma {:induction false} LastEntryDecides(users: Users, feed: seq<ScimUser>, tenant: Uuid, uuid5: Uuid5, k: nat)
    requires FeedReadable(feed) && k < |feed| && feed[k].id != ""
    requires forall j :: k < j < |feed| && feed[j].id != "" ==> uuid5(feed[j].id) != uuid5(feed[k].id)
    ensures var after := SyncedUsers(users, feed, tenant, uuid5);
            var p := uuid5(feed[k].id);
            p in after && CarriesEmail(feed[k], after[p].email) && CarriesName(feed[k], after[p].displayName)
    decreases |feed|
  {
    var users' := SyncUser(users, feed[0], tenant, uuid5);
    var p := uuid5(feed[k].id);
    if k > 0 {
      assert feed[1..][k - 1] == feed[k];
      LastEntryDecides(users', feed[1..], tenant, uuid5, k - 1);
    } else {
      RowsAreIndependent(users', feed[1..], p, tenant, uuid5);
      UnnamedRowStays(Find(users', p), feed[1..], p, tenant, uuid5);
    }
  }

  lemma {:induction false} UnnamedRowStays(row: Option<User>, feed: seq<ScimUser>, p: Uuid, tenant: Uuid, uuid5: Uuid5)
    requires FeedReadable(feed)
    requires forall u :: u in feed && u.id != "" ==> uuid5(u.id) != p
    ensures RowAfter(row, feed, p, tenant, uuid5) == row
  {
    if feed != [] {
      UnnamedRowStays(row, feed[1..], p, tenant, uuid5);
    }
  }

  /** The stored profile is the feed entry the email and name were taken from. */
  ghost predicate ProfileTrue(user: User) {
    CarriesEmail(user.sourceProfiles, user.email) && CarriesName(user.sourceProfiles, user.displayName)
  }

  /** A run never hands a row to another tenant or subject; a row it makes is for
      a feed entry of that principal; and profiles that told the truth still do. */
  lemma {:induction false} RowsStayTrue(row: Option<User>, feed: seq<ScimUser>, p: Uuid, tenant: Uuid, uuid5: Uuid5)
    requires FeedReadable(feed)
    ensures var after := RowAfter(row, feed, p, tenant, uuid5);
            && (row.Some? ==> after.Some? && SameCore(row.value, after.value))
            && (row.None? && after.Some? ==>
                  && after.value.tenantId == tenant && after.value.status == "active"
                  && exists u :: u in feed && u.id == after.value.idpSubject && uuid5(u.id) == p)
            && (after.Some? && (row.Some? ==> ProfileTrue(row.value)) ==> ProfileTrue(after.value))
    decreases |feed|
  {
    if feed != [] {
      var next := RowStep(row, feed[0], p, tenant, uuid5);
      RowsStayTrue(next, feed[1..], p, tenant, uuid5);
      assert feed[0] in feed && forall u :: u in feed[1..] ==> u in feed;
    }
  }

  // ---------------------------------------------------------------- groups

  /** A group with its memberships, as the rest of the system sees it. */
  datatype GroupView = GroupView(displayName: string, syncVersion: nat, members: set<Uuid>)

  type Groups = map<string, GroupView>

  function MemberSet(members: seq<Option<string>>, uuid5: Uuid5): set<Uuid> {
    set m | m in members && m.Some? && m.value != "" :: uuid5(m.value)
  }

  /** The members of a feed group are the principals of its members that have a value. */
  lemma {:induction false} InMemberSet(members: seq<Option<string>>, uuid5: Uuid5, p: Uuid)
    ensures p in MemberSet(members, uuid5) <==>
        exists i :: 0 <= i < |members| && members[i] != None && members[i] != Some("")
                    && uuid5(members[i].value) == p
  {
    if p in MemberSet(members, uuid5) {
      var m :| m in members && m.Some? && m.value != "" && uuid5(m.value) == p;
      var i :| 0 <= i < |members| && members[i] == m;
    }
  }

  function SyncedGroup(row: Option<GroupView>, g: ScimGroup, uuid5: Uuid5): GroupView {
    var members := MemberSet(g.members, uuid5);
    match row
    case None => GroupView(g.displayName, 1, members)
    case Some(v) => if v.members == members then v else v.(members := members, syncVersion := v.syncVersion + 1)
  }

  function SyncGroup(groups: Groups, g: ScimGroup, uuid5: Uuid5): Groups {
    if g.id == "" then groups else groups[g.id := SyncedGroup(Find(groups, g.id), g, uuid5)]
  }

  function SyncedGroups(groups: Groups, feed: seq<ScimGroup>, uuid5: Uuid5): Groups
    decreases |feed|
  {
    if feed == [] then groups else SyncedGroups(SyncGroup(groups, feed[0], uuid5), feed[1..], uuid5)
  }

  function GroupAfter(row: Option<GroupView>, feed: seq<ScimGroup>, id: string, uuid5: Uuid5): Option<GroupView>
    decreases |feed|
  {
    if feed == [] then row
    else GroupAfter(if feed[0].id == id then Some(SyncedGroup(row, feed[0], uuid5)) else row, feed[1..], id, uuid5)
  }

  lemma {:induction false} GroupsAreIndependent(groups: Groups, feed: seq<ScimGroup>, id: string, uuid5: Uuid5)
    requires id != ""
    ensures Find(SyncedGroups(groups, feed, uuid5), id) == GroupAfter(Find(groups, id), feed, id, uuid5)
    decreases |feed|
  {
    if feed != [] {
      GroupsAreIndependent(SyncGroup(groups, feed[0], uuid5), feed[1..], id, uuid5);
    }
  }

  /** The blank key is never written. */
  lemma {:induction false} BlankKeyStays(groups: Groups, feed: seq<ScimGroup>, uuid5: Uuid5)
    ensures Find(SyncedGroups(groups, feed, uuid5), "") == Find(groups, "")
    decreases |feed|
  {
    if feed != [] {
      BlankKeyStays(SyncGroup(groups, feed[0], uuid5), feed[1..], uuid5);
    }
  }

  /** Every entry for this id names the member set s. */
  predicate Names(feed: seq<ScimGroup>, id: string, s: set<Uuid>, uuid5: Uuid5) {
    forall g :: g in feed && g.id == id ==> MemberSet(g.members, uuid5) == s
  }

  /** A group row stays as it is exactly when the feed names no other members
      for it; otherwise its version has risen. */
  lemma {:induction false} GroupStaysIff(v: GroupView, feed: seq<ScimGroup>, id: string, uuid5: Uuid5)
    ensures var after := GroupAfter(Some(v), feed, id, uuid5);
            && after.Some? && after.value.syncVersion >= v.syncVersion
            && after.value.displayName == v.displayName
            && (after == Some(v) <==> Names(feed, id, v.members, uuid5))
            && (after != Some(v) ==> after.value.syncVersion > v.syncVersion)
    decreases |feed|
  {
    if feed != [] {
      var next := if feed[0].id == id then SyncedGroup(Some(v), feed[0], uuid5) else v;
      GroupStaysIff(next, feed[1..], id, uuid5);
      assert feed == [feed[0]] + feed[1..];
    }
  }

  /** Membership after a run is what the last entry for the id says. */
  lemma {:induction false} LastGroupDecides(row: Option<GroupView>, feed: seq<ScimGroup>, id: string, uuid5: Uuid5)
    requires exists g :: g in feed && g.id == id
    ensures var after := GroupAfter(row, feed, id, uuid5);
            && after.Some?
            && (exists g :: g in feed && g.id == id && after.value.members == MemberSet(g.members, uuid5))
    decreases |feed|
  {
    assert feed == [feed[0]] + feed[1..];
    var next := if feed[0].id == id then Some(SyncedGroup(row, feed[0], uuid5)) else row;
    if exists g :: g in feed[1..] && g.id == id {
      LastGroupDecides(next, feed[1..], id, uuid5);
    } else {
      GroupStaysIff(next.value, feed[1..], id, uuid5);
    }
  }

  /** No id occurs with two different member sets. */
  predicate Consistent(feed: seq<ScimGroup>, uuid5: Uuid5) {
    forall g, h :: g in feed && h in feed && g.id == h.id != "" ==>
        MemberSet(g.members, uuid5) == MemberSet(h.members, uuid5)
  }

  /** A second run of a group feed changes nothing exactly when the feed does
      not contradict itself; otherwise versions rise on every run. */
  lemma {:induction false} GroupFeedIdempotentIff(groups: Groups, feed: seq<ScimGroup>, uuid5: Uuid5)
    ensures var once := SyncedGroups(groups, feed, uuid5);
            SyncedGroups(once, feed, uuid5) == once <==> Consistent(feed, uuid5)
  {
    var once := SyncedGroups(groups, feed, uuid5);
    var twice := SyncedGroups(once, feed, uuid5);
    forall id | id != "" ensures Find(twice, id) == Find(once, id) <==> ConsistentFor(feed, id, uuid5) {
      SecondRunOfGroup(groups, feed, id, uuid5);
    }
    BlankKeyStays(once, feed, uuid5);
    hide SyncedGroups;
    if Consistent(feed, uuid5) {
      forall id ensures Find(twice, id) == Find(once, id) {
        assert id != "" ==> ConsistentFor(feed, id, uuid5);
      }
      SameMap(twice, once);
    } else {
      var g, h :| g in feed && h in feed && g.id == h.id != ""
          && MemberSet(g.members, uuid5) != MemberSet(h.members, uuid5);
      assert !ConsistentFor(feed, g.id, uuid5);
    }
  }

  predicate ConsistentFor(feed: seq<ScimGroup>, id: string, uuid5: Uuid5) {
    forall g, h :: g in feed && h in feed && g.id == h.id == id ==>
        MemberSet(g.members, uuid5) == MemberSet(h.members, uuid5)
  }

  lemma {:induction false} SecondRunOfGroup(groups: Groups, feed: seq<ScimGroup>, id: string, uuid5: Uuid5)
    requires id != ""
    ensures var once := SyncedGroups(groups, feed, uuid5);
            Find(SyncedGroups(once, feed, uuid5), id) == Find(once, id) <==> ConsistentFor(feed, id, uuid5)
  {
    var once := SyncedGroups(groups, feed, uuid5);
    GroupsAreIndependent(groups, feed, id, uuid5);
    GroupsAreIndependent(once, feed, id, uuid5);
    if g :| g in feed && g.id == id {
      LastGroupDecides(Find(groups, id), feed, id, uuid5);
      GroupStaysIff(once[id], feed, id, uuid5);
    } else {
      AbsentGroupStays(Find(once, id), feed, id, uuid5);
    }
  }

  lemma {:induction false} AbsentGroupStays(row: Option<GroupView>, feed: seq<ScimGroup>, id: string, uuid5: Uuid5)
    requires forall g :: g in feed ==> g.id != id
    ensures GroupAfter(row, feed, id, uuid5) == row
  {
    if feed != [] {
      AbsentGroupStays(row, feed[1..], id, uuid5);
    }
  }

  /** In a feed that does not contradict itself a run gives a group the feed's
      members; a new group starts at version 1, an existing group's version
      rises by one exactly when its set changed, and its name never changes. */
  lemma {:induction false} VersionCountsChanges(groups: Groups, feed: seq<ScimGroup>, g: ScimGroup, uuid5: Uuid5)
    requires g in feed && g.id != "" && Names(feed, g.id, MemberSet(g.members, uuid5), uuid5)
    ensures var after, s := SyncedGroups(groups, feed, uuid5), MemberSet(g.members, uuid5);
            && g.id in after && after[g.id].members == s
            && (g.id !in groups ==> after[g.id].syncVersion == 1)
            && (g.id in groups ==>
                  && after[g.id].displayName == groups[g.id].displayName
                  && after[g.id].syncVersion == groups[g.id].syncVersion + (if groups[g.id].members == s then 0 else 1))
  {
    GroupsAreIndependent(groups, feed, g.id, uuid5);
    NamedGroupAfter(Find(groups, g.id), feed, g, uuid5);
  }

  lemma {:induction false} NamedGroupAfter(row: Option<GroupView>, feed: seq<ScimGroup>, g: ScimGroup, uuid5: Uuid5)
    requires g in feed && Names(feed, g.id, MemberSet(g.members, uuid5), uuid5)
    ensures exists h ::
              h in feed && h.id == g.id && GroupAfter(row, feed, g.id, uuid5) == Some(SyncedGroup(row, h, uuid5))
  {
    assert feed == [feed[0]] + feed[1..];
    if feed[0].id == g.id {
      GroupStaysIff(SyncedGroup(row, feed[0], uuid5), feed[1..], g.id, uuid5);
    } else {
      NamedGroupAfter(row, feed[1..], g, uuid5);
    }
  }

  /** A group the feed does not name is left alone. */
  lemma {:induction false} UnnamedGroupUntouched(groups: Groups, feed: seq<ScimGroup>, id: string, uuid5: Uuid5)
    requires id != "" && forall g :: g in feed ==> g.id != id
    ensures Find(SyncedGroups(groups, feed, uuid5), id) == Find(groups, id)
  {
    GroupsAreIndependent(groups, feed, id, uuid5);
    AbsentGroupStays(Find(groups, id), feed, id, uuid5);
  }

  // ---------------------------------------------------------------- the service

  /** A row of the `groups` table. */
  datatype GroupRow = GroupRow(groupId: nat, displayName: string, syncVersion: nat)

  /** Rows of `group_memberships`: (group id, principal id), unique together. */
  type Memberships = set<(nat, Uuid)>

  function MembersOf(memberships: Memberships, groupId: nat): set<Uuid> {
    set r | r in memberships && r.0 == groupId :: r.1
  }

  function WithMembers(memberships: Memberships, groupId: nat, members: set<Uuid>): Memberships {
    (set r | r in memberships && r.0 != groupId) + (set p | p in members :: (groupId, p))
  }

  function ViewOf(rows: map<string, GroupRow>, memberships: Memberships): Groups {
    map k | k in rows :: GroupView(rows[k].displayName, rows[k].syncVersion, MembersOf(memberships, rows[k].groupId))
  }

  /** Group ids are handed out once. */
  ghost predicate IdsApart(rows: map<string, GroupRow>, memberships: Memberships, nextId: nat) {
    && (forall k :: k in rows ==> rows[k].groupId < nextId)
    && (forall k, l :: k in rows && l in rows && k != l ==> rows[k].groupId != rows[l].groupId)
    && (forall r :: r in memberships ==> r.0 < nextId)
  }

  lemma {:induction false} WithMembersMeaning(memberships: Memberships, groupId: nat, members: set<Uuid>, other: nat)
    ensures MembersOf(WithMembers(memberships, groupId, members), other)
         == if other == groupId then members else MembersOf(memberships, other)
  {
    var after := WithMembers(memberships, groupId, members);
    forall p ensures p in MembersOf(after, other) <==>
        p in if other == groupId then members else MembersOf(memberships, other) {
      assert p in MembersOf(after, other) <==> (other, p) in after;
      assert p in MembersOf(memberships, other) <==> (other, p) in memberships;
    }
  }

  /** Putting one group's row and members in place is one step of the view. */
  lemma {:induction false} ViewStep(rows: map<string, GroupRow>, memberships: Memberships, nextId: nat, key: string,
                                    row: GroupRow, members: set<Uuid>)
    requires IdsApart(rows, memberships, nextId)
    requires if key in rows then row.groupId == rows[key].groupId else row.groupId == nextId
    ensures var rows', memberships' := rows[key := row], WithMembers(memberships, row.groupId, members);
            && ViewOf(rows', memberships') == ViewOf(rows,
                memberships)[key := GroupView(row.displayName, row.syncVersion, members)]
            && IdsApart(rows', memberships', nextId + 1)
            && (key in rows ==> IdsApart(rows', memberships', nextId))
  {
    var rows', memberships' := rows[key := row], WithMembers(memberships, row.groupId, members);
    var view := GroupView(row.displayName, row.syncVersion, members);
    var before, after := ViewOf(rows, memberships), ViewOf(rows', memberships');
    forall k ensures Find(after, k) == Find(before[key := view], k) {
      if k in rows' {
        WithMembersMeaning(memberships, row.groupId, members, rows'[k].groupId);
        assert after[k] == if k == key then view else before[k];
      }
    }
    SameMap(after, before[key := view]);
  }

  /** What the counters of a run say about the state it started from. */
  ghost predicate Tally(start: Groups, now: Groups, created: nat, changes: nat) {
    && |now| == |start| + created
    && (created == 0 && changes == 0 ==> now == start)
    && (created == 0 ==> now.Keys == start.Keys)
    && (forall k :: k in start ==> k in now && now[k].syncVersion >= start[k].syncVersion)
    && (created == 0 && changes > 0 ==> exists k :: k in start && now[k].syncVersion > start[k].syncVersion)
  }

  lemma {:induction false} TallyStep(start: Groups, before: Groups, created: nat, changes: nat, g: ScimGroup,
                                     uuid5: Uuid5)
    requires Tally(start, before, created, changes) && g.id != ""
    ensures Tally(start, SyncGroup(before, g, uuid5), created + (if g.id in before then 0 else 1),
                  changes + if g.id in before && before[g.id].members != MemberSet(g.members, uuid5) then 1 else 0)
  {
    var s := MemberSet(g.members, uuid5);
    hide MemberSet;
    var after := SyncGroup(before, g, uuid5);
    if g.id in before && before[g.id].members == s {
      assert after == before;
    } else if g.id in before && created == 0 {
      assert g.id in start && after[g.id].syncVersion > start[g.id].syncVersion;
    }
  }

  datatype Stats = Stats(created: nat, updated: nat, same: nat)

  datatype GroupStats = GroupStats(created: nat, updated: nat, membershipChanges: nat)

  /** The feed entries that carry an id. */
  ghost function NamedUsers(feed: seq<ScimUser>): nat {
    if feed == [] then 0
    else NamedUsers(feed[..|feed| - 1]) + (if feed[|feed| - 1].id != "" then 1 else 0)
  }

  ghost function NamedGroups(feed: seq<ScimGroup>): nat {
    if feed == [] then 0
    else NamedGroups(feed[..|feed| - 1]) + (if feed[|feed| - 1].id != "" then 1 else 0)
  }

  class ScimSyncService {
    const tenant: Uuid
    const uuid5: Uuid5
    var users: Users
    var groups: map<string, GroupRow>
    var memberships: Memberships
    var nextGroupId: nat

    constructor (tenant: Uuid, uuid5: Uuid5)
      ensures this.tenant == tenant && this.uuid5 == uuid5
      ensures users == map[] && View() == map[] && Valid()
    {
      this.tenant, this.uuid5 := tenant, uuid5;
      users, groups, memberships, nextGroupId := map[], map[], {}, 0;
    }

    ghost predicate Valid()
      reads this
    {
      IdsApart(groups, memberships, nextGroupId)
    }

    ghost function View(): Groups
      reads this
    {
      ViewOf(groups, memberships)
    }

    /** `sync_users`: None is the IndexError of an empty `emails` list; the
        session is then dropped and the table is as it was. */
    method SyncUsers(scimUsers: seq<ScimUser>) returns (stats: Option<Stats>)
      modifies `users
      ensures stats.Some? <==> forall u :: u in scimUsers && u.id != "" ==> u.emails != Some([])
      ensures stats.Some? ==> FeedReadable(scimUsers) && users == SyncedUsers(old(users), scimUsers, tenant, uuid5)
      ensures stats.None? ==> users == old(users)
      ensures stats.Some? ==> |users| == |old(users)| + stats.value.created
      ensures stats.Some? ==>
                stats.value.created + stats.value.updated + stats.value.same == NamedUsers(scimUsers)
      ensures stats.Some? && stats.value.created == 0 && stats.value.updated == 0 ==> users == old(users)
    {
      var session := users;
      var created, updated, same := 0, 0, 0;
      for i := 0 to |scimUsers|
        invariant users == old(users) && |session| == |users| + created
        invariant created == 0 && updated == 0 ==> session == users
        invariant created + updated + same == NamedUsers(scimUsers[..i])
        invariant FeedReadable(scimUsers[..i])
        invariant FeedReadable(scimUsers) ==>
            SyncedUsers(users, scimUsers, tenant, uuid5) == SyncedUsers(session, scimUsers[i..], tenant, uuid5)
      {
        var u := scimUsers[i];
        assert FeedReadable(scimUsers) ==> scimUsers[i..][0] == u && scimUsers[i..][1..] == scimUsers[i + 1..];
        assert scimUsers[..i + 1] == scimUsers[..i] + [u] && scimUsers[..i + 1][..i] == scimUsers[..i];
        if u.id != "" {
          var principalId := uuid5(u.id);
          if u.emails == Some([]) {
            return None;
          }
          var email, displayName := EmailOf(u), NameOf(u);
          if principalId in session {
            var existing := session[principalId];
            if existing.email != email || existing.displayName != displayName {
              session := session[principalId := existing.(email := email, displayName := displayName,
                  sourceProfiles := u)];
              updated := updated + 1;
            } else {
              assert session[principalId := existing] == session;
              same := same + 1;
            }
          } else {
            session := session[principalId := User(tenant, u.id, email, displayName, u, "active")];
            created := created + 1;
          }
        }
      }
      assert scimUsers[..|scimUsers|] == scimUsers && scimUsers[|scimUsers|..] == [];
      users := session;
      stats := Some(Stats(created, updated, same));
    }

    /** `_update_group_membership`: remove who is gone, add who is new. */
    method UpdateGroupMembership(groupId: nat, members: seq<Option<string>>) returns (changed: bool)
      modifies `memberships
      ensures memberships == WithMembers(old(memberships), groupId, MemberSet(members, uuid5))
      ensures forall g, p :: (g, p) in memberships <==>
                if g == groupId then p in MemberSet(members, uuid5) else (g, p) in old(memberships)
      ensures changed <==> MembersOf(old(memberships), groupId) != MemberSet(members, uuid5)
      ensures !changed ==> memberships == old(memberships)
    {
      var existing := MembersOf(memberships, groupId);
      var wanted: set<Uuid> := {};
      for i := 0 to |members|
        invariant wanted == MemberSet(members[..i], uuid5)
      {
        assert members[..i + 1] == members[..i] + [members[i]];
        if members[i].Some? && members[i].value != "" {
          wanted := wanted + {uuid5(members[i].value)};
        }
      }
      assert members[..|members|] == members;
      var toAdd, toRemove := wanted - existing, existing - wanted;
      if toAdd == {} && toRemove == {} {
        assert wanted == existing;
        assert memberships == WithMembers(memberships, groupId, wanted);
        return false;
      }
      memberships := set r | r in memberships && !(r.0 == groupId && r.1 in toRemove);
      memberships := memberships + set p | p in toAdd :: (groupId, p);
      changed := true;
    }

    /** One feed entry: a known group gets the feed's members, and a new version
        if they differ; an unknown group is created with them. */
    method SyncGroupEntry(g: ScimGroup) returns (isNew: bool, changed: bool)
      requires Valid() && g.id != ""
      modifies `groups, `memberships, `nextGroupId
      ensures Valid() && View() == SyncGroup(old(View()), g, uuid5)
      ensures isNew <==> g.id !in old(View())
      ensures changed <==> !isNew && old(View())[g.id].members != MemberSet(g.members, uuid5)
    {
      isNew, changed := g.id !in groups, false;
      ghost var members := MemberSet(g.members, uuid5);
      if !isNew {
        var existing := groups[g.id];
        changed := UpdateGroupMembership(existing.groupId, g.members);
        var row := if changed then existing.(syncVersion := existing.syncVersion + 1) else existing;
        ViewStep(old(groups), old(memberships), nextGroupId, g.id, row, members);
        groups := groups[g.id := row];
      } else {
        var row := GroupRow(nextGroupId, g.displayName, 1);
        ViewStep(groups, memberships, nextGroupId, g.id, row, members);
        groups := groups[g.id := row];
        nextGroupId := nextGroupId + 1;
        var _ := UpdateGroupMembership(row.groupId, g.members);
      }
    }

    /** `sync_groups` */
    method SyncGroups(scimGroups: seq<ScimGroup>) returns (stats: GroupStats)
      requires Valid()
      modifies `groups, `memberships, `nextGroupId
      ensures Valid() && View() == SyncedGroups(old(View()), scimGroups, uuid5)
      ensures |View()| == |old(View())| + stats.created
      ensures stats.created + stats.updated == NamedGroups(scimGroups)
      ensures stats.created == 0 && stats.membershipChanges == 0 <==> View() == old(View())
    {
      hide MemberSet, SyncedGroup, MembersOf, IdsApart;
      var created, updated, membershipChanges := 0, 0, 0;
      ghost var start := View();
      for i := 0 to |scimGroups|
        invariant Valid() && Tally(start, View(), created, membershipChanges)
        invariant created + updated == NamedGroups(scimGroups[..i])
        invariant SyncedGroups(start, scimGroups, uuid5) == SyncedGroups(View(), scimGroups[i..], uuid5)
      {
        var g := scimGroups[i];
        assert scimGroups[i..][0] == g && scimGroups[i..][1..] == scimGroups[i + 1..];
        assert scimGroups[..i + 1][..i] == scimGroups[..i];
        if g.id != "" {
          ghost var before := View();
          var isNew, changed := SyncGroupEntry(g);
          TallyStep(start, before, created, membershipChanges, g, uuid5);
          created := created + if isNew then 1 else 0;
          updated := updated + if isNew then 0 else 1;
          membershipChanges := membershipChanges + if changed then 1 else 0;
        }
      }
      assert scimGroups[|scimGroups|..] == [] && scimGroups[..|scimGroups|] == scimGroups;
      stats := GroupStats(created, updated, membershipChanges);
    }
  }
}
