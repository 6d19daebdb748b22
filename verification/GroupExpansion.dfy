/** Nested group membership: `ACLCompiler._expand_group_members_safe`
    (backend/app/acl/compiler.py) as a depth-first walk, and what it reaches. */
module GroupExpansion {
  import opened Prelude
  import opened Models

  type Groups = map<Uuid, Group>

  /** `CanonicalRepo.get_group` finds `id` in this tenant. */
  predicate Resolves(groups: Groups, tenant: Uuid, id: Uuid) {
    id in groups && groups[id].tenantId == tenant
  }

  /** The groups a walk from `id` adds to `visited`, in visiting order. */
  function Order(groups: Groups, tenant: Uuid, id: Uuid, visited: set<Uuid>): seq<Uuid>
    requires Resolves(groups, tenant, id)
    decreases groups.Keys - visited, 0
  {
    if id in visited then []
    else [id] + OrderAll(groups, tenant, groups[id].memberGroupIds, visited + {id})
  }

  /** The same for a list of nested ids, each walk seeing what the earlier ones visited. */
  function OrderAll(groups: Groups, tenant: Uuid, ids: seq<Uuid>, visited: set<Uuid>): seq<Uuid>
    decreases groups.Keys - visited, |ids|
  {
    if ids == [] then []
    else
      var first := if Resolves(groups, tenant, ids[0]) then Order(groups, tenant, ids[0], visited) else [];
      first + OrderAll(groups, tenant, ids[1..], visited + ToSet(first))
  }

  /** The direct members of the listed groups, concatenated. */
  function Members(groups: Groups, order: seq<Uuid>): seq<Uuid>
    requires forall g :: g in order ==> g in groups
  {
    if order == [] then []
    else groups[order[0]].memberPrincipalIds + Members(groups, order[1..])
  }

  // ---------------------------------------------------------------- reachability

  /** `b` is a nested group of `a`, and the repository holds it under the tenant. */
  ghost predicate Nests(groups: Groups, tenant: Uuid, a: Uuid, b: Uuid) {
    a in groups && b in groups[a].memberGroupIds && b in groups && groups[b].tenantId == tenant
  }

  ghost predicate IsPath(groups: Groups, tenant: Uuid, p: seq<Uuid>, a: Uuid, b: Uuid) {
    && |p| > 0 && p[0] == a && p[|p| - 1] == b
    && forall i :: 0 <= i < |p| - 1 ==> Nests(groups, tenant, p[i], p[i + 1])
  }

  ghost predicate Reachable(groups: Groups, tenant: Uuid, a: Uuid, b: Uuid) {
    exists p :: IsPath(groups, tenant, p, a, b)
  }

  lemma {:induction false} ReachesItself(groups: Groups, tenant: Uuid, a: Uuid)
    ensures Reachable(groups, tenant, a, a)
  {
    assert IsPath(groups, tenant, [a], a, a);
  }

  lemma {:induction false} ReachesThrough(groups: Groups, tenant: Uuid, a: Uuid, b: Uuid, c: Uuid)
    requires Nests(groups, tenant, a, b) && Reachable(groups, tenant, b, c)
    ensures Reachable(groups, tenant, a, c)
  {
    var p :| IsPath(groups, tenant, p, b, c);
    assert IsPath(groups, tenant, [a] + p, a, c);
  }

  // ---------------------------------------------------------------- the walk

  /** `order` is new, without repeats, and closed under nesting together with `visited`. */
  ghost predicate Explores(groups: Groups, tenant: Uuid, order: seq<Uuid>, visited: set<Uuid>) {
    && Distinct(order)
    && (forall g :: g in order ==> g !in visited && g in groups && groups[g].tenantId == tenant)
    && (forall g, h :: g in order && Nests(groups, tenant, g, h) ==> h in visited || h in order)
  }

  lemma {:induction false} ExploresConcat(groups: Groups, tenant: Uuid, a: seq<Uuid>, b: seq<Uuid>, visited: set<Uuid>)
    requires Explores(groups, tenant, a, visited)
    requires Explores(groups, tenant, b, visited + ToSet(a))
    ensures Explores(groups, tenant, a + b, visited)
  {
    forall i, j | 0 <= i < j < |a + b| ensures (a + b)[i] != (a + b)[j] {
      if i < |a| <= j {
        assert b[j - |a|] in b && a[i] in ToSet(a);
      }
    }
  }

  lemma {:induction false} OrderExplores(groups: Groups, tenant: Uuid, id: Uuid, visited: set<Uuid>)
    requires Resolves(groups, tenant, id)
    ensures Explores(groups, tenant, Order(groups, tenant, id, visited), visited)
    ensures id in visited || id in Order(groups, tenant, id, visited)
    decreases groups.Keys - visited, 0
  {
    if id !in visited {
      var rest := OrderAll(groups, tenant, groups[id].memberGroupIds, visited + {id});
      OrderAllExplores(groups, tenant, groups[id].memberGroupIds, visited + {id});
      var order := [id] + rest;
      assert order == Order(groups, tenant, id, visited);
      forall i, j | 0 <= i < j < |order| ensures order[i] != order[j] {
        assert order[j] == rest[j - 1] && rest[j - 1] in rest;
      }
      forall g, h | g in order && Nests(groups, tenant, g, h) ensures h in visited || h in order {
        assert g == id || g in rest;
      }
    }
  }

  lemma {:induction false} OrderAllExplores(groups: Groups, tenant: Uuid, ids: seq<Uuid>, visited: set<Uuid>)
    ensures Explores(groups, tenant, OrderAll(groups, tenant, ids, visited), visited)
    ensures forall id :: id in ids && Resolves(groups, tenant, id) ==>
              id in visited || id in OrderAll(groups, tenant, ids, visited)
    decreases groups.Keys - visited, |ids|
  {
    if ids != [] {
      var first := if Resolves(groups, tenant, ids[0]) then Order(groups, tenant, ids[0], visited) else [];
      if Resolves(groups, tenant, ids[0]) {
        OrderExplores(groups, tenant, ids[0], visited);
      }
      OrderAllExplores(groups, tenant, ids[1..], visited + ToSet(first));
      var rest := OrderAll(groups, tenant, ids[1..], visited + ToSet(first));
      ExploresConcat(groups, tenant, first, rest, visited);
    }
  }

  lemma {:induction false} OrderReachable(groups: Groups, tenant: Uuid, id: Uuid, visited: set<Uuid>, g: Uuid)
    requires Resolves(groups, tenant, id) && g in Order(groups, tenant, id, visited)
    ensures Reachable(groups, tenant, id, g)
    decreases groups.Keys - visited, 0
  {
    if g == id {
      ReachesItself(groups, tenant, id);
    } else {
      var h := OrderAllReachable(groups, tenant, groups[id].memberGroupIds, visited + {id}, g);
      ReachesThrough(groups, tenant, id, h, g);
    }
  }

  lemma {:induction false} OrderAllReachable(groups: Groups, tenant: Uuid, ids: seq<Uuid>, visited: set<Uuid>, g: Uuid)
    returns (h: Uuid)
    requires g in OrderAll(groups, tenant, ids, visited)
    ensures h in ids && Resolves(groups, tenant, h) && Reachable(groups, tenant, h, g)
    decreases groups.Keys - visited, |ids|
  {
    var first := if Resolves(groups, tenant, ids[0]) then Order(groups, tenant, ids[0], visited) else [];
    if g in first {
      h := ids[0];
      OrderReachable(groups, tenant, h, visited, g);
    } else {
      h := OrderAllReachable(groups, tenant, ids[1..], visited + ToSet(first), g);
    }
  }

  lemma {:induction false} PathStaysInside(groups: Groups, tenant: Uuid, order: seq<Uuid>, p: seq<Uuid>, a: Uuid,
                                           b: Uuid)
    requires Explores(groups, tenant, order, {}) && a in order && IsPath(groups, tenant, p, a, b)
    ensures b in order
  {
    if |p| > 1 {
      assert Nests(groups, tenant, p[0], p[1]);
      forall i | 0 <= i < |p[1..]| - 1 ensures Nests(groups, tenant, p[1..][i], p[1..][i + 1]) {
        assert Nests(groups, tenant, p[i + 1], p[i + 2]);
      }
      PathStaysInside(groups, tenant, order, p[1..], p[1], b);
    }
  }

  /** From an empty visited set the walk visits each group reachable from the
      root exactly once, and no other, on every group graph. All of them are of
      the tenant, and a nested id is left out only when the repository does not
      hold it under the tenant. */
  lemma {:induction false} WalkVisitsExactlyTheReachable(groups: Groups, tenant: Uuid, root: Uuid)
    requires root in groups && groups[root].tenantId == tenant
    ensures Distinct(Order(groups, tenant, root, {}))
    ensures forall g :: g in Order(groups, tenant, root, {}) <==> Reachable(groups, tenant, root, g)
    ensures forall g :: g in Order(groups, tenant, root, {}) ==> g in groups && groups[g].tenantId == tenant
    ensures forall g, h :: g in Order(groups, tenant, root, {}) && h in groups[g].memberGroupIds ==>
              (h in Order(groups, tenant, root, {}) <==> h in groups && groups[h].tenantId == tenant)
  {
    var order := Order(groups, tenant, root, {});
    OrderExplores(groups, tenant, root, {});
    forall g ensures g in order <==> Reachable(groups, tenant, root, g) {
      if g in order {
        OrderReachable(groups, tenant, root, {}, g);
      }
      if Reachable(groups, tenant, root, g) {
        var p :| IsPath(groups, tenant, p, root, g);
        PathStaysInside(groups, tenant, order, p, root, g);
      }
    }
    forall g, h | g in order && h in groups[g].memberGroupIds
      ensures h in order <==> h in groups && groups[h].tenantId == tenant
    {
      assert Nests(groups, tenant, g, h) <==> h in groups && groups[h].tenantId == tenant;
    }
  }

  // ---------------------------------------------------------------- members

  lemma {:induction false} MembersConcat(groups: Groups, a: seq<Uuid>, b: seq<Uuid>)
    requires forall g :: g in a + b ==> g in groups
    ensures (forall g :: g in a ==> g in groups) && (forall g :: g in b ==> g in groups)
    ensures Members(groups, a + b) == Members(groups, a) + Members(groups, b)
  {
    assert forall g :: g in a ==> g in a + b;
    assert forall g :: g in b ==> g in a + b;
    if a == [] {
      assert a + b == b;
    } else {
      assert (a + b)[1..] == a[1..] + b;
      MembersConcat(groups, a[1..], b);
    }
  }

  lemma {:induction false} InMembers(groups: Groups, order: seq<Uuid>, p: Uuid)
    requires forall g :: g in order ==> g in groups
    ensures p in Members(groups, order) <==> exists g :: g in order && p in groups[g].memberPrincipalIds
  {
    if order != [] {
      InMembers(groups, order[1..], p);
      assert order == [order[0]] + order[1..];
    }
  }

  /** `p` is a direct member of a group of the tenant reachable from `root`. */
  ghost predicate IsMember(groups: Groups, tenant: Uuid, root: Uuid, p: Uuid) {
    exists g :: Reachable(groups, tenant, root, g) && g in groups && groups[g].tenantId == tenant
                && p in groups[g].memberPrincipalIds
  }

  function Expansion(groups: Groups, tenant: Uuid, root: Uuid): seq<Uuid>
    requires Resolves(groups, tenant, root)
  {
    OrderExplores(groups, tenant, root, {});
    Members(groups, Order(groups, tenant, root, {}))
  }

  /** Expansion is sound and complete: it lists exactly the members of the
      groups reachable from the root, despite cycles and diamonds. */
  lemma {:induction false} ExpansionIsMembership(groups: Groups, tenant: Uuid, root: Uuid)
    requires root in groups && groups[root].tenantId == tenant
    ensures forall p :: p in Expansion(groups, tenant, root) <==> IsMember(groups, tenant, root, p)
  {
    var order := Order(groups, tenant, root, {});
    OrderExplores(groups, tenant, root, {});
    WalkVisitsExactlyTheReachable(groups, tenant, root);
    forall p ensures p in Members(groups, order) <==> IsMember(groups, tenant, root, p) {
      InMembers(groups, order, p);
    }
  }

  // ---------------------------------------------------------------- algorithm

  /** The `visited` set that one expansion shares between its recursive calls. */
  class Visited {
    var ids: set<Uuid>

    constructor ()
      ensures ids == {}
    {
      ids := {};
    }
  }

  /** After `i` nested ids: `done` is the part of the walk below `group` finished so far. */
  ghost predicate Progress(groups: Groups, tenant: Uuid, group: Group, before: set<Uuid>,
                           i: nat, visited: set<Uuid>, done: seq<Uuid>, principalIds: seq<Uuid>)
  {
    && i <= |group.memberGroupIds|
    && visited == before + {group.id} + ToSet(done)
    && OrderAll(groups, tenant, group.memberGroupIds, before + {group.id})
       == done + OrderAll(groups, tenant, group.memberGroupIds[i..], visited)
    && (forall g :: g in done ==> g in groups)
    && principalIds == group.memberPrincipalIds + Members(groups, done)
  }

  lemma {:induction false} ProgressSkips(groups: Groups, tenant: Uuid, group: Group, before: set<Uuid>,
                                         i: nat, visited: set<Uuid>, done: seq<Uuid>, principalIds: seq<Uuid>)
    requires Progress(groups, tenant, group, before, i, visited, done, principalIds)
    requires i < |group.memberGroupIds| && !Resolves(groups, tenant, group.memberGroupIds[i])
    ensures Progress(groups, tenant, group, before, i + 1, visited, done, principalIds)
  {
    assert group.memberGroupIds[i..][1..] == group.memberGroupIds[i + 1..];
    assert visited + ToSet<Uuid>([]) == visited;
  }

  lemma {:induction false} ProgressDescends(groups: Groups, tenant: Uuid, group: Group, before: set<Uuid>,
                                            i: nat, visited: set<Uuid>, done: seq<Uuid>, principalIds: seq<Uuid>,
                                            first: seq<Uuid>)
    requires Progress(groups, tenant, group, before, i, visited, done, principalIds)
    requires i < |group.memberGroupIds| && Resolves(groups, tenant, group.memberGroupIds[i])
    requires first == Order(groups, tenant, group.memberGroupIds[i], visited)
    requires forall g :: g in first ==> g in groups
    ensures Progress(groups, tenant, group, before, i + 1, visited + ToSet(first), done + first,
                     principalIds + Members(groups, first))
  {
    var ids := group.memberGroupIds;
    var rest := OrderAll(groups, tenant, ids[i + 1..], visited + ToSet(first));
    assert OrderAll(groups, tenant, ids[i..], visited) == first + rest by {
      assert ids[i..][1..] == ids[i + 1..];
    }
    assert done + (first + rest) == (done + first) + rest;
    assert ToSet(done + first) == ToSet(done) + ToSet(first);
    assert visited + ToSet(first) == before + {group.id} + ToSet(done + first);
    MembersConcat(groups, done, first);
    assert group.memberPrincipalIds + (Members(groups, done) + Members(groups, first))
        == principalIds + Members(groups, first);
  }

  lemma {:induction false} ProgressEnds(groups: Groups, tenant: Uuid, group: Group, before: set<Uuid>,
                                        visited: set<Uuid>, done: seq<Uuid>, principalIds: seq<Uuid>)
    requires Resolves(groups, tenant, group.id) && groups[group.id] == group && group.id !in before
    requires Progress(groups, tenant, group, before, |group.memberGroupIds|, visited, done, principalIds)
    ensures visited == before + ToSet(Order(groups, tenant, group.id, before))
    ensures forall g :: g in Order(groups, tenant, group.id, before) ==> g in groups
    ensures principalIds == Members(groups, Order(groups, tenant, group.id, before))
  {
    var order := Order(groups, tenant, group.id, before);
    assert order == [group.id] + done;
    assert ToSet(order) == {group.id} + ToSet(done);
    assert order[1..] == done;
  }

  method ExpandGroupMembersSafe(groups: Groups, group: Group, tenant: Uuid, visited: Visited)
    returns (principalIds: seq<Uuid>)
    requires forall id :: id in groups ==> groups[id].id == id
    requires group.id in groups && groups[group.id] == group && group.tenantId == tenant
    modifies visited
    ensures visited.ids == old(visited.ids) + ToSet(Order(groups, tenant, group.id, old(visited.ids)))
    ensures forall g :: g in Order(groups, tenant, group.id, old(visited.ids)) ==> g in groups
    ensures principalIds == Members(groups, Order(groups, tenant, group.id, old(visited.ids)))
    ensures old(visited.ids) == {} ==>
              forall p :: p in principalIds <==> IsMember(groups, tenant, group.id, p)
    decreases groups.Keys - visited.ids
  {
    ghost var before := visited.ids;
    if group.id in visited.ids {
      return [];
    }
    visited.ids := visited.ids + {group.id};
    principalIds := group.memberPrincipalIds;
    ghost var done: seq<Uuid> := [];
    for i := 0 to |group.memberGroupIds|
      invariant Progress(groups, tenant, group, before, i, visited.ids, done, principalIds)
      invariant group.id in visited.ids && before <= visited.ids
    {
      var nestedId := group.memberGroupIds[i];
      if Resolves(groups, tenant, nestedId) {
        ghost var first := Order(groups, tenant, nestedId, visited.ids);
        ghost var seen := visited.ids;
        var nested := ExpandGroupMembersSafe(groups, groups[nestedId], tenant, visited);
        ProgressDescends(groups, tenant, group, before, i, seen, done, principalIds, first);
        principalIds := principalIds + nested;
        done := done + first;
      } else {
        ProgressSkips(groups, tenant, group, before, i, visited.ids, done, principalIds);
      }
    }
    ProgressEnds(groups, tenant, group, before, visited.ids, done, principalIds);
    ExpansionIsMembership(groups, tenant, group.id);
  }
}
