/** The upward walk of `ContainerService.get_ancestors`
    (backend/app/acl/container_service.py), as a function of the edge table. */
module AncestorWalk {
  import opened Models

  /** (child, tenant) to parent; a missing row and an empty parent both end a walk. */
  type Edges = map<(string, Uuid), string>

  function Parent(edges: Edges, tenant: Uuid, c: string): string {
    if (c, tenant) in edges then edges[(c, tenant)] else ""
  }

  function Walk(edges: Edges, tenant: Uuid, current: string, depth: nat, visited: set<string>): seq<string>
    decreases depth
  {
    if current == "" || depth == 0 || current in visited then []
    else
      var parent := Parent(edges, tenant, current);
      if parent == "" then []
      else [parent] + Walk(edges, tenant, parent, depth - 1, visited + {current})
  }

  function Ancestors(edges: Edges, tenant: Uuid, c: string, maxDepth: nat): seq<string> {
    Walk(edges, tenant, c, maxDepth, {})
  }

  // ---------------------------------------------------------------- what the walk returns

  /** `w` follows the parent table upwards from `c`. */
  ghost predicate Follows(edges: Edges, tenant: Uuid, c: string, w: seq<string>) {
    forall i :: 0 <= i < |w| ==>
      w[i] != "" && (([c] + w)[i], tenant) in edges && w[i] == edges[(([c] + w)[i], tenant)]
  }

  /** The start and every element but the last are distinct, and not in `seen`. */
  ghost predicate NoEarlyRepeat(c: string, w: seq<string>, seen: set<string>) {
    && (forall i, j :: 0 <= i < j < |w| ==> ([c] + w)[i] != ([c] + w)[j])
    && (forall i :: 0 <= i < |w| ==> ([c] + w)[i] !in seen)
  }

  /** The walk could not go on: depth reached, a container met again, or no parent. */
  ghost predicate Stuck(edges: Edges, tenant: Uuid, c: string, w: seq<string>, depth: nat, seen: set<string>) {
    var last := ([c] + w)[|w|];
    || |w| == depth
    || last == ""
    || last in seen
    || last in ([c] + w)[..|w|]
    || (last, tenant) !in edges
    || edges[(last, tenant)] == ""
  }

  ghost predicate IsWalk(edges: Edges, tenant: Uuid, c: string, w: seq<string>, depth: nat, seen: set<string>) {
    && |w| <= depth
    && (w != [] ==> c != "")
    && Follows(edges, tenant, c, w)
    && NoEarlyRepeat(c, w, seen)
    && Stuck(edges, tenant, c, w, depth, seen)
  }

  lemma {:induction false} TailIndex(c: string, w: seq<string>)
    requires w != []
    ensures forall i :: 0 <= i < |w| ==> ([w[0]] + w[1..])[i] == w[i] == ([c] + w)[i + 1]
    ensures [w[0]] + w[1..] == w
  {
  }

  lemma {:induction false} FollowsTail(edges: Edges, tenant: Uuid, c: string, w: seq<string>)
    requires w != [] && w[0] == Parent(edges, tenant, c) && w[0] != ""
    ensures Follows(edges, tenant, c, w) <==> Follows(edges, tenant, w[0], w[1..])
  {
    TailIndex(c, w);
    var v := w[1..];
    if Follows(edges, tenant, w[0], v) {
      forall i | 0 <= i < |w|
        ensures w[i] != "" && (([c] + w)[i], tenant) in edges && w[i] == edges[(([c] + w)[i], tenant)]
      {
        if i > 0 {
          assert v[i - 1] == w[i] && ([w[0]] + v)[i - 1] == ([c] + w)[i];
        }
      }
    }
    if Follows(edges, tenant, c, w) {
      forall i | 0 <= i < |v|
        ensures v[i] != "" && (([w[0]] + v)[i], tenant) in edges && v[i] == edges[(([w[0]] + v)[i], tenant)]
      {
        assert w[i + 1] == v[i];
      }
    }
  }

  lemma {:induction false} StuckTail(edges: Edges, tenant: Uuid, c: string, w: seq<string>, depth: nat,
                                     seen: set<string>)
    requires w != [] && depth > 0
    ensures Stuck(edges, tenant, c, w, depth, seen) <==> Stuck(edges, tenant, w[0], w[1..], depth - 1, seen + {c})
  {
    var v := w[1..];
    var cw, vw := [c] + w, [w[0]] + v;
    assert vw[|v|] == cw[|w|];
    assert cw[..|w|] == [c] + vw[..|v|];
  }

  lemma {:induction false} IsWalkTail(edges: Edges, tenant: Uuid, c: string, w: seq<string>, depth: nat,
                                      seen: set<string>)
    requires w != [] && c != "" && depth > 0 && c !in seen && w[0] == Parent(edges, tenant, c) && w[0] != ""
    ensures IsWalk(edges, tenant, c, w, depth, seen)
       <==> IsWalk(edges, tenant, w[0], w[1..], depth - 1, seen + {c})
  {
    FollowsTail(edges, tenant, c, w);
    NoEarlyRepeatTail(c, w, seen);
    StuckTail(edges, tenant, c, w, depth, seen);
    hide Follows, NoEarlyRepeat, Stuck;
  }

  lemma {:induction false} NoEarlyRepeatTail(c: string, w: seq<string>, seen: set<string>)
    requires w != [] && c !in seen
    ensures NoEarlyRepeat(c, w, seen) <==> NoEarlyRepeat(w[0], w[1..], seen + {c})
  {
    TailIndex(c, w);
    var v := w[1..];
    var cw, vw := [c] + w, [w[0]] + v;
    assert forall i :: 0 <= i < |w| ==> vw[i] == cw[i + 1];
    if NoEarlyRepeat(c, w, seen) {
      forall i | 0 <= i < |v| ensures vw[i] !in seen + {c} {
        assert cw[0] != cw[i + 1];
      }
    }
    if NoEarlyRepeat(w[0], v, seen + {c}) {
      forall i, j | 0 <= i < j < |w| ensures cw[i] != cw[j] {
        assert cw[j] == vw[j - 1];
        if i > 0 {
          assert cw[i] == vw[i - 1];
        }
      }
      forall i | 0 <= i < |w| ensures cw[i] !in seen {
        if i > 0 {
          assert cw[i] == vw[i - 1];
        }
      }
    }
  }

  /** The declarative description singles out exactly one list, the walk's. */
  lemma {:induction false} WalkCharacterised(edges: Edges, tenant: Uuid, c: string, depth: nat, seen: set<string>,
                                             w: seq<string>)
    ensures IsWalk(edges, tenant, c, w, depth, seen) <==> w == Walk(edges, tenant, c, depth, seen)
    decreases depth
  {
    hide Follows, NoEarlyRepeat, Stuck;
    var parent := Parent(edges, tenant, c);
    EmptyWalk(edges, tenant, c, depth, seen);
    if w != [] {
      FirstStep(edges, tenant, c, w, seen);
      if c != "" && depth > 0 && c !in seen && parent != "" && w[0] == parent {
        IsWalkTail(edges, tenant, c, w, depth, seen);
        WalkCharacterised(edges, tenant, parent, depth - 1, seen + {c}, w[1..]);
        assert w == [w[0]] + w[1..];
      }
    }
  }

  lemma {:induction false} FirstStep(edges: Edges, tenant: Uuid, c: string, w: seq<string>, seen: set<string>)
    requires w != []
    ensures Follows(edges, tenant, c, w) ==> w[0] == Parent(edges, tenant, c) != ""
    ensures NoEarlyRepeat(c, w, seen) ==> c !in seen
  {
    assert ([c] + w)[0] == c;
  }

  lemma {:induction false} EmptyWalk(edges: Edges, tenant: Uuid, c: string, depth: nat, seen: set<string>)
    ensures Follows(edges, tenant, c, []) && NoEarlyRepeat(c, [], seen)
    ensures Stuck(edges, tenant, c, [], depth, seen) <==>
        depth == 0 || c == "" || c in seen || Parent(edges, tenant, c) == ""
  {
    assert [c] + [] == [c];
  }

  function Iterate(edges: Edges, tenant: Uuid, c: string, n: nat): string {
    if n == 0 then c else Parent(edges, tenant, Iterate(edges, tenant, c, n - 1))
  }

  /** `get_ancestors` lists the iterates of the parent table, at most maxDepth
      of them; the start and all but possibly the last are distinct; and it
      stops only at the depth limit, at a container seen before or at a root. */
  lemma {:induction false} AncestorsAreIterates(edges: Edges, tenant: Uuid, c: string, maxDepth: nat)
    ensures var w := Ancestors(edges, tenant, c, maxDepth);
            && |w| <= maxDepth
            && (forall i :: 0 <= i < |w| ==> w[i] == Iterate(edges, tenant, c, i + 1) && w[i] != "")
            && NoEarlyRepeat(c, w, {})
            && Stuck(edges, tenant, c, w, maxDepth, {})
  {
    var w := Ancestors(edges, tenant, c, maxDepth);
    WalkCharacterised(edges, tenant, c, maxDepth, {}, w);
    FollowsIsIterate(edges, tenant, c, w, |w|);
  }

  lemma {:induction false} FollowsIsIterate(edges: Edges, tenant: Uuid, c: string, w: seq<string>, n: nat)
    requires n <= |w| && Follows(edges, tenant, c, w)
    ensures forall i :: 0 <= i < n ==> w[i] == Iterate(edges, tenant, c, i + 1)
  {
    if n > 0 {
      FollowsIsIterate(edges, tenant, c, w, n - 1);
      var here := ([c] + w)[n - 1];
      assert w[n - 1] == Parent(edges, tenant, here);
      assert here == Iterate(edges, tenant, c, n - 1) by {
        if n > 1 {
          assert here == w[n - 2];
        }
      }
    }
  }

  // ---------------------------------------------------------------- what the walk depends on

  /** The containers whose parent the walk looks up. */
  function Consulted(edges: Edges, tenant: Uuid, current: string, depth: nat, visited: set<string>): set<string>
    decreases depth
  {
    if current == "" || depth == 0 || current in visited then {}
    else
      var parent := Parent(edges, tenant, current);
      if parent == "" then {current}
      else {current} + Consulted(edges, tenant, parent, depth - 1, visited + {current})
  }

  lemma {:induction false} WalkIsLocal(edges: Edges, edges': Edges, tenant: Uuid, c: string, depth: nat,
                                       seen: set<string>)
    requires forall x :: x in Consulted(edges, tenant, c, depth, seen) ==>
               Parent(edges, tenant, x) == Parent(edges', tenant, x)
    ensures Walk(edges, tenant, c, depth, seen) == Walk(edges', tenant, c, depth, seen)
    decreases depth
  {
    if c != "" && depth > 0 && c !in seen {
      assert c in Consulted(edges, tenant, c, depth, seen);
      var parent := Parent(edges, tenant, c);
      if parent != "" {
        WalkIsLocal(edges, edges', tenant, parent, depth - 1, seen + {c});
      }
    }
  }

  lemma {:induction false} ConsultedAvoidsSeen(edges: Edges, tenant: Uuid, c: string, depth: nat, seen: set<string>)
    ensures Consulted(edges, tenant, c, depth, seen) !! seen
    decreases depth
  {
    if c != "" && depth > 0 && c !in seen && Parent(edges, tenant, c) != "" {
      ConsultedAvoidsSeen(edges, tenant, Parent(edges, tenant, c), depth - 1, seen + {c});
    }
  }

  lemma {:induction false} WalkNotices(edges: Edges, tenant: Uuid, c: string, depth: nat, seen: set<string>,
                                       child: string, parent: string)
    requires child in Consulted(edges, tenant, c, depth, seen)
    requires Parent(edges, tenant, child) != parent
    ensures Walk(edges, tenant, c, depth, seen) != Walk(edges[(child, tenant) := parent], tenant, c, depth, seen)
    decreases depth
  {
    var edges' := edges[(child, tenant) := parent];
    var next := Parent(edges, tenant, c);
    if child != c {
      assert Parent(edges', tenant, c) == next;
      WalkNotices(edges, tenant, next, depth - 1, seen + {c}, child, parent);
      var a, b := Walk(edges, tenant, next, depth - 1, seen + {c}), Walk(edges', tenant, next, depth - 1, seen + {c});
      assert ([next] + a)[1..] == a && ([next] + b)[1..] == b;
    } else {
      var a := Walk(edges, tenant, c, depth, seen);
      var b := Walk(edges', tenant, c, depth, seen);
      assert Parent(edges', tenant, c) == parent;
      assert next != "" ==> a[0] == next;
      assert parent != "" ==> b[0] == parent;
    }
  }

  /** An edge update changes a chain exactly when the chain's walk looks up the
      child and finds another parent there than before. */
  lemma {:induction false} UpsertChangesChainIff(edges: Edges, t: Uuid, child: string, parent: string, tenant: Uuid,
                                                 c: string, maxDepth: nat)
    ensures Ancestors(edges[(child, t) := parent], tenant, c, maxDepth) != Ancestors(edges, tenant, c, maxDepth)
       <==> && t == tenant && child in Consulted(edges, tenant, c, maxDepth, {})
            && (if (child, t) in edges then edges[(child, t)] != parent else parent != "")
  {
    if t == tenant && child in Consulted(edges, tenant, c, maxDepth, {}) && Parent(edges, t, child) != parent {
      WalkNotices(edges, tenant, c, maxDepth, {}, child, parent);
    } else {
      WalkIsLocal(edges, edges[(child, t) := parent], tenant, c, maxDepth, {});
    }
  }
}
