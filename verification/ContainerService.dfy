/** `ContainerService` (backend/app/acl/container_service.py): the ancestor walk
    behind a cache whose entries live `cacheTtl` time units. Clock readings are
    arguments. */
module ContainerService {
  import opened Models
  import opened AncestorWalk
  import opened CanonicalRepo

  type CacheKey = (Uuid, string)

  /** One walk that was really made: when, over which edges, how deep. */
  datatype WalkRecord = WalkRecord(time: int, edges: Edges, depth: nat)

  const DEFAULT_MAX_DEPTH: nat := 50

  /** What answers may come from: the walks made so far, the present edges, the
      lifetime of a cache entry and the time. */
  datatype Evidence = Evidence(walks: seq<WalkRecord>, edges: Edges, cacheTtl: int, now: int)

  ghost predicate IsRecent(e: Evidence, w: WalkRecord) {
    e.now - w.time < e.cacheTtl || (w.time == e.now && w.edges == e.edges)
  }

  /** `chain` is a recorded walk from c: one over the present edges made now, or
      one made less than `cacheTtl` ago over the edges of that time. */
  ghost predicate RecentWalk(e: Evidence, tenant: Uuid, c: string, chain: seq<string>) {
    exists i :: 0 <= i < |e.walks| && IsRecent(e, e.walks[i])
                && chain == Ancestors(e.walks[i].edges, tenant, c, e.walks[i].depth)
  }

  lemma {:induction false} RecentWithMore(e: Evidence, walks: seq<WalkRecord>, tenant: Uuid, c: string,
                                          chain: seq<string>)
    requires RecentWalk(e, tenant, c, chain) && e.walks <= walks
    ensures RecentWalk(e.(walks := walks), tenant, c, chain)
  {
    var i :| 0 <= i < |e.walks| && IsRecent(e, e.walks[i])
             && chain == Ancestors(e.walks[i].edges, tenant, c, e.walks[i].depth);
    assert walks[i] == e.walks[i] && IsRecent(e.(walks := walks), walks[i]);
  }

  class Service {
    const repo: Repo
    const cacheTtl: int
    var ancestorCache: map<CacheKey, seq<string>>
    var cacheTimestamps: map<CacheKey, int>
    ghost var walks: seq<WalkRecord>

    constructor (repo: Repo, cacheTtl: int := 600)
      ensures Valid() && this.repo == repo && this.cacheTtl == cacheTtl
      ensures ancestorCache == map[] && walks == []
    {
      this.repo, this.cacheTtl := repo, cacheTtl;
      ancestorCache, cacheTimestamps, walks := map[], map[], [];
    }

    /** Each cached chain is the walk recorded at its timestamp. */
    ghost predicate Valid()
      reads this
    {
      forall k :: k in ancestorCache ==>
        k in cacheTimestamps && exists i :: 0 <= i < |walks| && Explains(walks[i], k)
    }

    ghost predicate Explains(w: WalkRecord, k: CacheKey)
      requires k in ancestorCache && k in cacheTimestamps
      reads this
    {
      w.time == cacheTimestamps[k] && ancestorCache[k] == Ancestors(w.edges, k.0, k.1, w.depth)
    }

    /** The cached chain, if any, is what a walk over the present edges would return. */
    ghost predicate Exact(tenant: Uuid, c: string, maxDepth: nat)
      reads this, repo`containerEdges
    {
      (tenant, c) in ancestorCache ==>
        ancestorCache[(tenant, c)] == Ancestors(repo.containerEdges, tenant, c, maxDepth)
    }

    ghost function EvidenceAt(now: int): Evidence
      reads this`walks, repo`containerEdges
    {
      Evidence(walks, repo.containerEdges, cacheTtl, now)
    }

    /** The cache holds a chain for the key, stored less than `cacheTtl` ago. */
    ghost predicate Fresh(key: CacheKey, now: int)
      reads this
    {
      key in ancestorCache && key in cacheTimestamps && now - cacheTimestamps[key] < cacheTtl
    }

    /** The answer is a walk over the present edges, or a walk made less than
        `cacheTtl` ago over the edges of that time; it is exact when the cache was. */
    method GetAncestors(containerId: string, tenant: Uuid, now: int, maxDepth: nat := DEFAULT_MAX_DEPTH)
      returns (ancestors: seq<string>)
      requires Valid()
      modifies this
      ensures Valid()
      ensures old(Fresh((tenant, containerId), now)) ==>
                unchanged(this) && ancestors == ancestorCache[(tenant, containerId)]
      ensures !old(Fresh((tenant, containerId), now)) ==>
                && ancestors == Ancestors(repo.containerEdges, tenant, containerId, maxDepth)
                && ancestorCache == old(ancestorCache)[(tenant, containerId) := ancestors]
                && cacheTimestamps == old(cacheTimestamps)[(tenant, containerId) := now]
                && walks == old(walks) + [WalkRecord(now, repo.containerEdges, maxDepth)]
      ensures RecentWalk(EvidenceAt(now), tenant, containerId, ancestors)
      ensures old(walks) <= walks
      ensures old(Exact(tenant, containerId, maxDepth)) ==>
                ancestors == Ancestors(repo.containerEdges, tenant, containerId, maxDepth)
    {
      var cacheKey := (tenant, containerId);
      if cacheKey in ancestorCache {
        var cacheTime := if cacheKey in cacheTimestamps then cacheTimestamps[cacheKey] else 0;
        if now - cacheTime < cacheTtl {
          ghost var i :| 0 <= i < |walks| && Explains(walks[i], cacheKey);
          assert IsRecent(EvidenceAt(now), walks[i]);
          return ancestorCache[cacheKey];
        }
      }
      ancestors := WalkUp(containerId, tenant, maxDepth);
      ghost var before := walks;
      ancestorCache := ancestorCache[cacheKey := ancestors];
      cacheTimestamps := cacheTimestamps[cacheKey := now];
      walks := walks + [WalkRecord(now, repo.containerEdges, maxDepth)];
      assert IsRecent(EvidenceAt(now), walks[|before|]);
      forall k | k in ancestorCache
        ensures k in cacheTimestamps && exists i :: 0 <= i < |walks| && Explains(walks[i], k)
      {
        if k == cacheKey {
          assert Explains(walks[|before|], k);
        } else {
          var i :| 0 <= i < |before| && old(Explains(before[i], k));
          assert Explains(walks[i], k);
        }
      }
    }

    /** The traversal loop. */
    method WalkUp(containerId: string, tenant: Uuid, maxDepth: nat) returns (ancestors: seq<string>)
      ensures ancestors == Ancestors(repo.containerEdges, tenant, containerId, maxDepth)
    {
      ancestors := [];
      var visited: set<string> := {};
      var current := containerId;
      var depth := 0;
      while current != "" && depth < maxDepth
        invariant depth <= maxDepth
        invariant ancestors + Walk(repo.containerEdges, tenant, current, maxDepth - depth, visited)
               == Ancestors(repo.containerEdges, tenant, containerId, maxDepth)
      {
        if current in visited {
          break;
        }
        visited := visited + {current};
        var parent := Parent(repo.containerEdges, tenant, current);
        if parent == "" {
          break;
        }
        ghost var rest := Walk(repo.containerEdges, tenant, parent, maxDepth - depth - 1, visited);
        assert ancestors + ([parent] + rest) == (ancestors + [parent]) + rest;
        ancestors := ancestors + [parent];
        current := parent;
        depth := depth + 1;
      }
    }

    /** Dropping only the child's own entry leaves the child exact, and leaves any
        other exact chain exact unless its walk looks the child up and now finds
        another parent; in that case the chain kept in the cache is stale. */
    method UpsertContainerEdge(parent: string, child: string, tenant: Uuid)
      requires Valid()
      modifies this`ancestorCache, this`cacheTimestamps, repo`containerEdges
      ensures Valid()
      ensures repo.containerEdges == old(repo.containerEdges)[(child, tenant) := parent]
      ensures ancestorCache == old(ancestorCache) - {(tenant, child)}
      ensures cacheTimestamps == old(cacheTimestamps) - {(tenant, child)}
      ensures forall d :: Exact(tenant, child, d)
      ensures forall t, c, d :: (t, c) in ancestorCache && old(Exact(t, c, d)) ==>
                (Exact(t, c, d) <==>
                   !(t == tenant && child in Consulted(old(repo.containerEdges), t, c, d, {})
                     && Parent(old(repo.containerEdges), tenant, child) != parent))
    {
      ghost var edges := repo.containerEdges;
      repo.UpsertContainerEdge(parent, child, tenant);
      InvalidateCache(child, tenant);
      forall t, c, d: nat | (t, c) in ancestorCache && old(Exact(t, c, d))
        ensures Exact(t, c, d) <==>
                  !(t == tenant && child in Consulted(edges, t, c, d, {}) && Parent(edges, tenant, child) != parent)
      {
        UpsertChangesChainIff(edges, tenant, child, parent, t, c, d);
      }
    }

    method InvalidateCache(containerId: string, tenant: Uuid)
      requires Valid()
      modifies this`ancestorCache, this`cacheTimestamps
      ensures Valid()
      ensures ancestorCache == old(ancestorCache) - {(tenant, containerId)}
      ensures cacheTimestamps == old(cacheTimestamps) - {(tenant, containerId)}
    {
      var cacheKey := (tenant, containerId);
      ancestorCache := ancestorCache - {cacheKey};
      cacheTimestamps := cacheTimestamps - {cacheKey};
      forall k | k in ancestorCache
        ensures k in cacheTimestamps && exists i :: 0 <= i < |walks| && Explains(walks[i], k)
      {
        var i :| 0 <= i < |walks| && old(Explains(walks[i], k));
        assert Explains(walks[i], k);
      }
    }
  }
}
