/** The key-value store under the token services
    (backend/app/storage/redis_client.py): one flat table of strings and one of
    sets, partitioned by a tenant prefix on every key. */
module TenantStore {
  import opened Prelude
  import opened Models

  /** `_make_key` */
  function MakeKey(tenant: string, key: string): string {
    "tenant:" + tenant + ":" + key
  }

  /** Tenant ids that cannot reach into each other: neither, closed by its
      colon, begins the other. */
  ghost predicate Apart(t: string, u: string) {
    !(t + ":" <= u + ":") && !(u + ":" <= t + ":")
  }

  lemma {:induction false} MakeKeySplits(t: string, k: string)
    ensures MakeKey(t, k) == "tenant:" + (t + ":") + k
  {
    assert "tenant:" + t + ":" == "tenant:" + (t + ":");
  }

  lemma {:induction false} KeyClash(t: string, k: string, u: string, m: string)
    requires MakeKey(t, k) == MakeKey(u, m) && |t| <= |u|
    ensures t + ":" <= u + ":"
  {
    MakeKeySplits(t, k);
    MakeKeySplits(u, m);
    var a, b := t + ":", u + ":";
    forall i | 0 <= i < |a| ensures a[i] == b[i] {
      assert a[i] == MakeKey(t, k)[7 + i] == MakeKey(u, m)[7 + i];
    }
  }

  /** No key of one tenant is a key of the other exactly when the two ids are
      apart. */
  lemma {:induction false} PartitionedIff(t: string, u: string)
    ensures (forall k, m :: MakeKey(t, k) != MakeKey(u, m)) <==> Apart(t, u)
  {
    if t + ":" <= u + ":" {
      Overlap(t, u);
    } else if u + ":" <= t + ":" {
      Overlap(u, t);
    } else {
      forall k, m ensures MakeKey(t, k) != MakeKey(u, m) {
        if MakeKey(t, k) == MakeKey(u, m) {
          if |t| <= |u| { KeyClash(t, k, u, m); } else { KeyClash(u, m, t, k); }
        }
      }
    }
  }

  lemma {:induction false} Overlap(t: string, u: string)
    requires t + ":" <= u + ":"
    ensures exists k, m :: MakeKey(t, k) == MakeKey(u, m)
  {
    var rest := (u + ":")[|t| + 1..];
    assert u + ":" == t + ":" + rest;
    MakeKeySplits(t, rest);
    MakeKeySplits(u, "");
    assert "tenant:" + (t + ":") + rest == "tenant:" + (t + ":" + rest) == "tenant:" + (u + ":") + "";
    assert MakeKey(t, rest) == MakeKey(u, "");
  }

  /** Different ids without a colon, as UUIDs are, are apart. */
  lemma {:induction false} ColonFreeApart(t: string, u: string)
    requires ':' !in t && ':' !in u && t != u
    ensures Apart(t, u)
  {
    if t + ":" <= u + ":" { ColonFreePrefix(t, u); }
    if u + ":" <= t + ":" { ColonFreePrefix(u, t); }
  }

  lemma {:induction false} ColonFreePrefix(t: string, u: string)
    requires ':' !in u && t + ":" <= u + ":"
    ensures t == u
  {
    assert (u + ":")[|t|] == (t + ":")[|t|] == ':';
    assert forall i :: 0 <= i < |u| ==> u[i] in u;
    assert (t + ":")[..|t|] == t && (u + ":")[..|u|] == u;
  }

  class TenantPartitionedRedisClient {
    var fallbackStore: map<string, string>
    var fallbackSets: map<string, set<string>>

    constructor ()
      ensures fallbackStore == map[] && fallbackSets == map[]
    {
      fallbackStore, fallbackSets := map[], map[];
    }

    /** What a tenant reads under a key. */
    ghost function ValueAt(tenant: string, key: string): Option<string>
      reads this
    {
      var k := MakeKey(tenant, key);
      if k in fallbackStore then Some(fallbackStore[k]) else None
    }

    ghost function SetAt(tenant: string, key: string): set<string>
      reads this
    {
      Members(fallbackSets, MakeKey(tenant, key))
    }

    method Get(tenant: string, key: string) returns (value: Option<string>)
      ensures value == ValueAt(tenant, key)
    {
      var k := MakeKey(tenant, key);
      value := if k in fallbackStore then Some(fallbackStore[k]) else None;
    }

    /** Other keys, and other tenants' keys, read as before. */
    method Set(tenant: string, key: string, value: string)
      modifies `fallbackStore
      ensures ValueAt(tenant, key) == Some(value)
      ensures forall t, k :: OtherKey(t, k, tenant, key) ==> ValueAt(t, k) == old(ValueAt(t, k))
    {
      KeysApart(tenant, key);
      hide MakeKey, Apart;
      fallbackStore := fallbackStore[MakeKey(tenant, key) := value];
    }

    method Delete(tenant: string, key: string)
      modifies `fallbackStore, `fallbackSets
      ensures ValueAt(tenant, key) == None && SetAt(tenant, key) == {}
      ensures forall t, k :: OtherKey(t, k, tenant, key) ==>
                ValueAt(t, k) == old(ValueAt(t, k)) && SetAt(t, k) == old(SetAt(t, k))
    {
      KeysApart(tenant, key);
      hide MakeKey, Apart;
      fallbackStore := fallbackStore - {MakeKey(tenant, key)};
      fallbackSets := fallbackSets - {MakeKey(tenant, key)};
    }

    /** `sadd` of one member; `added` as Redis counts it. */
    method SAdd(tenant: string, key: string, member: string) returns (added: nat)
      modifies `fallbackSets
      ensures SetAt(tenant, key) == old(SetAt(tenant, key)) + {member}
      ensures added == if member in old(SetAt(tenant, key)) then 0 else 1
      ensures forall t, k :: OtherKey(t, k, tenant, key) ==> SetAt(t, k) == old(SetAt(t, k))
    {
      KeysApart(tenant, key);
      hide MakeKey, Apart;
      var partitionedKey := MakeKey(tenant, key);
      if partitionedKey !in fallbackSets {
        fallbackSets := fallbackSets[partitionedKey := {}];
      }
      added := 0;
      if member !in fallbackSets[partitionedKey] {
        fallbackSets := fallbackSets[partitionedKey := fallbackSets[partitionedKey] + {member}];
        added := 1;
      }
    }

    method SIsMember(tenant: string, key: string, member: string) returns (found: bool)
      ensures found <==> member in SetAt(tenant, key)
    {
      var k := MakeKey(tenant, key);
      found := k in fallbackSets && member in fallbackSets[k];
    }
  }

  function Members(sets: map<string, set<string>>, key: string): set<string> {
    if key in sets then sets[key] else {}
  }

  /** Another key of the tenant, or any key of a tenant apart from it. */
  ghost predicate OtherKey(t: string, k: string, tenant: string, key: string) {
    if t == tenant then k != key else Apart(t, tenant)
  }

  lemma {:induction false} KeysApart(tenant: string, key: string)
    ensures forall t, k :: OtherKey(t, k, tenant, key) ==> MakeKey(t, k) != MakeKey(tenant, key)
  {
    forall t, k | OtherKey(t, k, tenant, key) ensures MakeKey(t, k) != MakeKey(tenant, key) {
      if t == tenant {
        assert MakeKey(t, k)[|t| + 8..] == k && MakeKey(t, key)[|t| + 8..] == key;
      } else {
        PartitionedIff(t, tenant);
      }
    }
  }

  // ---------------------------------------------------------------- the revoked set

  /** The key under which validation looks for a revoked token id. */
  function RevokedKey(jti: string): string {
    "revoked:" + jti
  }

  /** The store holds this set of (tenant, token id) pairs. */
  ghost predicate HoldsRevoked(sets: map<string, set<string>>, revoked: set<(Uuid, string)>) {
    forall t, j :: ':' !in t ==> (j in Members(sets, MakeKey(t, RevokedKey(j))) <==> (t, j) in revoked)
  }

  /** Adding a token id to its own set revokes that id of that tenant and no other. */
  lemma {:induction false} RevokingOne(sets: map<string, set<string>>, revoked: set<(Uuid, string)>, tenant: Uuid,
                                       jti: string)
    requires ':' !in tenant && HoldsRevoked(sets, revoked)
    ensures var key := MakeKey(tenant, RevokedKey(jti));
            HoldsRevoked(sets[key := Members(sets, key) + {jti}], revoked + {(tenant, jti)})
  {
    KeysApart(tenant, RevokedKey(jti));
    forall t | ':' !in t && t != tenant ensures Apart(t, tenant) {
      ColonFreeApart(t, tenant);
    }
    forall j ensures RevokedKey(j) == RevokedKey(jti) ==> j == jti {
      assert RevokedKey(j)[8..] == j && RevokedKey(jti)[8..] == jti;
    }
    hide MakeKey, RevokedKey, Apart;
  }
}
