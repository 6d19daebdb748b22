/** `ACLCompiler._apply_deny_overrides` (backend/app/acl/compiler.py): deny rows
    drop the allows of the same (document, principal), then one row per
    (document, principal) is kept. */
module DenyOverrides {
  import opened Prelude
  import opened Models

  type Key = (string, Option<Uuid>)

  function KeyOf(e: AclEntry): Key {
    (e.documentId, e.principalId)
  }

  predicate IsDenyRow(e: AclEntry) {
    e.isDeny && e.principalId.Some?
  }

  /** The keys some deny row names. */
  function DenyKeys(entries: seq<AclEntry>): set<Key> {
    set e | e in entries && IsDenyRow(e) :: KeyOf(e)
  }

  predicate Dropped(e: AclEntry, denied: set<Key>) {
    e.principalId.Some? && KeyOf(e) in denied && !e.isDeny
  }

  /** The rows left once allows under a denied key are gone, in order. */
  function Surviving(entries: seq<AclEntry>, denied: set<Key>): (r: seq<AclEntry>)
    ensures forall e :: e in r <==> e in entries && !Dropped(e, denied)
    ensures |r| <= |entries|
  {
    if entries == [] then []
    else
      var n := |entries| - 1;
      assert entries == entries[..n] + [entries[n]];
      var front := Surviving(entries[..n], denied);
      if Dropped(entries[n], denied) then front else front + [entries[n]]
  }

  /** Where a row with this key sits, or |rows|. */
  function Position(rows: seq<AclEntry>, k: Key): (i: nat)
    ensures i <= |rows|
    ensures i < |rows| ==> KeyOf(rows[i]) == k
    ensures forall j :: 0 <= j < i ==> KeyOf(rows[j]) != k
  {
    if rows == [] then 0
    else if KeyOf(rows[0]) == k then 0
    else 1 + Position(rows[1..], k)
  }

  /** One row per key, in order of first sight; a later row replaces the kept
      one only when its rank is strictly higher. */
  function Dedup(rows: seq<AclEntry>): (r: seq<AclEntry>)
  {
    if rows == [] then []
    else
      var e := rows[|rows| - 1];
      var front := Dedup(rows[..|rows| - 1]);
      var i := Position(front, KeyOf(e));
      if i == |front| then front + [e]
      else if Rank(e.permission) > Rank(front[i].permission) then front[i := e]
      else front
  }

  function NormalForm(entries: seq<AclEntry>): seq<AclEntry> {
    Dedup(Surviving(entries, DenyKeys(entries)))
  }

  ghost predicate DistinctKeys(rows: seq<AclEntry>) {
    forall i, j :: 0 <= i < j < |rows| ==> KeyOf(rows[i]) != KeyOf(rows[j])
  }

  /** `e` is the row a dict keyed by KeyOf keeps for its key: the earliest of
      the rows of highest rank. */
  ghost predicate KeptFrom(rows: seq<AclEntry>, e: AclEntry) {
    exists i :: 0 <= i < |rows| && IsFirstMax(rows, i) && rows[i] == e
  }

  ghost predicate IsFirstMax(rows: seq<AclEntry>, i: int)
    requires 0 <= i < |rows|
  {
    forall j :: 0 <= j < |rows| && KeyOf(rows[j]) == KeyOf(rows[i]) ==>
      && Rank(rows[j].permission) <= Rank(rows[i].permission)
      && (j < i ==> Rank(rows[j].permission) < Rank(rows[i].permission))
  }

  lemma {:induction false} DedupDistinct(rows: seq<AclEntry>)
    ensures DistinctKeys(Dedup(rows))
  {
    if rows != [] {
      DedupDistinct(rows[..|rows| - 1]);
    }
  }

  lemma {:induction false} DedupCovers(rows: seq<AclEntry>, e: AclEntry)
    requires e in rows
    ensures Position(Dedup(rows), KeyOf(e)) < |Dedup(rows)|
  {
    var n := |rows| - 1;
    var front := Dedup(rows[..n]);
    var p := Position(front, KeyOf(rows[n]));
    var q := if e == rows[n] then p else Position(front, KeyOf(e));
    if e != rows[n] {
      DedupCovers(rows[..n], e);
    }
    assert KeyOf(Dedup(rows)[q]) == KeyOf(e);
  }

  /** Appending a row that does not outrank position i's key leaves i the first maximum. */
  lemma {:induction false} FirstMaxExtends(init: seq<AclEntry>, e: AclEntry, i: nat)
    requires i < |init| && IsFirstMax(init, i)
    requires KeyOf(e) == KeyOf(init[i]) ==> Rank(e.permission) <= Rank(init[i].permission)
    ensures KeptFrom(init + [e], init[i])
  {
    assert IsFirstMax(init + [e], i);
  }

  /** A row that strictly outranks its key's earlier rows is the first maximum. */
  lemma {:induction false} NewFirstMax(init: seq<AclEntry>, e: AclEntry)
    requires forall j :: 0 <= j < |init| && KeyOf(init[j]) == KeyOf(e) ==> Rank(init[j].permission) < Rank(e.permission)
    ensures KeptFrom(init + [e], e)
  {
    assert IsFirstMax(init + [e], |init|);
  }

  lemma {:induction false} DedupKeepsFirstMax(rows: seq<AclEntry>, q: nat)
    requires q < |Dedup(rows)|
    ensures KeptFrom(rows, Dedup(rows)[q])
  {
    var n := |rows| - 1;
    var e, init := rows[n], rows[..n];
    assert rows == init + [e];
    var front := Dedup(init);
    var p := Position(front, KeyOf(e));
    DedupDistinct(init);
    if q < |front| {
      DedupKeepsFirstMax(init, q);
      var i: nat :| i < |init| && IsFirstMax(init, i) && init[i] == front[q];
      if q == p && Rank(e.permission) > Rank(front[p].permission) {
        NewFirstMax(init, e);
      } else {
        FirstMaxExtends(init, e, i);
      }
    } else {
      forall j | 0 <= j < |init| ensures KeyOf(init[j]) != KeyOf(e) {
        DedupCovers(init, init[j]);
      }
      NewFirstMax(init, e);
    }
  }

  function KeyList(rows: seq<AclEntry>): (r: seq<Key>)
    ensures |r| == |rows| && forall i :: 0 <= i < |rows| ==> r[i] == KeyOf(rows[i])
  {
    seq(|rows|, i requires 0 <= i < |rows| => KeyOf(rows[i]))
  }

  /** The kept rows stand in the order in which their keys were first seen. */
  lemma {:induction false} DedupKeepsOrder(rows: seq<AclEntry>)
    ensures KeyList(Dedup(rows)) == FromKeys(KeyList(rows))
  {
    if rows == [] {
      assert KeyList(rows) == [];
    } else {
      var n := |rows| - 1;
      var e, front := rows[n], Dedup(rows[..n]);
      DedupKeepsOrder(rows[..n]);
      assert KeyList(rows)[..n] == KeyList(rows[..n]);
      var i := Position(front, KeyOf(e));
      if i == |front| {
        assert forall j :: 0 <= j < |front| ==> KeyList(front)[j] != KeyOf(e);
        assert KeyList(front + [e]) == KeyList(front) + [KeyOf(e)];
      } else {
        assert KeyList(front)[i] == KeyOf(e);
        assert KeyList(front[i := e]) == KeyList(front);
      }
    }
  }

  // ---------------------------------------------------------------- meaning

  /** Some row of every key survives: the dropped ones leave their deny row behind. */
  lemma {:induction false} KeySurvives(entries: seq<AclEntry>, e: AclEntry) returns (w: AclEntry)
    requires e in entries
    ensures w in Surviving(entries, DenyKeys(entries)) && KeyOf(w) == KeyOf(e)
  {
    var denied := DenyKeys(entries);
    if Dropped(e, denied) {
      w :| w in entries && IsDenyRow(w) && KeyOf(w) == KeyOf(e);
    } else {
      w := e;
    }
  }

  /** Exactly one row per (document, principal) of the input. */
  lemma {:induction false} OneRowPerKey(entries: seq<AclEntry>)
    ensures DistinctKeys(NormalForm(entries))
    ensures forall e :: e in entries ==> Position(NormalForm(entries), KeyOf(e)) < |NormalForm(entries)|
  {
    var rows := Surviving(entries, DenyKeys(entries));
    DedupDistinct(rows);
    forall e | e in entries ensures Position(NormalForm(entries), KeyOf(e)) < |NormalForm(entries)| {
      var w := KeySurvives(entries, e);
      DedupCovers(rows, w);
    }
  }

  /** A kept row is an input row, a deny exactly when some input row of its
      principal was one, and of the highest rank among the rows that a deny
      does not drop. */
  lemma {:induction false} KeptRowMeaning(entries: seq<AclEntry>, row: AclEntry)
    requires row in NormalForm(entries)
    ensures row in entries
    ensures row.principalId.Some? ==> (row.isDeny <==> KeyOf(row) in DenyKeys(entries))
    ensures forall e :: e in entries && KeyOf(e) == KeyOf(row) && !Dropped(e, DenyKeys(entries)) ==>
              Rank(e.permission) <= Rank(row.permission)
    ensures !Dropped(row, DenyKeys(entries))
  {
    var rows := Surviving(entries, DenyKeys(entries));
    var q :| 0 <= q < |Dedup(rows)| && Dedup(rows)[q] == row;
    DedupKeepsFirstMax(rows, q);
    var i :| 0 <= i < |rows| && IsFirstMax(rows, i) && rows[i] == row;
    assert row in rows;
    if row.isDeny && row.principalId.Some? {
      assert IsDenyRow(row);
    }
    forall e | e in entries && KeyOf(e) == KeyOf(row) && !Dropped(e, DenyKeys(entries))
      ensures Rank(e.permission) <= Rank(row.permission)
    {
      assert e in rows;
    }
  }

  /** Both rows are about one principal's access to one document, or both name no principal. */
  ghost predicate SameCase(a: AclEntry, b: AclEntry) {
    a.documentId == b.documentId && a.principalId == b.principalId
  }

  /** An allow of a principal is overruled by any deny of that principal on the document. */
  ghost predicate Overruled(entries: seq<AclEntry>, e: AclEntry) {
    e.principalId != None && !e.isDeny && exists d :: d in entries && d.isDeny && SameCase(d, e)
  }

  /** The result has one row for each document and principal of the input: a row
      of the input, not overruled, and of the highest level among those. */
  lemma {:induction false} OneBestRow(entries: seq<AclEntry>, e: AclEntry)
    ensures e in NormalForm(entries) ==>
              && e in entries && !Overruled(entries, e)
              && forall w :: w in entries && SameCase(w, e) && !Overruled(entries, w) ==>
                   Rank(w.permission) <= Rank(e.permission)
    ensures e in entries ==> exists kept :: kept in NormalForm(entries) && SameCase(kept, e)
    ensures var rows := NormalForm(entries);
            forall i, j :: 0 <= i < j < |rows| ==> !SameCase(rows[i], rows[j])
  {
    hide NormalForm, Position, Rank;
    forall w | w in entries ensures Overruled(entries, w) <==> Dropped(w, DenyKeys(entries)) {
      OverruledIsDropped(entries, w);
    }
    OneRowPerKey(entries);
    if e in NormalForm(entries) {
      KeptRowMeaning(entries, e);
    }
    if e in entries {
      var kept := NormalForm(entries)[Position(NormalForm(entries), KeyOf(e))];
      assert kept in NormalForm(entries) && KeyOf(kept) == KeyOf(e);
    }
  }

  lemma {:induction false} OverruledIsDropped(entries: seq<AclEntry>, e: AclEntry)
    ensures Overruled(entries, e) <==> Dropped(e, DenyKeys(entries))
  {
    if Overruled(entries, e) {
      var d :| d in entries && d.isDeny && SameCase(d, e);
      assert IsDenyRow(d) && KeyOf(d) == KeyOf(e);
    }
    if Dropped(e, DenyKeys(entries)) {
      var d :| d in entries && IsDenyRow(d) && KeyOf(d) == KeyOf(e);
      assert SameCase(d, e);
    }
  }

  lemma {:induction false} SurvivingKeepsAll(rows: seq<AclEntry>, denied: set<Key>)
    requires forall e :: e in rows ==> !Dropped(e, denied)
    ensures Surviving(rows, denied) == rows
  {
    if rows != [] {
      var n := |rows| - 1;
      forall e | e in rows[..n] ensures !Dropped(e, denied) {
        assert e in rows;
      }
      SurvivingKeepsAll(rows[..n], denied);
      assert rows[n] in rows;
      assert rows[..n] + [rows[n]] == rows;
    }
  }

  lemma {:induction false} DedupKeepsDistinct(rows: seq<AclEntry>)
    requires DistinctKeys(rows)
    ensures Dedup(rows) == rows
  {
    if rows != [] {
      DedupKeepsDistinct(rows[..|rows| - 1]);
    }
  }

  /** Normalising twice is normalising once, list for list. */
  lemma {:induction false} NormalFormIdempotent(entries: seq<AclEntry>)
    ensures NormalForm(NormalForm(entries)) == NormalForm(entries)
  {
    var r := NormalForm(entries);
    OneRowPerKey(entries);
    forall e | e in r ensures !Dropped(e, DenyKeys(r)) {
      forall w | w in r && KeyOf(w) == KeyOf(e) ensures w == e {
      }
    }
    SurvivingKeepsAll(r, DenyKeys(r));
    DedupKeepsDistinct(r);
  }

  /** Same key and rank, and for a principal the same deny flag. */
  ghost predicate AgreeOn(a: AclEntry, b: AclEntry) {
    && KeyOf(a) == KeyOf(b)
    && Rank(a.permission) == Rank(b.permission)
    && (a.principalId.Some? ==> a.isDeny == b.isDeny)
  }

  /** The order of the input changes nothing but which equal-rank row is kept
      and where it stands. */
  lemma {:induction false} NormalFormIgnoresOrder(a: seq<AclEntry>, b: seq<AclEntry>)
    requires multiset(a) == multiset(b)
    ensures |NormalForm(a)| == |NormalForm(b)|
    ensures forall x :: x in NormalForm(a) ==> exists y :: y in NormalForm(b) && AgreeOn(x, y)
  {
    SameRows(a, b);
    forall x | x in NormalForm(a) ensures exists y :: y in NormalForm(b) && AgreeOn(x, y) {
      var y := Partner(a, b, x);
    }
    SameLength(a, b);
  }

  lemma {:induction false} SameRows(a: seq<AclEntry>, b: seq<AclEntry>)
    requires multiset(a) == multiset(b)
    ensures forall e :: e in a <==> e in b
    ensures DenyKeys(a) == DenyKeys(b)
  {
    forall e ensures e in a <==> e in b {
      assert e in a <==> e in multiset(a);
      assert e in b <==> e in multiset(b);
    }
  }

  lemma {:induction false} SameLength(a: seq<AclEntry>, b: seq<AclEntry>)
    requires forall e :: e in a <==> e in b
    requires DenyKeys(a) == DenyKeys(b)
    ensures |NormalForm(a)| == |NormalForm(b)|
  {
    KeysIncluded(a, b);
    KeysIncluded(b, a);
    NormalFormCount(a);
    NormalFormCount(b);
    assert Keys(NormalForm(a)) == Keys(NormalForm(b));
  }

  lemma {:induction false} NormalFormCount(a: seq<AclEntry>)
    ensures |Keys(NormalForm(a))| == |NormalForm(a)|
  {
    OneRowPerKey(a);
    KeyCount(NormalForm(a));
  }

  function Keys(rows: seq<AclEntry>): set<Key> {
    set e | e in rows :: KeyOf(e)
  }

  lemma {:induction false} Partner(a: seq<AclEntry>, b: seq<AclEntry>, x: AclEntry) returns (y: AclEntry)
    requires forall e :: e in a <==> e in b
    requires DenyKeys(a) == DenyKeys(b)
    requires x in NormalForm(a)
    ensures y in NormalForm(b) && AgreeOn(x, y)
  {
    KeptRowMeaning(a, x);
    OneRowPerKey(b);
    y := NormalForm(b)[Position(NormalForm(b), KeyOf(x))];
    KeptRowMeaning(b, y);
  }

  lemma {:induction false} KeysIncluded(a: seq<AclEntry>, b: seq<AclEntry>)
    requires forall e :: e in a <==> e in b
    requires DenyKeys(a) == DenyKeys(b)
    ensures Keys(NormalForm(a)) <= Keys(NormalForm(b))
  {
    forall k | k in Keys(NormalForm(a)) ensures k in Keys(NormalForm(b)) {
      var x :| x in NormalForm(a) && KeyOf(x) == k;
      var y := Partner(a, b, x);
    }
  }

  lemma {:induction false} KeyCount(rows: seq<AclEntry>)
    requires DistinctKeys(rows)
    ensures |Keys(rows)| == |rows|
  {
    if rows != [] {
      var n := |rows| - 1;
      KeyCount(rows[..n]);
      assert rows == rows[..n] + [rows[n]];
      assert Keys(rows) == Keys(rows[..n]) + {KeyOf(rows[n])};
      assert KeyOf(rows[n]) !in Keys(rows[..n]);
    }
  }

  // ---------------------------------------------------------------- algorithm

  /** The kept rows, as the insertion-ordered dict `best` holds them. */
  ghost predicate DictHolds(order: seq<Key>, best: map<Key, AclEntry>, rows: seq<AclEntry>) {
    && |order| == |rows|
    && (forall j :: 0 <= j < |rows| ==> order[j] == KeyOf(rows[j]) && order[j] in best && best[order[j]] == rows[j])
    && (forall k :: k in best ==> k in order)
    && DistinctKeys(rows)
  }

  lemma {:induction false} DictFinds(order: seq<Key>, best: map<Key, AclEntry>, rows: seq<AclEntry>, k: Key)
    requires DictHolds(order, best, rows)
    ensures k in best <==> Position(rows, k) < |rows|
    ensures k in best ==> best[k] == rows[Position(rows, k)]
  {
    var p := Position(rows, k);
    if p < |rows| {
      assert order[p] == k;
    }
  }

  lemma {:induction false} DictAppends(order: seq<Key>, best: map<Key, AclEntry>, rows: seq<AclEntry>, e: AclEntry)
    requires DictHolds(order, best, rows) && KeyOf(e) !in best
    ensures DictHolds(order + [KeyOf(e)], best[KeyOf(e) := e], rows + [e])
  {
  }

  lemma {:induction false} DictReplaces(order: seq<Key>, best: map<Key, AclEntry>, rows: seq<AclEntry>, e: AclEntry)
    requires DictHolds(order, best, rows) && Position(rows, KeyOf(e)) < |rows|
    ensures DictHolds(order, best[KeyOf(e) := e], rows[Position(rows, KeyOf(e)) := e])
  {
  }

  /** The last loop of `_apply_deny_overrides`. */
  method BestPerKey(filtered: seq<AclEntry>) returns (result: seq<AclEntry>)
    ensures result == Dedup(filtered)
  {
    var order: seq<Key>, best: map<Key, AclEntry> := [], map[];
    ghost var kept: seq<AclEntry> := [];
    for i := 0 to |filtered|
      invariant kept == Dedup(filtered[..i])
      invariant DictHolds(order, best, kept)
    {
      var entry := filtered[i];
      var key := KeyOf(entry);
      assert filtered[..i + 1][..i] == filtered[..i];
      DictFinds(order, best, kept, key);
      if key !in best {
        DictAppends(order, best, kept, entry);
        order, best := order + [key], best[key := entry];
      } else if Rank(entry.permission) > Rank(best[key].permission) {
        DictReplaces(order, best, kept, entry);
        best := best[key := entry];
      }
      kept := Dedup(filtered[..i + 1]);
    }
    assert filtered[..|filtered|] == filtered;
    result := seq(|order|, j requires 0 <= j < |order| && order[j] in best => best[order[j]]);
  }

  method ApplyDenyOverrides(entries: seq<AclEntry>) returns (result: seq<AclEntry>)
    ensures result == NormalForm(entries)
  {
    var denyKeys: set<Key> := {};
    for i := 0 to |entries|
      invariant denyKeys == DenyKeys(entries[..i])
    {
      assert entries[..i + 1] == entries[..i] + [entries[i]];
      if entries[i].isDeny && entries[i].principalId.Some? {
        denyKeys := denyKeys + {KeyOf(entries[i])};
      }
    }
    assert entries[..|entries|] == entries;
    var filtered: seq<AclEntry> := [];
    for i := 0 to |entries|
      invariant filtered == Surviving(entries[..i], denyKeys)
    {
      assert entries[..i + 1][..i] == entries[..i];
      if !(entries[i].principalId.Some? && KeyOf(entries[i]) in denyKeys && !entries[i].isDeny) {
        filtered := filtered + [entries[i]];
      }
    }
    result := BestPerKey(filtered);
  }
}
