/** What a crawl reads and writes (backend/app/services/sync.py): a connector's
    deterministic page chain, an id-to-document index, and how the index must
    relate to the stored cursor at every moment. */
module CrawlModel {
  import opened Prelude

  type Doc = string
  type Index = map<string, Doc>
  type Upserts = seq<(string, Doc)>

  /** `deletions` are the pages of fetch_deleted_ids (none when the source does
      not support it). Page 0 of `pages` answers an absent cursor and page i + 1
      answers tokens[i]; any other cursor is rejected as invalid. The last page
      may still carry a cursor, `finalToken`, or claim more without one,
      `lastHasMore`; "" is an absent cursor. */
  datatype Source = Source(deletions: seq<seq<string>>, pages: seq<Upserts>, tokens: seq<string>,
                           finalToken: string, lastHasMore: bool)
  {
    ghost predicate Valid() {
      |pages| > 0 && |tokens| == |pages| - 1 && Distinct(tokens) && "" !in tokens
    }

    /** No deleted id is listed as well. */
    ghost predicate Apart() {
      Deleted() !! Ids(Flat(pages))
    }

    /** Every deleted id listed before page `from` is listed again from there on. */
    ghost predicate Relisted(from: nat)
      requires from <= |pages|
    {
      forall id :: id in Deleted() && id in Ids(Flat(pages[..from])) ==> id in Ids(Flat(pages[from..]))
    }

    ghost function Deleted(): set<string> {
      set page, id | page in deletions && id in page :: id
    }

    /** The page a crawl at `cursor` still has to read: 0 for an absent cursor
        and for one the source no longer knows. */
    function Position(cursor: string): (j: nat)
      ensures j <= |tokens|
      ensures j > 0 ==> tokens[j - 1] == cursor
      ensures j == 0 ==> cursor !in tokens
    {
      Find(tokens, cursor)
    }

    predicate Knows(cursor: string) {
      cursor == "" || cursor in tokens
    }

    /** The cursor stored once every page is read: the one the last page
        carries, else the one that led to it, absent for a single page. */
    ghost function LastCursor(): string {
      if finalToken != "" then finalToken else if tokens == [] then "" else tokens[|tokens| - 1]
    }

    function NextCursor(j: nat): string
      requires j < |pages| && |tokens| == |pages| - 1
    {
      if j < |tokens| then tokens[j] else finalToken
    }
  }

  function Find(tokens: seq<string>, cursor: string): (j: nat)
    ensures j <= |tokens|
    ensures j > 0 ==> tokens[j - 1] == cursor
    ensures j == 0 ==> cursor !in tokens
  {
    if tokens == [] then 0
    else if tokens[|tokens| - 1] == cursor then |tokens|
    else
      assert tokens == tokens[..|tokens| - 1] + [tokens[|tokens| - 1]];
      Find(tokens[..|tokens| - 1], cursor)
  }

  function Ids(docs: Upserts): set<string> {
    set d | d in docs :: d.0
  }

  function Flat(pages: seq<Upserts>): Upserts {
    if pages == [] then [] else pages[0] + Flat(pages[1..])
  }

  /** The index after upserting `docs` in order. */
  function Applied(index: Index, docs: Upserts): Index {
    if docs == [] then index
    else Applied(index, docs[..|docs| - 1])[docs[|docs| - 1].0 := docs[|docs| - 1].1]
  }

  function At(index: Index, id: string): Option<Doc> {
    if id in index then Some(index[id]) else None
  }

  /** `base` with the first j pages upserted. */
  function Crawled(src: Source, base: Index, j: nat): Index
    requires j <= |src.pages|
  {
    Applied(base, Flat(src.pages[..j]))
  }

  /** What one undisturbed run from an absent cursor makes of `base`. */
  ghost function FullCrawl(src: Source, base: Index): Index {
    Applied(base - src.Deleted(), Flat(src.pages))
  }

  // ---------------------------------------------------------------- the invariant

  /** Outside the pages still to come and the deleted ids, the index is what the
      pages before the cursor make of `base`; a deleted id that no page lists is
      untouched or gone. */
  ghost predicate ConsistentAt(src: Source, base: Index, index: Index, j: nat)
    requires j <= |src.pages|
  {
    && (forall id :: id !in Ids(Flat(src.pages[j..])) && id !in src.Deleted() ==>
          At(index, id) == At(Crawled(src, base, j), id))
    && (forall id :: id in src.Deleted() && id !in Ids(Flat(src.pages)) && id in index ==>
          At(index, id) == At(base, id))
  }

  /** A run that deleted first and has read the pages from `from` up to j: outside
      the pages still to come, a deleted id is as those pages make it. */
  ghost predicate DeletedFrom(src: Source, index: Index, from: nat, j: nat)
    requires from <= j <= |src.pages|
  {
    forall id :: id in src.Deleted() && id !in Ids(Flat(src.pages[j..])) ==>
      At(index, id) == At(Applied(map[], Flat(src.pages[from..j])), id)
  }

  ghost predicate Consistent(src: Source, base: Index, index: Index, cursor: string)
    requires src.Valid()
  {
    ConsistentAt(src, base, index, src.Position(cursor))
  }

  /** Every page is in. */
  ghost predicate Exhausted(src: Source, base: Index, index: Index) {
    ConsistentAt(src, base, index, |src.pages|)
  }

  ghost predicate NoneDeleted(src: Source, index: Index) {
    forall id :: id in src.Deleted() ==> id !in index
  }

  // ---------------------------------------------------------------- facts about upserts

  lemma {:induction false} AppliedElsewhere(index: Index, docs: Upserts, id: string)
    requires id !in Ids(docs)
    ensures At(Applied(index, docs), id) == At(index, id)
  {
    if docs != [] {
      var n := |docs| - 1;
      assert docs[n] in docs;
      assert forall d :: d in docs[..n] ==> d in docs;
      AppliedElsewhere(index, docs[..n], id);
    }
  }

  /** An upserted id ends with the same document whatever the index held before. */
  lemma {:induction false} AppliedOverwrites(a: Index, b: Index, docs: Upserts, id: string)
    requires id in Ids(docs) || At(a, id) == At(b, id)
    ensures At(Applied(a, docs), id) == At(Applied(b, docs), id)
  {
    if docs != [] {
      var n := |docs| - 1;
      assert docs == docs[..n] + [docs[n]];
      if docs[n].0 != id {
        AppliedOverwrites(a, b, docs[..n], id);
      }
    }
  }

  lemma {:induction false} AppliedConcat(index: Index, a: Upserts, b: Upserts)
    ensures Applied(index, a + b) == Applied(Applied(index, a), b)
  {
    if b == [] {
      assert a + b == a;
    } else {
      assert (a + b)[..|a + b| - 1] == a + b[..|b| - 1];
      AppliedConcat(index, a, b[..|b| - 1]);
    }
  }

  lemma {:induction false} FlatConcat(a: seq<Upserts>, b: seq<Upserts>)
    ensures Flat(a + b) == Flat(a) + Flat(b)
  {
    if a == [] {
      assert a + b == b;
    } else {
      assert (a + b)[1..] == a[1..] + b;
      FlatConcat(a[1..], b);
    }
  }

  lemma {:induction false} IdsConcat(a: Upserts, b: Upserts)
    ensures Ids(a + b) == Ids(a) + Ids(b)
  {
  }

  lemma {:induction false} PagesSplit(src: Source, j: nat)
    requires j <= |src.pages|
    ensures Flat(src.pages) == Flat(src.pages[..j]) + Flat(src.pages[j..])
    ensures Ids(Flat(src.pages)) == Ids(Flat(src.pages[..j])) + Ids(Flat(src.pages[j..]))
  {
    assert src.pages == src.pages[..j] + src.pages[j..];
    FlatConcat(src.pages[..j], src.pages[j..]);
    IdsConcat(Flat(src.pages[..j]), Flat(src.pages[j..]));
  }

  lemma {:induction false} NextPage(src: Source, base: Index, j: nat)
    requires j < |src.pages|
    ensures Flat(src.pages[j..]) == src.pages[j] + Flat(src.pages[j + 1..])
    ensures Ids(Flat(src.pages[j..])) == Ids(src.pages[j]) + Ids(Flat(src.pages[j + 1..]))
    ensures Crawled(src, base, j + 1) == Applied(Crawled(src, base, j), src.pages[j])
  {
    assert src.pages[j..][1..] == src.pages[j + 1..];
    IdsConcat(src.pages[j], Flat(src.pages[j + 1..]));
    assert src.pages[..j + 1] == src.pages[..j] + [src.pages[j]];
    FlatConcat(src.pages[..j], [src.pages[j]]);
    FlatOne(src.pages[j]);
    AppliedConcat(base, Flat(src.pages[..j]), src.pages[j]);
  }

  // ---------------------------------------------------------------- what keeps the invariant

  /** A crawl may start over any index when no cursor is stored, or a stale one. */
  lemma {:induction false} StartIsConsistent(src: Source, base: Index, cursor: string)
    requires src.Valid() && cursor !in src.tokens
    ensures Consistent(src, base, base, cursor)
  {
  }

  /** Deleting a deleted id keeps the index consistent. */
  lemma {:induction false} DeletionKeeps(src: Source, base: Index, index: Index, j: nat, id: string)
    requires j <= |src.pages| && ConsistentAt(src, base, index, j) && id in src.Deleted()
    ensures ConsistentAt(src, base, index - {id}, j)
  {
    forall x | x !in src.Deleted() ensures At(index - {id}, x) == At(index, x) {
    }
  }

  /** Upserting part of the page at the cursor keeps the index consistent with
      that cursor: a kill in mid-page loses nothing. */
  lemma {:induction false} PartialPageKeeps(src: Source, base: Index, index: Index, j: nat, d: (string, Doc))
    requires src.Valid() && j < |src.pages| && ConsistentAt(src, base, index, j) && d in src.pages[j]
    ensures ConsistentAt(src, base, index[d.0 := d.1], j)
  {
    NextPage(src, base, j);
    PagesSplit(src, j);
    assert d.0 in Ids(Flat(src.pages[j..]));
    forall x | x != d.0 ensures At(index[d.0 := d.1], x) == At(index, x) {
    }
  }

  /** Upserting the whole page moves the index on to the next cursor. */
  lemma {:induction false} PageAdvances(src: Source, base: Index, index: Index, j: nat)
    requires src.Valid() && j < |src.pages| && ConsistentAt(src, base, index, j)
    ensures ConsistentAt(src, base, Applied(index, src.pages[j]), j + 1)
  {
    var page := src.pages[j];
    var index' := Applied(index, page);
    NextPage(src, base, j);
    PagesSplit(src, j);
    forall id | id !in Ids(Flat(src.pages[j + 1..])) && id !in src.Deleted()
      ensures At(index', id) == At(Crawled(src, base, j + 1), id)
    {
      AppliedOverwrites(index, Crawled(src, base, j), page, id);
    }
    forall id | id in src.Deleted() && id !in Ids(Flat(src.pages)) && id in index'
      ensures At(index', id) == At(base, id)
    {
      AppliedElsewhere(index, page, id);
    }
  }

  /** And the deleted ids with it. */
  lemma {:induction false} PageAdvancesDeleted(src: Source, index: Index, from: nat, j: nat)
    requires from <= j < |src.pages| && DeletedFrom(src, index, from, j)
    ensures DeletedFrom(src, Applied(index, src.pages[j]), from, j + 1)
  {
    var page, read := src.pages[j], Flat(src.pages[from..j]);
    NextPage(src, map[], j);
    PageRead(src, from, j);
    forall id | id in src.Deleted() && id !in Ids(Flat(src.pages[j + 1..]))
      ensures At(Applied(index, page), id) == At(Applied(map[], Flat(src.pages[from..j + 1])), id)
    {
      AppliedOverwrites(index, Applied(map[], read), page, id);
    }
  }

  lemma {:induction false} PageRead(src: Source, from: nat, j: nat)
    requires from <= j < |src.pages|
    ensures Applied(map[], Flat(src.pages[from..j + 1])) ==
        Applied(Applied(map[], Flat(src.pages[from..j])), src.pages[j])
  {
    assert src.pages[from..j + 1] == src.pages[from..j] + [src.pages[j]];
    FlatConcat(src.pages[from..j], [src.pages[j]]);
    FlatOne(src.pages[j]);
    AppliedConcat(map[], Flat(src.pages[from..j]), src.pages[j]);
  }

  /** After the deletions, before any page. */
  lemma {:induction false} DeletedAtStart(src: Source, index: Index, from: nat)
    requires from <= |src.pages| && NoneDeleted(src, index)
    ensures DeletedFrom(src, index, from, from)
  {
    assert src.pages[from..from] == [];
  }

  /** Going back to the start: a deleted id no page lists is gone. */
  lemma {:induction false} ResetDeleted(src: Source, index: Index, from: nat, j: nat)
    requires from <= j <= |src.pages| && DeletedFrom(src, index, from, j)
    ensures DeletedFrom(src, index, 0, 0)
  {
    assert src.pages[0..0] == [] && src.pages[0..] == src.pages;
    PagesSplit(src, j);
    assert src.pages[..j] == src.pages[..from] + src.pages[from..j];
    FlatConcat(src.pages[..from], src.pages[from..j]);
    IdsConcat(Flat(src.pages[..from]), Flat(src.pages[from..j]));
    forall id | id in src.Deleted() && id !in Ids(Flat(src.pages)) ensures At(index, id) == None {
      AppliedElsewhere(map[], Flat(src.pages[from..j]), id);
    }
  }

  /** Going back to the start keeps the index consistent. */
  lemma {:induction false} ResetKeeps(src: Source, base: Index, index: Index, j: nat)
    requires j <= |src.pages| && ConsistentAt(src, base, index, j)
    ensures ConsistentAt(src, base, index, 0)
  {
    PagesSplit(src, j);
    assert src.pages[0..] == src.pages;
    forall id | id !in Ids(Flat(src.pages)) && id !in src.Deleted()
      ensures At(index, id) == At(Crawled(src, base, 0), id)
    {
      AppliedElsewhere(base, Flat(src.pages[..j]), id);
    }
  }

  /** Once every page is in, the index is consistent with any cursor. */
  lemma {:induction false} ExhaustedIsConsistent(src: Source, base: Index, index: Index, j: nat)
    requires j <= |src.pages| && Exhausted(src, base, index)
    ensures ConsistentAt(src, base, index, j)
  {
    var n := |src.pages|;
    assert src.pages[..n] == src.pages;
    PagesSplit(src, j);
    forall id | id !in Ids(Flat(src.pages[j..])) && id !in src.Deleted()
      ensures At(index, id) == At(Crawled(src, base, j), id)
    {
      assert id !in Ids(Flat(src.pages[n..]));
      AppliedConcat(base, Flat(src.pages[..j]), Flat(src.pages[j..]));
      AppliedElsewhere(Crawled(src, base, j), Flat(src.pages[j..]), id);
    }
  }

  /** Every page in, and the deletions made before page `from` was read: the
      index is the full crawl's exactly when the deleted ids listed earlier are
      listed again. */
  lemma {:induction false} ResumeIsExactIff(src: Source, base: Index, index: Index, from: nat)
    requires src.Valid() && from <= |src.pages|
    requires Exhausted(src, base, index) && DeletedFrom(src, index, from, |src.pages|)
    ensures index == FullCrawl(src, base) <==> src.Relisted(from)
  {
    var n, full := |src.pages|, FullCrawl(src, base);
    assert src.pages[..n] == src.pages && src.pages[n..] == [] && src.pages[from..n] == src.pages[from..];
    PagesSplit(src, from);
    forall id | id !in src.Deleted() ensures At(index, id) == At(full, id) {
      AppliedOverwrites(base, base - src.Deleted(), Flat(src.pages), id);
    }
    forall id | id in src.Deleted()
      ensures At(index, id) == At(full, id) <==>
          !(id in Ids(Flat(src.pages[..from])) && id !in Ids(Flat(src.pages[from..])))
    {
      DeletedIdIsExactIff(src, base, index, from, id);
    }
    if src.Relisted(from) {
      EqualIfAgree(index, full);
    }
  }

  lemma {:induction false} DeletedIdIsExactIff(src: Source, base: Index, index: Index, from: nat, id: string)
    requires from <= |src.pages| && id in src.Deleted() && DeletedFrom(src, index, from, |src.pages|)
    ensures At(index, id) == At(FullCrawl(src, base), id)
       <==> !(id in Ids(Flat(src.pages[..from])) && id !in Ids(Flat(src.pages[from..])))
  {
    var n, early, late := |src.pages|, Flat(src.pages[..from]), Flat(src.pages[from..]);
    assert src.pages[n..] == [] && src.pages[from..n] == src.pages[from..];
    PagesSplit(src, from);
    var clean := base - src.Deleted();
    AppliedConcat(clean, early, late);
    if id in Ids(late) {
      AppliedOverwrites(map[], Applied(clean, early), late, id);
    } else {
      AppliedElsewhere(map[], late, id);
      AppliedElsewhere(Applied(clean, early), late, id);
      if id in Ids(early) { AppliedPresent(clean, early, id); } else { AppliedElsewhere(clean, early, id); }
    }
  }

  /** Where no deleted id is listed, a finished run always leaves the full crawl. */
  lemma {:induction false} ApartIsRelisted(src: Source, from: nat)
    requires from <= |src.pages| && src.Apart()
    ensures src.Relisted(from)
  {
    PagesSplit(src, from);
  }

  lemma {:induction false} EqualIfAgree(a: Index, b: Index)
    requires forall id :: At(a, id) == At(b, id)
    ensures a == b
  {
    forall id ensures id in a <==> id in b {
      assert At(a, id) == At(b, id);
    }
    forall id | id in a ensures a[id] == b[id] {
      assert At(a, id) == At(b, id);
    }
  }

  /** A source on which a resumed run differs: "a" is deleted, and listed on the
      page before the resume point only. */
  lemma {:induction false} LostOnResume()
    ensures var src := Source([["a"]], [[("a", "x")], []], ["t"], "", false);
            src.Valid() && !src.Relisted(1)
  {
    var page: Upserts := [("a", "x")];
    var src := Source([["a"]], [page, []], ["t"], "", false);
    assert src.deletions[0] == ["a"] && "a" in src.deletions[0] && "a" in src.Deleted();
    assert src.pages[..1] == [page] && src.pages[1..] == [[]];
    FlatOne(page);
    FlatOne([]);
    assert page[0] in page && page[0].0 == "a";
  }

  lemma {:induction false} FlatOne(page: Upserts)
    ensures Flat([page]) == page
  {
    assert [page][1..] == [] && page + [] == page;
  }

  lemma {:induction false} AppliedPresent(index: Index, docs: Upserts, id: string)
    requires id in Ids(docs)
    ensures id in Applied(index, docs)
  {
    var n := |docs| - 1;
    assert docs == docs[..n] + [docs[n]];
    if docs[n].0 != id {
      AppliedPresent(index, docs[..n], id);
    }
  }
}
