/** `process_drive_notification` and `process_gmail_notification`
    (backend/app/workers/tasks.py): fetch the changes since the stored cursor,
    index, delete, then store the new cursor, while the source keeps changing
    and the worker may be killed between any two writes. */
module NotificationSync {
  import opened Prelude
  import opened CrawlModel

  /** The source's history: an id gets a document, or is removed. */
  datatype Change = Change(id: string, doc: Option<Doc>)

  /** The source after the first n changes. */
  function SourceAt(log: seq<Change>, n: nat): Index
    requires n <= |log|
  {
    if n == 0 then map[]
    else
      var before := SourceAt(log, n - 1);
      var c := log[n - 1];
      if c.doc.Some? then before[c.id := c.doc.value] else before - {c.id}
  }

  predicate ChangedIn(log: seq<Change>, from: nat, to: nat, id: string)
    requires to <= |log|
  {
    exists i :: from <= i < to && log[i].id == id
  }

  predicate ChangedSince(log: seq<Change>, from: nat, id: string) {
    ChangedIn(log, from, |log|, id)
  }

  lemma {:induction false} UnchangedBetween(log: seq<Change>, from: nat, to: nat, id: string)
    requires from <= to <= |log| && !ChangedIn(log, from, to, id)
    ensures At(SourceAt(log, from), id) == At(SourceAt(log, to), id)
  {
    if from < to {
      UnchangedBetween(log, from, to - 1, id);
      assert log[to - 1].id != id;
    }
  }

  lemma {:induction false} HistoryIsStable(log: seq<Change>, log': seq<Change>, n: nat)
    requires log <= log' && n <= |log|
    ensures SourceAt(log, n) == SourceAt(log', n)
  {
    if n > 0 {
      HistoryIsStable(log, log', n - 1);
    }
  }

  // ---------------------------------------------------------------- what a fetch returns

  /** `upto` is where `next_cursor` points; Drive may page, so it need not be the end. */
  datatype Batch = Batch(docs: Upserts, deleted: seq<string>, upto: nat, hasCursor: bool)

  /** The state the batch reports for an id: deletions are applied after documents. */
  function Reported(b: Batch, id: string): Option<Doc> {
    if id in b.deleted then None else At(Applied(map[], b.docs), id)
  }

  predicate Mentions(b: Batch, id: string) {
    id in b.deleted || id in Ids(b.docs)
  }

  /** The connector's promise at the time of the fetch: only changed ids are
      mentioned, and an id changed before `upto` and not since is reported as it
      stood there. An id that changed again later may be reported in any state. */
  ghost predicate ValidBatch(log: seq<Change>, cursor: nat, b: Batch) {
    && cursor <= b.upto <= |log|
    && (forall id :: Mentions(b, id) ==> ChangedIn(log, cursor, b.upto, id))
    && (forall id :: ChangedIn(log, cursor, b.upto, id) && !ChangedSince(log, b.upto, id) ==>
          Mentions(b, id) && Reported(b, id) == At(SourceAt(log, b.upto), id))
  }

  lemma {:induction false} BatchStaysValid(log: seq<Change>, log': seq<Change>, cursor: nat, b: Batch)
    requires ValidBatch(log, cursor, b) && log <= log'
    ensures ValidBatch(log', cursor, b)
  {
    HistoryIsStable(log, log', b.upto);
    forall id ensures ChangedIn(log, cursor, b.upto, id) <==> ChangedIn(log', cursor, b.upto, id)
              ensures ChangedSince(log, b.upto, id) ==> ChangedSince(log', b.upto, id) {
      if i :| cursor <= i < b.upto && log'[i].id == id {
        assert log[i].id == id;
      }
      if i :| cursor <= i < b.upto && log[i].id == id {
        assert log'[i].id == id;
      }
      if i :| b.upto <= i < |log| && log[i].id == id {
        assert log'[i].id == id;
      }
    }
  }

  // ---------------------------------------------------------------- the invariant

  /** The index holds the source as of `cursor` on every id not changed since,
      except those in `missing`. */
  ghost predicate Agrees(log: seq<Change>, index: Index, cursor: nat, missing: set<string>) {
    && cursor <= |log|
    && forall id :: id !in missing && !ChangedSince(log, cursor, id) ==> At(index, id) == At(SourceAt(log, cursor), id)
  }

  lemma {:induction false} GrowthKeeps(log: seq<Change>, log': seq<Change>, index: Index, cursor: nat,
                                       missing: set<string>)
    requires Agrees(log, index, cursor, missing) && log <= log'
    ensures Agrees(log', index, cursor, missing)
  {
    HistoryIsStable(log, log', cursor);
    forall id | ChangedSince(log, cursor, id) ensures ChangedSince(log', cursor, id) {
      var i :| cursor <= i < |log| && log[i].id == id;
      assert log'[i].id == id;
    }
  }

  /** A write to an id changed since the cursor cannot hurt: killed there, the
      worker will be told about that id again. */
  lemma {:induction false} WriteKeeps(log: seq<Change>, index: Index, index': Index, cursor: nat, missing: set<string>)
    requires Agrees(log, index, cursor, missing)
    requires forall id :: At(index', id) != At(index, id) ==> ChangedSince(log, cursor, id)
    ensures Agrees(log, index', cursor, missing)
  {
  }

  function Without(index: Index, ids: seq<string>): Index {
    index - ToSet(ids)
  }

  /** The documents of the batch whose pipeline run succeeds. */
  function Compiled(docs: Upserts, failed: set<string>): Upserts {
    if docs == [] then []
    else
      var n := |docs| - 1;
      Compiled(docs[..n], failed) + (if docs[n].0 in failed then [] else [docs[n]])
  }

  lemma {:induction false} CompiledMember(docs: Upserts, failed: set<string>, d: (string, Doc))
    ensures d in Compiled(docs, failed) <==> d in docs && d.0 !in failed
  {
    if docs != [] {
      var n := |docs| - 1;
      assert docs == docs[..n] + [docs[n]];
      CompiledMember(docs[..n], failed, d);
    }
  }

  lemma {:induction false} CompiledApplies(index: Index, docs: Upserts, failed: set<string>, id: string)
    ensures At(Applied(index, Compiled(docs, failed)), id)
         == if id in failed then At(index, id) else At(Applied(index, docs), id)
  {
    hide Applied, Compiled;
    if docs == [] {
      NothingCompiled(index, failed);
    } else {
      var n := |docs| - 1;
      var kept := Compiled(docs[..n], failed);
      CompiledApplies(index, docs[..n], failed, id);
      AppliedPush(index, kept, docs[n]);
      AppliedPush(index, docs[..n], docs[n]);
      assert docs == docs[..n] + [docs[n]];
      CompiledStep(docs, failed);
    }
  }

  lemma {:induction false} NothingCompiled(index: Index, failed: set<string>)
    ensures Compiled([], failed) == [] && Applied(index, []) == index
  {
  }

  lemma {:induction false} CompiledStep(docs: Upserts, failed: set<string>)
    requires docs != []
    ensures var n := |docs| - 1;
            var kept := Compiled(docs[..n], failed);
            Compiled(docs, failed) == if docs[n].0 in failed then kept else kept + [docs[n]]
  {
    assert Compiled(docs[..|docs| - 1], failed) + [] == Compiled(docs[..|docs| - 1], failed);
  }

  lemma {:induction false} AppliedPush(index: Index, docs: Upserts, d: (string, Doc))
    ensures Applied(index, docs + [d]) == Applied(index, docs)[d.0 := d.1]
  {
    assert (docs + [d])[..|docs|] == docs;
  }

  /** Listed documents that were dropped because their pipeline run failed. */
  ghost predicate Lost(b: Batch, failed: set<string>, id: string) {
    id in Ids(b.docs) && id in failed && id !in b.deleted
  }

  function Outcome(index: Index, b: Batch, failed: set<string>): Index {
    Without(Applied(index, Compiled(b.docs, failed)), b.deleted)
  }

  lemma {:induction false} OutcomeAt(index: Index, b: Batch, failed: set<string>, id: string)
    ensures !Mentions(b, id) || Lost(b, failed, id) ==> At(Outcome(index, b, failed), id) == At(index, id)
    ensures Mentions(b, id) && !Lost(b, failed, id) ==> At(Outcome(index, b, failed), id) == Reported(b, id)
  {
    CompiledApplies(index, b.docs, failed, id);
    if id in Ids(b.docs) {
      AppliedOverwrites(index, map[], b.docs, id);
    } else {
      AppliedElsewhere(index, b.docs, id);
    }
  }

  /** Which ids may be behind once the batch is in. */
  ghost function MissingAfter(missing: set<string>, b: Batch, failed: set<string>): set<string> {
    (set id | id in missing && !(Mentions(b, id) && !Lost(b, failed, id)))
    + (set id | id in Ids(b.docs) && Lost(b, failed, id))
  }

  /** Storing the new cursor: the index agrees with the source there, except on
      ids that were behind already or whose document was dropped. */
  lemma {:induction false} SaveAdvances(log: seq<Change>, index: Index, cursor: nat, missing: set<string>, b: Batch,
                                        failed: set<string>)
    requires ValidBatch(log, cursor, b) && Agrees(log, index, cursor, missing)
    ensures Agrees(log, Outcome(index, b, failed), b.upto, MissingAfter(missing, b, failed))
  {
    forall id | id !in MissingAfter(missing, b, failed) && !ChangedSince(log, b.upto, id)
      ensures At(Outcome(index, b, failed), id) == At(SourceAt(log, b.upto), id)
    {
      OutcomeAt(index, b, failed, id);
      if !ChangedIn(log, cursor, b.upto, id) {
        SplitChange(log, cursor, b.upto, id);
        UnchangedBetween(log, cursor, b.upto, id);
      }
    }
  }

  lemma {:induction false} SplitChange(log: seq<Change>, from: nat, mid: nat, id: string)
    requires from <= mid <= |log| && !ChangedIn(log, from, mid, id) && !ChangedSince(log, mid, id)
    ensures !ChangedSince(log, from, id)
  {
  }

  /** With no pipeline failure nothing falls behind. */
  lemma {:induction false} NothingDropped(missing: set<string>, b: Batch)
    ensures MissingAfter(missing, b, {}) <= missing
  {
  }

  /** The exact price of a dropped document. Starting with nothing behind, the
      stored cursor does not run ahead of the index if and only if every dropped
      document that has not changed again was already indexed in its present state. */
  lemma {:induction false} CursorNotAheadIff(log: seq<Change>, index: Index, cursor: nat, b: Batch, failed: set<string>)
    requires ValidBatch(log, cursor, b) && Agrees(log, index, cursor, {})
    ensures Agrees(log, Outcome(index, b, failed), b.upto, {})
       <==> forall id :: Lost(b, failed, id) && !ChangedSince(log, b.upto, id) ==> At(index, id) == Reported(b, id)
  {
    SaveAdvances(log, index, cursor, {}, b, failed);
    forall id ensures Lost(b, failed, id) ==> At(Outcome(index, b, failed), id) == At(index, id) {
      OutcomeAt(index, b, failed, id);
    }
  }

  /** A cursor that runs ahead: the one new document is dropped, its change passed. */
  lemma {:induction false} DroppedDocument()
    ensures var log, batch := [Change("a", Some("x"))], Batch([("a", "x")], [], 1, true);
            && ValidBatch(log, 0, batch) && Agrees(log, map[], 0, {})
            && !Agrees(log, Outcome(map[], batch, {"a"}), 1, {})
  {
    var log, batch := [Change("a", Some("x"))], Batch([("a", "x")], [], 1, true);
    assert log[0].id == "a" && batch.docs[0] == ("a", "x") && batch.docs[..0] == [];
    assert Applied(map[], batch.docs) == Applied(map[], batch.docs[..0])["a" := "x"] == map["a" := "x"];
    assert SourceAt(log, 0) == map[] && SourceAt(log, 1) == map["a" := "x"];
    assert forall id :: ChangedIn(log, 0, 1, id) <==> id == "a";
    assert forall id :: Mentions(batch, id) <==> id == "a";
    assert Compiled(batch.docs[..0], {"a"}) == [];
    assert Compiled(batch.docs, {"a"}) == [] && Outcome(map[], batch, {"a"}) == map[];
    assert !ChangedSince(log, 1, "a");
    assert At(map[], "a") != At(SourceAt(log, 1), "a");
  }

  /** At the end of the history the index is the source. */
  lemma {:induction false} CaughtUp(log: seq<Change>, index: Index)
    requires Agrees(log, index, |log|, {})
    ensures index == SourceAt(log, |log|)
  {
    forall id ensures At(index, id) == At(SourceAt(log, |log|), id) {
      assert !ChangedSince(log, |log|, id);
    }
    EqualIfAgree(index, SourceAt(log, |log|));
  }

  // ---------------------------------------------------------------- the tasks

  /** What happens between two writes: the source changes, and perhaps a kill. */
  datatype Tick = Tick(changes: seq<Change>, kill: bool)

  class Upstream {
    var log: seq<Change>
    const script: seq<Tick>
    var at: nat

    constructor (log: seq<Change>, script: seq<Tick>)
      ensures this.log == log && this.script == script && at == 0
    {
      this.log, this.script, this.at := log, script, 0;
    }

    /** From now on nothing changes and nothing is killed. */
    ghost predicate Still()
      reads this
    {
      forall i :: at <= i < |script| ==> script[i] == Tick([], false)
    }

    /** A kill came between step `from` and now. */
    ghost predicate Struck(from: nat)
      reads this
    {
      exists i :: from <= i < at && i < |script| && script[i].kill
    }

    method Next() returns (killed: bool)
      modifies this
      ensures at == old(at) + 1
      ensures killed <==> old(at) < |script| && script[old(at)].kill
      ensures log == old(log) + if old(at) < |script| then script[old(at)].changes else []
      ensures old(Still()) ==> Still() && log == old(log) && !killed
    {
      var tick := if at < |script| then script[at] else Tick([], false);
      at := at + 1;
      log := log + tick.changes;
      killed := tick.kill;
    }
  }

  datatype Status = NoCursor | Killed | Raised | Success

  /** A connector that keeps its promise for every history and cursor. */
  ghost predicate Connector(fetch: (seq<Change>, nat) -> Batch) {
    forall log, cursor: nat :: cursor <= |log| ==> ValidBatch(log, cursor, fetch(log, cursor))
  }

  /** And that moves on while there are changes left. */
  ghost predicate Progresses(fetch: (seq<Change>, nat) -> Batch) {
    forall log, cursor: nat :: cursor < |log| ==> fetch(log, cursor).hasCursor && fetch(log, cursor).upto > cursor
  }

  class NotificationWorker {
    const upstream: Upstream
    var index: Index
    var cursor: Option<nat>
    ghost var missing: set<string>

    constructor (upstream: Upstream, index: Index, cursor: Option<nat>)
      requires cursor.Some? ==> Agrees(upstream.log, index, cursor.value, {})
      ensures Invariant() && missing == {}
      ensures this.upstream == upstream && this.index == index && this.cursor == cursor
    {
      this.upstream, this.index, this.cursor, missing := upstream, index, cursor, {};
    }

    ghost predicate Invariant()
      reads this, upstream
    {
      cursor.Some? ==> Agrees(upstream.log, index, cursor.value, missing)
    }

    /** One notification. `batch` is the connector's answer for the stored cursor,
        `failed` the ids whose pipeline run fails. In every state in which it may
        be left the invariant holds; a failed run leaves the cursor where it was. */
    method ProcessNotification(batch: Batch, failed: set<string>) returns (status: Status)
      requires Invariant()
      requires cursor.Some? ==> ValidBatch(upstream.log, cursor.value, batch)
      modifies this, upstream
      ensures Invariant()
      ensures status == NoCursor <==> old(cursor).None?
      ensures status == Raised <==>
                old(cursor).Some? && batch.docs != [] && forall d :: d in batch.docs ==> d.0 in failed
      ensures status == Killed <==> upstream.Struck(old(upstream.at))
      ensures status == Success ==>
                upstream.at == old(upstream.at) + |Compiled(batch.docs, failed)| + |batch.deleted| + 1
      ensures status != Success ==> cursor == old(cursor) && missing == old(missing)
      ensures status == Success ==>
                && index == Outcome(old(index), batch, failed)
                && cursor == (if batch.hasCursor then Some(batch.upto) else old(cursor))
                && missing == if batch.hasCursor then MissingAfter(old(missing), batch, failed) else old(missing)
      ensures old(upstream.Still()) ==> upstream.Still() && upstream.log == old(upstream.log)
      ensures old(cursor).Some? && old(upstream.Still()) && failed == {} ==> status == Success
    {
      hide Outcome, MissingAfter, Agrees, ValidBatch;
      if cursor.None? {
        return NoCursor;
      }
      ghost var before := index;
      var unified := Compiled(batch.docs, failed);
      forall d ensures d in unified <==> d in batch.docs && d.0 !in failed {
        CompiledMember(batch.docs, failed, d);
      }
      if |batch.docs| > 0 && |unified| == 0 {
        assert forall d :: d in batch.docs && d.0 !in failed ==> d in unified;
        return Raised;
      }
      assert unified != [] ==> unified[0] in unified;
      assert batch.docs != [] ==> exists d :: d in batch.docs && d.0 !in failed;
      hide Compiled;
      var killed := IndexDocuments(batch, failed, unified, before);
      if killed {
        return Killed;
      }
      killed := DeleteDocuments(batch, failed, before);
      if killed {
        return Killed;
      }
      killed := Pause(batch, index);
      if killed {
        return Killed;
      }
      if batch.hasCursor {
        SaveWhole(before, batch, failed);
        cursor := Some(batch.upto);
        missing := MissingAfter(missing, batch, failed);
      }
      return Success;
    }

    /** Any number of notifications, each fetched at the stored cursor, killed and
        interleaved with changes as the script says, until the cursor is at the end
        of the history. If no document was ever dropped the index then is the
        source; and once the source is still, as many rounds as there are changes
        left are enough. */
    method RunUntilCaughtUp(fetch: (seq<Change>, nat) -> Batch, failures: seq<set<string>>) returns (done: bool)
      requires Invariant() && cursor.Some? && Connector(fetch)
      modifies this, upstream
      ensures Invariant() && cursor.Some?
      ensures done ==> cursor == Some(|upstream.log|)
      ensures done && old(missing) == {} && (forall f :: f in failures ==> f == {}) ==>
                index == SourceAt(upstream.log, |upstream.log|)
      ensures (&& old(upstream.Still()) && Progresses(fetch) && (forall f :: f in failures ==> f == {})
               && |failures| >= |old(upstream.log)| - old(cursor).value) ==> done
    {
      ghost var noDrops := forall f :: f in failures ==> f == {};
      for i := 0 to |failures|
        invariant Invariant() && cursor.Some?
        invariant old(missing) == {} && noDrops ==> missing == {}
        invariant old(upstream.Still()) ==> upstream.Still() && upstream.log == old(upstream.log)
        invariant old(upstream.Still()) && Progresses(fetch) && noDrops ==> cursor.value >= old(cursor).value + i
      {
        if cursor.value == |upstream.log| {
          CaughtUpIfWhole();
          return true;
        }
        var batch := fetch(upstream.log, cursor.value);
        assert failures[i] in failures;
        NothingDropped(missing, batch);
        hide ValidBatch, Agrees, Outcome, MissingAfter;
        var _ := ProcessNotification(batch, failures[i]);
      }
      done := cursor.value == |upstream.log|;
      if done {
        CaughtUpIfWhole();
      }
    }

    lemma {:induction false} CaughtUpIfWhole()
      requires Invariant() && cursor == Some(|upstream.log|)
      ensures missing == {} ==> index == SourceAt(upstream.log, |upstream.log|)
    {
      if missing == {} {
        CaughtUp(upstream.log, index);
      }
    }

    /** Having written the whole batch over `before`, the cursor may advance. */
    lemma {:induction false} SaveWhole(before: Index, batch: Batch, failed: set<string>)
      requires cursor.Some? && ValidBatch(upstream.log, cursor.value, batch) && Invariant()
      requires index == Outcome(before, batch, failed)
      ensures Agrees(upstream.log, index, batch.upto, MissingAfter(missing, batch, failed))
    {
      SaveAdvances(upstream.log, index, cursor.value, missing, batch, failed);
      forall id ensures At(Outcome(index, batch, failed), id) == At(index, id) {
        OutcomeAt(index, batch, failed, id);
        OutcomeAt(before, batch, failed, id);
      }
      EqualIfAgree(Outcome(index, batch, failed), index);
    }

    /** Time passes between two writes. */
    method Pause(batch: Batch, ghost same: Index) returns (killed: bool)
      requires cursor.Some? && Invariant() && ValidBatch(upstream.log, cursor.value, batch)
      modifies upstream
      ensures Invariant() && ValidBatch(upstream.log, cursor.value, batch)
      ensures upstream.at == old(upstream.at) + 1 && (killed <==> upstream.Struck(old(upstream.at)))
      ensures old(upstream.Still()) ==> upstream.Still() && upstream.log == old(upstream.log) && !killed
    {
      ghost var log := upstream.log;
      killed := upstream.Next();
      GrowthKeeps(log, upstream.log, index, cursor.value, missing);
      BatchStaysValid(log, upstream.log, cursor.value, batch);
    }

    method IndexDocuments(batch: Batch, ghost failed: set<string>, unified: Upserts, ghost before: Index)
      returns (killed: bool)
      requires cursor.Some? && Invariant() && ValidBatch(upstream.log, cursor.value, batch)
      requires index == before && unified == Compiled(batch.docs, failed)
      modifies this`index, upstream
      ensures Invariant() && ValidBatch(upstream.log, cursor.value, batch)
      ensures !killed ==> index == Applied(before, unified)
      ensures killed <==> upstream.Struck(old(upstream.at))
      ensures upstream.at >= old(upstream.at) && (!killed ==> upstream.at == old(upstream.at) + |unified|)
      ensures old(upstream.Still()) ==> upstream.Still() && upstream.log == old(upstream.log) && !killed
    {
      assert unified[..0] == [];
      for i := 0 to |unified|
        invariant Invariant() && ValidBatch(upstream.log, cursor.value, batch)
        invariant old(upstream.Still()) ==> upstream.Still() && upstream.log == old(upstream.log)
        invariant index == Applied(before, unified[..i])
        invariant upstream.at == old(upstream.at) + i && !upstream.Struck(old(upstream.at))
      {
        killed := Pause(batch, index);
        if killed {
          return;
        }
        var d := unified[i];
        assert unified[..i + 1][..i] == unified[..i];
        CompiledMember(batch.docs, failed, d);
        assert d in unified && d.0 in Ids(batch.docs) && Mentions(batch, d.0);
        TouchKeeps(batch, index[d.0 := d.1], d.0);
        index := index[d.0 := d.1];
      }
      assert unified[..|unified|] == unified;
      killed := false;
    }

    method DeleteDocuments(batch: Batch, ghost failed: set<string>, ghost before: Index) returns (killed: bool)
      requires cursor.Some? && Invariant() && ValidBatch(upstream.log, cursor.value, batch)
      requires index == Applied(before, Compiled(batch.docs, failed))
      modifies this`index, upstream
      ensures Invariant() && ValidBatch(upstream.log, cursor.value, batch)
      ensures !killed ==> index == Outcome(before, batch, failed)
      ensures killed <==> upstream.Struck(old(upstream.at))
      ensures upstream.at >= old(upstream.at) && (!killed ==> upstream.at == old(upstream.at) + |batch.deleted|)
      ensures old(upstream.Still()) ==> upstream.Still() && upstream.log == old(upstream.log) && !killed
    {
      ghost var indexed := index;
      hide ValidBatch, Agrees, SourceAt, Applied, Compiled;
      for i := 0 to |batch.deleted|
        invariant Invariant() && ValidBatch(upstream.log, cursor.value, batch)
        invariant old(upstream.Still()) ==> upstream.Still() && upstream.log == old(upstream.log)
        invariant index == Without(indexed, batch.deleted[..i])
        invariant upstream.at == old(upstream.at) + i && !upstream.Struck(old(upstream.at))
      {
        killed := Pause(batch, index);
        if killed {
          return;
        }
        var id := batch.deleted[i];
        assert ToSet(batch.deleted[..i + 1]) == ToSet(batch.deleted[..i]) + {id};
        TouchKeeps(batch, index - {id}, id);
        index := index - {id};
      }
      assert batch.deleted[..|batch.deleted|] == batch.deleted;
      killed := false;
    }

    /** Writing one id the batch mentions keeps the invariant. */
    lemma {:induction false} TouchKeeps(batch: Batch, index': Index, id: string)
      requires cursor.Some? && Invariant() && ValidBatch(upstream.log, cursor.value, batch) && Mentions(batch, id)
      requires forall x :: x != id ==> At(index', x) == At(index, x)
      ensures Agrees(upstream.log, index', cursor.value, missing)
    {
      var i :| cursor.value <= i < batch.upto && upstream.log[i].id == id;
      assert ChangedSince(upstream.log, cursor.value, id);
      WriteKeeps(upstream.log, index, index', cursor.value, missing);
    }
  }
}
