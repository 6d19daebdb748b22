/** `SyncOrchestrator.run_two_pass_sync` (backend/app/services/sync.py) under
    kills and connector failures: deletions first, then the pages from the
    stored cursor on, each checkpointed after it is indexed. */
module Sync {
  import opened CrawlModel
  import opened CursorStore

  /** What may go wrong at one step. A kill stops the process at any step, a
      raised authorisation error or a disconnect seen by a callback does the
      same; a connector call may fail otherwise, or report the cursor invalid. */
  datatype Fault = NoFault | Kill | AuthError | FetchFails | CursorRejected

  /** One thing a run asks of the connector, the index or the cursor store. */
  datatype Step = FetchDeleted(page: nat) | Delete(id: string)
                | FetchPage(cursor: string) | Upsert(id: string, doc: Doc) | SaveCursor(saved: string)

  datatype Event = Event(step: Step, fault: Fault)

  /** The faults of one run, step by step, with a log of the steps that met
      them; after the last fault nothing goes wrong. */
  class Environment {
    const script: seq<Fault>
    var log: seq<Event>

    constructor (script: seq<Fault>)
      ensures this.script == script && log == []
    {
      this.script, log := script, [];
    }

    ghost predicate Quiet() {
      forall f :: f in script ==> f.NoFault?
    }

    /** The i-th step met the i-th fault. */
    ghost predicate Faithful()
      reads this
    {
      forall i :: 0 <= i < |log| ==> log[i].fault == if i < |script| then script[i] else NoFault
    }

    method Next(step: Step) returns (f: Fault)
      requires Faithful()
      modifies this
      ensures Faithful() && log == old(log) + [Event(step, f)]
      ensures Quiet() ==> f.NoFault?
    {
      f := if |log| < |script| then script[|log|] else NoFault;
      log := log + [Event(step, f)];
    }
  }

  /** How a run ends: stopped in mid-step, or returned with both passes judged. */
  datatype Outcome = Killed | Returned(deletionsDone: bool, pagesDone: bool)

  datatype Stats = Stats(indexedCount: nat, deletedCount: nat, pagesProcessed: nat, finalCursor: string)

  // ---------------------------------------------------------------- what a fault does to a run

  /** A kill or an authorisation error anywhere, and any failure of a write. */
  ghost predicate Stops(e: Event) {
    e.fault.Kill? || e.fault.AuthError? || (!e.fault.NoFault? && !e.step.FetchDeleted? && !e.step.FetchPage?)
  }

  /** From entry n on the log ends with the event that stopped the run, or holds none. */
  ghost predicate Ends(log: seq<Event>, n: nat, stopped: bool) {
    && n <= |log|
    && (forall i :: n <= i < |log| && Stops(log[i]) ==> stopped && i == |log| - 1)
    && (stopped ==> n < |log| && Stops(log[|log| - 1]))
  }

  ghost predicate InPassOne(e: Event) {
    e.step.FetchDeleted? || e.step.Delete?
  }

  ghost predicate DeletionsFirst(log: seq<Event>, n: nat) {
    forall i, j :: n <= i < j < |log| && InPassOne(log[j]) ==> InPassOne(log[i])
  }

  ghost predicate NoDeletionFetchFailed(log: seq<Event>, n: nat) {
    forall i :: n <= i < |log| && log[i].step.FetchDeleted? ==> log[i].fault.NoFault?
  }

  /** The connector called the cursor invalid: because of a fault, or because it
      is one the source does not know. */
  ghost predicate Rejected(src: Source, e: Event) {
    && e.step.FetchPage?
    && (e.fault.CursorRejected? || (e.fault.NoFault? && e.step.cursor != "" && e.step.cursor !in src.tokens))
  }

  /** The page fetch at entry i ends pass 2 early: it failed, or its cursor was
      called invalid when there was none or for the second time. */
  ghost predicate GivesUp(src: Source, log: seq<Event>, n: nat, i: nat)
    requires i < |log|
  {
    && log[i].step.FetchPage?
    && (|| log[i].fault.FetchFails?
        || (log[i].fault.CursorRejected?
            && (log[i].step.cursor == "" || exists j :: n <= j < i && Rejected(src, log[j]))))
  }

  ghost predicate NeverGivesUp(src: Source, log: seq<Event>, n: nat) {
    forall i :: n <= i < |log| ==> !GivesUp(src, log, n, i)
  }

  ghost predicate Saves(e: Event) {
    e.step.SaveCursor? && e.fault.NoFault?
  }

  /** The stored cursor is the last one saved, or the one from before. */
  ghost predicate CursorIs(log: seq<Event>, n: nat, before: string, now: string) {
    || (now == before && forall i :: n <= i < |log| ==> !Saves(log[i]))
    || exists i :: n <= i < |log| && log[i] == Event(SaveCursor(now), NoFault)
                   && forall j :: i < j < |log| ==> !Saves(log[j])
  }

  /** Documents deleted and upserted, and pages handed over, over a whole log. */
  ghost function Tally(src: Source, log: seq<Event>): (nat, nat, nat) {
    if log == [] then (0, 0, 0)
    else
      var (deleted, upserted, pages) := Tally(src, log[..|log| - 1]);
      var e := log[|log| - 1];
      (if e.step.Delete? then deleted + 1 else deleted,
       if e.step.Upsert? then upserted + 1 else upserted,
       if e.step.FetchPage? && e.fault.NoFault? && !Rejected(src, e) then pages + 1 else pages)
  }

  ghost function Plus(t: (nat, nat, nat), deleted: nat, upserted: nat, pages: nat): (nat, nat, nat) {
    (t.0 + deleted, t.1 + upserted, t.2 + pages)
  }

  lemma {:induction false} TallyOneMore(src: Source, log: seq<Event>, e: Event)
    ensures var (deleted, upserted, pages) := Tally(src, log);
            Tally(src, log + [e]) ==
              (if e.step.Delete? then deleted + 1 else deleted,
               if e.step.Upsert? then upserted + 1 else upserted,
               if e.step.FetchPage? && e.fault.NoFault? && !Rejected(src, e) then pages + 1 else pages)
  {
    assert (log + [e])[..|log|] == log;
  }

  /** Pass 1 of a run under way: `start` was the log before it, and `deleted` ids are deleted. */
  ghost predicate InDeletions(src: Source, start: seq<Event>, log: seq<Event>, deleted: nat) {
    && start <= log && Ends(log, |start|, false) && NoDeletionFetchFailed(log, |start|)
    && (forall i :: |start| <= i < |log| ==> InPassOne(log[i]))
    && Tally(src, log) == Plus(Tally(src, start), deleted, 0, 0)
  }

  /** Pass 1 stopped or left. */
  ghost predicate DeletionsOver(src: Source, start: seq<Event>, log: seq<Event>, stopped: bool, done: bool,
                                deleted: nat)
  {
    && start <= log && Ends(log, |start|, stopped)
    && (forall i :: |start| <= i < |log| ==> InPassOne(log[i]))
    && (!stopped ==> (done <==> NoDeletionFetchFailed(log, |start|)))
    && (!stopped ==> Tally(src, log) == Plus(Tally(src, start), deleted, 0, 0))
    && (if src.deletions == [] then log == start else log != start && log[|start|].step == FetchDeleted(0))
  }

  lemma {:induction false} DeletionsOneMore(src: Source, start: seq<Event>, log: seq<Event>, deleted: nat, e: Event)
    requires InDeletions(src, start, log, deleted) && InPassOne(e) && src.deletions != []
    requires log == start ==> e.step == FetchDeleted(0)
    requires log != start ==> log[|start|].step == FetchDeleted(0)
    ensures e.fault.NoFault? ==> InDeletions(src, start, log + [e], if e.step.Delete? then deleted + 1 else deleted)
    ensures Stops(e) ==> DeletionsOver(src, start, log + [e], true, false, deleted)
    ensures !Stops(e) && !e.fault.NoFault? ==> DeletionsOver(src, start, log + [e], false, false, deleted)
    ensures (log + [e])[|start|].step == FetchDeleted(0)
  {
    TallyOneMore(src, log, e);
    var log' := log + [e];
    assert log'[|log|] == e;
    assert forall i :: 0 <= i < |log| ==> log'[i] == log[i];
    hide Tally;
  }

  /** What is noted when a run begins pass 2: where the log stood when the run
      and when the pass began, and the cursor then stored. */
  datatype Began = Began(run: nat, pages: seq<Event>, cursor: string)

  /** A run in pass 2, or ended there, with `now` as the stored cursor. */
  ghost predicate Logged(log: seq<Event>, b: Began, now: string, stopped: bool) {
    && b.pages <= log && Ends(log, b.run, stopped) && DeletionsFirst(log, b.run) && CursorIs(log, b.run, b.cursor, now)
    && (forall i :: |b.pages| <= i < |log| ==> !InPassOne(log[i]))
    && (log != b.pages ==> log[|b.pages|].step == FetchPage(b.cursor))
  }

  /** Pass 2 under way. */
  ghost predicate InPages(src: Source, log: seq<Event>, b: Began, now: string, retried: bool, upserted: nat, pages: nat)
  {
    && Logged(log, b, now, false) && NeverGivesUp(src, log, b.run)
    && (retried <==> exists j :: b.run <= j < |log| && Rejected(src, log[j]))
    && Tally(src, log) == Plus(Tally(src, b.pages), 0, upserted, pages)
  }

  /** Pass 2 stopped or left. */
  ghost predicate PagesOver(src: Source, log: seq<Event>, b: Began, now: string, stopped: bool, done: bool,
                            upserted: nat, pages: nat)
  {
    && Logged(log, b, now, stopped) && log != b.pages
    && (!stopped ==> (done <==> NeverGivesUp(src, log, b.run)))
    && (!stopped ==> Tally(src, log) == Plus(Tally(src, b.pages), 0, upserted, pages))
  }

  lemma {:induction false} LoggedOneMore(log: seq<Event>, b: Began, now: string, e: Event)
    requires Logged(log, b, now, false) && !InPassOne(e)
    requires log == b.pages ==> e.step == FetchPage(b.cursor)
    ensures Logged(log + [e], b, if Saves(e) then e.step.saved else now, Stops(e)) && log + [e] != b.pages
    ensures b.run <= |log|
  {
    var log' := log + [e];
    assert log'[|log|] == e;
    assert forall i :: 0 <= i < |log| ==> log'[i] == log[i];
    if Saves(e) {
      assert log'[|log|] == Event(SaveCursor(e.step.saved), NoFault);
    } else if i :| b.run <= i < |log| && log[i] == Event(SaveCursor(now), NoFault)
                   && forall j :: i < j < |log| ==> !Saves(log[j]) {
      assert log'[i] == Event(SaveCursor(now), NoFault);
    }
  }

  lemma {:induction false} PagesOneMore(src: Source, log: seq<Event>, b: Began, now: string, retried: bool,
                                        upserted: nat, pages: nat, e: Event)
    requires InPages(src, log, b, now, retried, upserted, pages) && !InPassOne(e) && !Stops(e)
    requires log == b.pages ==> e.step == FetchPage(b.cursor)
    requires e.step.FetchPage? ==> !e.fault.FetchFails?
    requires e.step.FetchPage? && e.fault.CursorRejected? ==> e.step.cursor != "" && !retried
    ensures InPages(src, log + [e], b, if Saves(e) then e.step.saved else now, retried || Rejected(src, e),
                    if e.step.Upsert? then upserted + 1 else upserted,
                    if e.step.FetchPage? && e.fault.NoFault? && !Rejected(src, e) then pages + 1 else pages)
  {
    hide Logged, Tally, NeverGivesUp;
    var log' := log + [e];
    LoggedOneMore(log, b, now, e);
    TallyOneMore(src, log, e);
    assert forall i :: 0 <= i < |log| ==> log'[i] == log[i];
    NotGivingUp(src, log, b.run, retried, e);
    if j :| b.run <= j < |log| && Rejected(src, log[j]) {
      assert Rejected(src, log'[j]);
    } else if Rejected(src, e) {
      assert Rejected(src, log'[|log|]);
    }
  }

  lemma {:induction false} NotGivingUp(src: Source, log: seq<Event>, n: nat, retried: bool, e: Event)
    requires NeverGivesUp(src, log, n)
    requires retried <==> exists j :: n <= j < |log| && Rejected(src, log[j])
    requires e.step.FetchPage? ==> !e.fault.FetchFails?
    requires e.step.FetchPage? && e.fault.CursorRejected? ==> e.step.cursor != "" && !retried
    ensures NeverGivesUp(src, log + [e], n)
  {
    var log' := log + [e];
    hide Rejected;
    assert forall i :: 0 <= i < |log| ==> log'[i] == log[i];
    forall i | n <= i < |log'| ensures !GivesUp(src, log', n, i) {
      if i < |log| {
        assert !GivesUp(src, log, n, i);
      }
    }
  }

  lemma {:induction false} StoppingAt(src: Source, log: seq<Event>, b: Began, now: string, retried: bool,
                                      upserted: nat, pages: nat, e: Event)
    requires InPages(src, log, b, now, retried, upserted, pages) && !InPassOne(e) && Stops(e)
    requires log == b.pages ==> e.step == FetchPage(b.cursor)
    ensures PagesOver(src, log + [e], b, now, true, false, upserted, pages)
  {
    LoggedOneMore(log, b, now, e);
    hide Logged;
  }

  lemma {:induction false} GivingUp(src: Source, log: seq<Event>, b: Began, now: string, retried: bool,
                                    upserted: nat, pages: nat, e: Event)
    requires InPages(src, log, b, now, retried, upserted, pages) && e.step.FetchPage?
    requires log == b.pages ==> e.step == FetchPage(b.cursor)
    requires e.fault.FetchFails? || (e.fault.CursorRejected? && (e.step.cursor == "" || retried))
    ensures PagesOver(src, log + [e], b, now, false, false, upserted, pages)
  {
    var log' := log + [e];
    LoggedOneMore(log, b, now, e);
    TallyOneMore(src, log, e);
    hide Logged, Tally;
    if !e.fault.FetchFails? && e.step.cursor != "" {
      var j :| b.run <= j < |log| && Rejected(src, log[j]);
      assert Rejected(src, log'[j]);
    }
    assert GivesUp(src, log', b.run, |log|);
  }

  lemma {:induction false} AllRead(src: Source, log: seq<Event>, b: Began, now: string, retried: bool,
                                   upserted: nat, pages: nat)
    requires InPages(src, log, b, now, retried, upserted, pages) && log != b.pages
    ensures PagesOver(src, log, b, now, false, true, upserted, pages)
  {
  }

  /** Pass 2 starts on a log of pass 1 alone. */
  lemma {:induction false} PagesStart(src: Source, start: seq<Event>, log: seq<Event>, done: bool, deleted: nat,
                                      cursor: string)
    requires DeletionsOver(src, start, log, false, done, deleted)
    ensures InPages(src, log, Began(|start|, log, cursor), cursor, false, 0, 0)
  {
    hide Tally;
  }

  /** What the log of a whole run says. */
  ghost predicate RunLogged(src: Source, start: seq<Event>, log: seq<Event>, before: string, now: string,
                            outcome: Outcome, stats: Stats)
  {
    var n := |start|;
    && start < log
    && log[n].step == (if src.deletions != [] then FetchDeleted(0) else FetchPage(before))
    && Ends(log, n, outcome.Killed?) && DeletionsFirst(log, n) && CursorIs(log, n, before, now)
    && (outcome.Returned? ==>
          && (outcome.deletionsDone <==> NoDeletionFetchFailed(log, n))
          && (outcome.pagesDone <==> NeverGivesUp(src, log, n))
          && Tally(src, log) ==
             Plus(Tally(src, start), stats.deletedCount, stats.indexedCount, stats.pagesProcessed))
  }

  lemma {:induction false} StoppedInDeletions(src: Source, start: seq<Event>, log: seq<Event>, deleted: nat,
                                              before: string, stats: Stats)
    requires DeletionsOver(src, start, log, true, false, deleted)
    ensures RunLogged(src, start, log, before, before, Killed, stats)
  {
  }

  lemma {:induction false} StoppedInPages(src: Source, start: seq<Event>, first: seq<Event>, log: seq<Event>,
                                          done: bool, deleted: nat, upserted: nat, pages: nat,
                                          before: string, now: string, stats: Stats)
    requires DeletionsOver(src, start, first, false, done, deleted)
    requires PagesOver(src, log, Began(|start|, first, before), now, true, false, upserted, pages)
    ensures RunLogged(src, start, log, before, now, Killed, stats)
  {
    FirstStepStays(src, start, first, log, before);
  }

  lemma {:induction false} FirstStepStays(src: Source, start: seq<Event>, first: seq<Event>, log: seq<Event>,
                                          before: string)
    requires start <= first < log && log[|first|].step == FetchPage(before)
    requires if src.deletions == [] then first == start else first != start && first[|start|].step == FetchDeleted(0)
    ensures start < log
    ensures log[|start|].step == if src.deletions != [] then FetchDeleted(0) else FetchPage(before)
  {
  }

  lemma {:induction false} BothJudged(src: Source, start: seq<Event>, first: seq<Event>, log: seq<Event>,
                                      deletionsDone: bool, pagesDone: bool, before: string, now: string, stats: Stats)
    requires DeletionsOver(src, start, first, false, deletionsDone, stats.deletedCount)
    requires PagesOver(src, log, Began(|start|, first, before), now, false, pagesDone, stats.indexedCount,
                       stats.pagesProcessed)
    ensures RunLogged(src, start, log, before, now, Returned(deletionsDone, pagesDone), stats)
  {
    FirstStepStays(src, start, first, log, before);
    PassOneIsJudged(start, first, log);
    hide Tally, NoDeletionFetchFailed, NeverGivesUp;
  }

  /** Pass 2 adds nothing that pass 1 is judged by. */
  lemma {:induction false} PassOneIsJudged(start: seq<Event>, first: seq<Event>, log: seq<Event>)
    requires start <= first <= log
    requires forall i :: |first| <= i < |log| ==> !InPassOne(log[i])
    ensures NoDeletionFetchFailed(first, |start|) <==> NoDeletionFetchFailed(log, |start|)
  {
    assert forall i :: 0 <= i < |first| ==> first[i] == log[i];
  }

  /** A run disturbed only by failures to fetch deleted ids reads every page
      and reports the deletions undone. */
  lemma {:induction false} OnlyDeletionsFailed(src: Source, start: seq<Event>, log: seq<Event>, before: string,
                                               now: string, outcome: Outcome, stats: Stats)
    requires RunLogged(src, start, log, before, now, outcome, stats)
    requires forall i :: |start| <= i < |log| && !log[i].fault.NoFault? ==>
               log[i].step.FetchDeleted? && (log[i].fault.FetchFails? || log[i].fault.CursorRejected?)
    requires exists i :: |start| <= i < |log| && !log[i].fault.NoFault?
    ensures outcome == Returned(false, true)
  {
  }

  /** The first thing to go wrong in a run stops it exactly if it is a kill, an
      authorisation error or a failed write. */
  lemma {:induction false} StopsAtFirstFatalFault(src: Source, start: seq<Event>, log: seq<Event>, before: string,
                                                  now: string, outcome: Outcome, stats: Stats)
    requires RunLogged(src, start, log, before, now, outcome, stats)
    ensures outcome.Killed? <==>
        exists i :: |start| <= i < |log| &&
          (log[i].fault.Kill? || log[i].fault.AuthError?
           || (!log[i].fault.NoFault? && (log[i].step.Delete? || log[i].step.Upsert? || log[i].step.SaveCursor?)))
  {
    if outcome.Killed? {
      assert Stops(log[|log| - 1]);
    }
  }

  /** The document index: an upsert or a delete of one id is one atomic write. */
  class SearchIndex {
    var docs: Index

    constructor (docs: Index)
      ensures this.docs == docs
    {
      this.docs := docs;
    }
  }

  datatype Fetched = Page(docs: Upserts, nextCursor: string, hasMore: bool) | Invalid

  /** The connector's answer for a cursor. */
  function Fetch(src: Source, cursor: string): (r: Fetched)
    requires |src.pages| > 0 && |src.tokens| == |src.pages| - 1
    ensures r.Invalid? <==> cursor != "" && cursor !in src.tokens
  {
    if src.Knows(cursor) then
      var j := src.Position(cursor);
      Page(src.pages[j], src.NextCursor(j), j < |src.tokens| || (src.finalToken == "" && src.lastHasMore))
    else Invalid
  }

  /** How one turn of pass 2 ends: the run is stopped, the pass is left early,
      every page is read, or there is more to fetch. */
  datatype Turn = Stopped | Left | NoPageLeft | Onward

  class SyncOrchestrator {
    const index: SearchIndex
    const store: Store
    const tenant: string
    const sourceType: string

    constructor (index: SearchIndex, store: Store, tenant: string, sourceType: string)
      ensures this.index == index && this.store == store
      ensures this.tenant == tenant && this.sourceType == sourceType
    {
      this.index, this.store, this.tenant, this.sourceType := index, store, tenant, sourceType;
    }

    function Stored(): string
      reads store
    {
      store.GetCursor(tenant, sourceType)
    }

    /** Index and stored cursor agree with `base` crawled up to that cursor. */
    ghost predicate Invariant(src: Source, base: Index)
      requires src.Valid()
      reads index, store
    {
      Consistent(src, base, index.docs, Stored())
    }

    /** In pass 2: `cursor` is stored, and if the pass began `clean` of deleted ids
        at page `from`, they are as the pages read since make them. */
    ghost predicate Reading(src: Source, base: Index, cursor: string, from: nat, clean: bool)
      requires src.Valid()
      reads index, store
    {
      && Invariant(src, base) && cursor == Stored()
      && from <= src.Position(cursor)
      && (clean ==> DeletedFrom(src, index.docs, from, src.Position(cursor)))
    }

    /** Pass 2 has read every page. */
    ghost predicate PagesRead(src: Source, base: Index, from: nat, clean: bool)
      requires src.Valid()
      reads index, store
    {
      && Invariant(src, base) && Exhausted(src, base, index.docs)
      && from <= |src.pages|
      && (clean ==> DeletedFrom(src, index.docs, from, |src.pages|))
    }

    /** Pass 1. */
    method DeletionPass(src: Source, env: Environment, ghost base: Index)
      returns (killed: bool, done: bool, deletedCount: nat)
      requires src.Valid() && Invariant(src, base) && env.Faithful()
      modifies index, env
      ensures Invariant(src, base) && env.Faithful()
      ensures !killed && done ==> NoneDeleted(src, index.docs)
      ensures env.Quiet() ==> !killed && done
      ensures killed ==> !done
      ensures DeletionsOver(src, old(env.log), env.log, killed, done, deletedCount)
    {
      ghost var start := env.log;
      deletedCount := 0;
      var k := 0;
      while k < |src.deletions|
        invariant k <= |src.deletions|
        invariant Invariant(src, base) && env.Faithful()
        invariant forall p, id :: 0 <= p < k && id in src.deletions[p] ==> id !in index.docs
        invariant InDeletions(src, start, env.log, deletedCount)
        invariant if k == 0 then env.log == start else env.log != start && env.log[|start|].step == FetchDeleted(0)
      {
        ghost var log := env.log;
        var fault := env.Next(FetchDeleted(k));
        DeletionsOneMore(src, start, log, deletedCount, Event(FetchDeleted(k), fault));
        hide InDeletions, DeletionsOver;
        if fault.Kill? || fault.AuthError? {
          return true, false, deletedCount;
        }
        if !fault.NoFault? {
          return false, false, deletedCount;
        }
        killed := DeletePage(src, k, env, base, start, deletedCount);
        if killed {
          return true, false, deletedCount;
        }
        deletedCount := deletedCount + |src.deletions[k]|;
        k := k + 1;
      }
      return false, true, deletedCount;
    }

    /** `indexer.delete_by_ids` for one page, one id after the other. */
    method DeletePage(src: Source, k: nat, env: Environment, ghost base: Index, ghost start: seq<Event>,
                      ghost deleted: nat)
      returns (killed: bool)
      requires src.Valid() && Invariant(src, base) && k < |src.deletions|
      requires env.Faithful() && InDeletions(src, start, env.log, deleted)
      requires env.log != start && env.log[|start|].step == FetchDeleted(0)
      modifies index, env
      ensures Invariant(src, base) && env.Faithful()
      ensures index.docs.Keys <= old(index.docs.Keys)
      ensures !killed ==> forall id :: id in src.deletions[k] ==> id !in index.docs
      ensures env.Quiet() ==> !killed
      ensures killed ==> DeletionsOver(src, start, env.log, true, false, deleted)
      ensures !killed ==> InDeletions(src, start, env.log, deleted + |src.deletions[k]|)
      ensures !killed ==> env.log != start && env.log[|start|].step == FetchDeleted(0)
    {
      var page := src.deletions[k];
      assert start <= env.log;
      hide InDeletions, DeletionsOver;
      for i := 0 to |page|
        invariant Invariant(src, base) && env.Faithful()
        invariant index.docs.Keys <= old(index.docs.Keys)
        invariant forall m :: 0 <= m < i ==> page[m] !in index.docs
        invariant InDeletions(src, start, env.log, deleted + i)
        invariant |start| < |env.log| && env.log[|start|].step == FetchDeleted(0)
      {
        ghost var log := env.log;
        var fault := env.Next(Delete(page[i]));
        DeletionsOneMore(src, start, log, deleted + i, Event(Delete(page[i]), fault));
        if !fault.NoFault? {
          return true;
        }
        assert page in src.deletions && page[i] in page;
        DeletionKeeps(src, base, index.docs, src.Position(Stored()), page[i]);
        index.docs := index.docs - {page[i]};
      }
      return false;
    }

    /** Pass 2 is under way; all its writes so far went through. */
    ghost predicate Underway(src: Source, env: Environment, b: Began, retried: bool, upserted: nat, pages: nat)
      reads env, store
    {
      env.Faithful() && InPages(src, env.log, b, Stored(), retried, upserted, pages)
    }

    /** Pass 2 was stopped by the last event. */
    ghost predicate Halted(src: Source, env: Environment, b: Began)
      reads env, store
    {
      env.Faithful() && PagesOver(src, env.log, b, Stored(), true, false, 0, 0)
    }

    lemma {:induction false} NoPageRemains(src: Source, env: Environment, b: Began, retried: bool, upserted: nat,
                                           pages: nat)
      requires Underway(src, env, b, retried, upserted, pages) && |env.log| > |b.pages|
      ensures PagesOver(src, env.log, b, Stored(), false, true, upserted, pages)
    {
      AllRead(src, env.log, b, Stored(), retried, upserted, pages);
    }

    /** A write of pass 2 is about to be made: any fault stops the run there. */
    method WriteStep(src: Source, step: Step, env: Environment, ghost b: Began, ghost retried: bool,
                     ghost upserted: nat, ghost pages: nat)
      returns (killed: bool)
      requires Underway(src, env, b, retried, upserted, pages) && env.log != b.pages
      requires step.Upsert? || step.SaveCursor?
      modifies env
      ensures env.Quiet() ==> !killed
      ensures env.Faithful() && |env.log| > |b.pages|
      ensures killed ==> Halted(src, env, b)
      ensures !killed && step.Upsert? ==> Underway(src, env, b, retried, upserted + 1, pages)
      ensures !killed && step.SaveCursor? ==> InPages(src, env.log, b, step.saved, retried, upserted, pages)
    {
      ghost var log := env.log;
      var fault := env.Next(step);
      ghost var e := Event(step, fault);
      if !fault.NoFault? {
        StoppingAt(src, log, b, Stored(), retried, upserted, pages, e);
        return true;
      }
      PagesOneMore(src, log, b, Stored(), retried, upserted, pages, e);
      return false;
    }

    /** `indexer.bulk_index` for the page at the stored cursor. */
    method IndexPage(src: Source, j: nat, env: Environment, ghost base: Index, ghost b: Began, ghost retried: bool,
                     ghost upserted: nat, ghost pages: nat)
      returns (killed: bool)
      requires src.Valid() && Invariant(src, base) && j == src.Position(Stored())
      requires Underway(src, env, b, retried, upserted, pages) && |env.log| > |b.pages|
      modifies index, env
      ensures Invariant(src, base)
      ensures !killed ==>
          index.docs == Applied(old(index.docs), src.pages[j]) && ConsistentAt(src, base, index.docs, j + 1)
      ensures env.Quiet() ==> !killed
      ensures env.Faithful() && (killed ==> Halted(src, env, b))
      ensures !killed ==> Underway(src, env, b, retried, upserted + |src.pages[j]|, pages) && |env.log| > |b.pages|
    {
      hide InPages, PagesOver, ConsistentAt;
      var page := src.pages[j];
      ghost var start := index.docs;
      assert page[..0] == [];
      for i := 0 to |page|
        invariant Invariant(src, base)
        invariant index.docs == Applied(start, page[..i])
        invariant Underway(src, env, b, retried, upserted + i, pages) && |env.log| > |b.pages|
      {
        killed := WriteStep(src, Upsert(page[i].0, page[i].1), env, b, retried, upserted + i, pages);
        if killed {
          return true;
        }
        PartialPageKeeps(src, base, index.docs, j, page[i]);
        assert page[..i + 1][..i] == page[..i];
        index.docs := index.docs[page[i].0 := page[i].1];
      }
      assert page[..|page|] == page;
      PageAdvances(src, base, start, j);
      return false;
    }

    /** `on_cursor_update`: a kill may come before the write. */
    method Checkpoint(src: Source, cursor: string, env: Environment, now: int, ghost base: Index, ghost b: Began,
                      ghost retried: bool, ghost upserted: nat, ghost pages: nat)
      returns (killed: bool)
      requires src.Valid() && Invariant(src, base) && Consistent(src, base, index.docs, cursor)
      requires Underway(src, env, b, retried, upserted, pages) && |env.log| > |b.pages|
      modifies store, env
      ensures Invariant(src, base)
      ensures !killed ==> Stored() == cursor
      ensures env.Quiet() ==> !killed
      ensures env.Faithful() && (killed ==> Halted(src, env, b))
      ensures !killed ==> Underway(src, env, b, retried, upserted, pages) && |env.log| > |b.pages|
    {
      hide InPages, PagesOver, ConsistentAt;
      killed := WriteStep(src, SaveCursor(cursor), env, b, retried, upserted, pages);
      if killed {
        return true;
      }
      store.UpdateCursor(tenant, sourceType, cursor, now);
      return false;
    }

    /** `connector.fetch_delta`: the page at the cursor, a failure, or the answer
        that the cursor is invalid. */
    method FetchDelta(src: Source, cursor: string, env: Environment, ghost b: Began, ghost retried: bool,
                      ghost upserted: nat, ghost pages: nat)
      returns (killed: bool, failed: bool, fetched: Fetched)
      requires src.Valid() && (retried ==> src.Knows(cursor))
      requires Underway(src, env, b, retried, upserted, pages) && (env.log == b.pages ==> cursor == b.cursor)
      modifies env
      ensures env.Faithful() && |env.log| > |b.pages|
      ensures env.Quiet() ==> !killed && !failed && (fetched.Page? <==> src.Knows(cursor))
      ensures env.Faithful() && (killed ==> Halted(src, env, b))
      ensures !killed && (failed || (fetched.Invalid? && (cursor == "" || retried))) ==>
                PagesOver(src, env.log, b, Stored(), false, false, upserted, pages)
      ensures !killed && !failed && fetched.Invalid? && cursor != "" && !retried ==>
                Underway(src, env, b, true, upserted, pages)
      ensures !killed && !failed && fetched.Page? ==>
                fetched == Fetch(src, cursor) && Underway(src, env, b, retried, upserted, pages + 1)
    {
      ghost var log := env.log;
      assert b.pages <= log;
      var fault := env.Next(FetchPage(cursor));
      ghost var e := Event(FetchPage(cursor), fault);
      fetched := Invalid;
      hide InPages, PagesOver, Find;
      if fault.Kill? || fault.AuthError? {
        StoppingAt(src, log, b, Stored(), retried, upserted, pages, e);
        return true, true, fetched;
      }
      if fault.FetchFails? {
        GivingUp(src, log, b, Stored(), retried, upserted, pages, e);
        return false, true, fetched;
      }
      if !fault.CursorRejected? {
        fetched := Fetch(src, cursor);
      }
      if fault.CursorRejected? && (cursor == "" || retried) {
        GivingUp(src, log, b, Stored(), retried, upserted, pages, e);
      } else {
        PagesOneMore(src, log, b, Stored(), retried, upserted, pages, e);
      }
      return false, false, fetched;
    }

    /** Pass 2. `pagesDone` means the loop was left because no page remains;
        `from` is the page it began with, or 0 after a reset. */
    method DeltaPass(src: Source, cursor: string, env: Environment, now: int, ghost base: Index, ghost clean: bool,
                     ghost b: Began)
      returns (killed: bool, pagesDone: bool, stats: Stats, ghost from: nat)
      requires src.Valid() && Invariant(src, base) && cursor == Stored() == b.cursor && env.log == b.pages
      requires clean ==> NoneDeleted(src, index.docs)
      requires Underway(src, env, b, false, 0, 0)
      modifies index, store, env
      ensures Invariant(src, base)
      ensures from == src.Position(cursor) || from == 0
      ensures !killed && pagesDone ==> PagesRead(src, base, from, clean)
      ensures !killed && pagesDone ==> Stored() == src.LastCursor()
      ensures !killed ==> stats.finalCursor == Stored()
      ensures env.Quiet() ==> !killed && pagesDone && from == src.Position(cursor)
      ensures env.Faithful() && (killed ==> Halted(src, env, b))
      ensures !killed ==> PagesOver(src, env.log, b, Stored(), false, pagesDone, stats.indexedCount,
                                    stats.pagesProcessed)
    {
      hide ConsistentAt, NoneDeleted, DeletedFrom, Flat, InPages, PagesOver, Find, Fetch;
      from := src.Position(cursor);
      if clean {
        DeletedAtStart(src, index.docs, from);
      }
      stats := Stats(0, 0, 0, cursor);
      var deltaCursor := cursor;
      var invalidTokenRetried := false;
      assert Reading(src, base, deltaCursor, from, clean);
      while true
        invariant Invariant(src, base) && Reading(src, base, deltaCursor, from, clean)
        invariant deltaCursor == stats.finalCursor == Stored()
        invariant from == src.Position(cursor) || from == 0
        invariant env.Quiet() ==> from == src.Position(cursor)
        invariant invalidTokenRetried ==> src.Knows(deltaCursor)
        invariant Underway(src, env, b, invalidTokenRetried, stats.indexedCount, stats.pagesProcessed)
        invariant env.log == b.pages ==> deltaCursor == cursor
        decreases !invalidTokenRetried, |src.pages| - src.Position(deltaCursor)
      {
        hide Invariant, Reading, PagesRead, Find, InPages, PagesOver, Underway, Halted;
        var turn, indexed, read;
        turn, deltaCursor, invalidTokenRetried, indexed, read, from :=
          DeltaTurn(src, deltaCursor, invalidTokenRetried, env, now, base, from, clean, b, stats.indexedCount,
                    stats.pagesProcessed);
        stats := Stats(stats.indexedCount + indexed, 0, stats.pagesProcessed + read, deltaCursor);
        if !turn.Onward? {
          return turn.Stopped?, turn.NoPageLeft?, stats, from;
        }
      }
    }

    /** One turn of the loop: fetch at the cursor; then read the page, or go back
        to the start once if the cursor is invalid, or leave. */
    method DeltaTurn(src: Source, cursor: string, retried: bool, env: Environment, now: int, ghost base: Index,
                     ghost from: nat, ghost clean: bool, ghost b: Began, ghost upserted: nat, ghost pages: nat)
      returns (turn: Turn, cursor': string, retried': bool, indexed: nat, read: nat, ghost from': nat)
      requires src.Valid() && Invariant(src, base) && Reading(src, base, cursor, from, clean) && cursor == Stored()
      requires retried ==> src.Knows(cursor)
      requires Underway(src, env, b, retried, upserted, pages) && (env.log == b.pages ==> cursor == b.cursor)
      modifies index, store, env
      ensures Invariant(src, base) && env.Faithful()
      ensures from' == from || from' == 0
      ensures env.Quiet() && (retried ==> src.Knows(cursor)) ==>
                (turn.Onward? || turn.NoPageLeft?) && (from' == from || !src.Knows(cursor))
      ensures !turn.Stopped? ==> cursor' == Stored()
      ensures turn.Stopped? ==> Halted(src, env, b)
      ensures turn.Left? ==> PagesOver(src, env.log, b, Stored(), false, false, upserted + indexed, pages + read)
      ensures turn.NoPageLeft? ==>
                && PagesOver(src, env.log, b, Stored(), false, true, upserted + indexed, pages + read)
                && PagesRead(src, base, from', clean) && Stored() == src.LastCursor()
      ensures turn.Onward? ==>
                && Reading(src, base, cursor', from', clean) && src.Knows(cursor')
                && Underway(src, env, b, retried', upserted + indexed, pages + read) && |env.log| > |b.pages|
                && (if retried' == retried then src.Position(cursor') == src.Position(cursor) + 1 else retried')
    {
      hide Invariant, Reading, PagesRead, Fetch, Underway, Halted, PagesOver, InPages;
      hide Source.Position, Source.LastCursor;
      cursor', retried', indexed, read, from' := cursor, retried, 0, 0, from;
      var killed, failed, fetched := FetchDelta(src, cursor, env, b, retried, upserted, pages);
      if killed {
        turn := Stopped;
      } else if failed || fetched.Invalid? {
        if !failed && cursor != "" && !retried {
          killed := Restart(src, cursor, env, now, base, from, clean, b, upserted, pages);
          cursor', retried', from' := "", true, 0;
          turn := if killed then Stopped else Onward;
        } else {
          turn := Left;
        }
      } else {
        killed, indexed := ReadPage(src, cursor, fetched, env, now, base, from, clean, b, retried, upserted, pages + 1);
        read := 1;
        cursor' := if fetched.nextCursor != "" then fetched.nextCursor else cursor;
        if killed {
          turn := Stopped;
        } else if !fetched.hasMore || fetched.nextCursor == "" {
          NoPageRemains(src, env, b, retried, upserted + indexed, pages + 1);
          turn := NoPageLeft;
        } else {
          turn := Onward;
        }
      }
    }

    /** The reset after a stale cursor: back to the start, and so stored. */
    method Restart(src: Source, cursor: string, env: Environment, now: int, ghost base: Index, ghost from: nat,
                   ghost clean: bool, ghost b: Began, ghost upserted: nat, ghost pages: nat)
      returns (killed: bool)
      requires src.Valid() && Reading(src, base, cursor, from, clean)
      requires Underway(src, env, b, true, upserted, pages) && |env.log| > |b.pages|
      modifies store, env
      ensures Invariant(src, base) && src.Knows("") && src.Position("") == 0
      ensures !src.Knows(cursor) ==> from == 0
      ensures !killed ==> Stored() == "" && Reading(src, base, "", 0, clean)
      ensures env.Quiet() ==> !killed
      ensures env.Faithful() && (killed ==> Halted(src, env, b))
      ensures !killed ==> Underway(src, env, b, true, upserted, pages) && |env.log| > |b.pages|
    {
      var j := src.Position(cursor);
      ResetKeeps(src, base, index.docs, j);
      if clean {
        ResetDeleted(src, index.docs, from, j);
      }
      hide ConsistentAt, DeletedFrom, Flat, InPages, PagesOver;
      killed := Checkpoint(src, "", env, now, base, b, true, upserted, pages);
    }

    /** One fetched page: index it, then persist its cursor. */
    method ReadPage(src: Source, cursor: string, page: Fetched, env: Environment, now: int, ghost base: Index,
                    ghost from: nat, ghost clean: bool, ghost b: Began, ghost retried: bool,
                    ghost upserted: nat, ghost pages: nat)
      returns (killed: bool, indexed: nat)
      requires src.Valid() && Reading(src, base, cursor, from, clean)
      requires page.Page? && page == Fetch(src, cursor)
      requires Underway(src, env, b, retried, upserted, pages) && |env.log| > |b.pages|
      modifies index, store, env
      ensures Invariant(src, base)
      ensures !killed ==> Stored() == if page.nextCursor != "" then page.nextCursor else cursor
      ensures !killed && page.hasMore && page.nextCursor != "" ==>
                && Reading(src, base, page.nextCursor, from, clean)
                && src.Knows(page.nextCursor) && src.Position(page.nextCursor) == src.Position(cursor) + 1
      ensures !killed && (!page.hasMore || page.nextCursor == "") ==>
                PagesRead(src, base, from, clean) && Stored() == src.LastCursor()
      ensures env.Quiet() ==> !killed
      ensures env.Faithful() && (killed ==> Halted(src, env, b))
      ensures !killed ==> Underway(src, env, b, retried, upserted + indexed, pages) && |env.log| > |b.pages|
    {
      hide ConsistentAt, DeletedFrom, Flat, InPages, PagesOver;
      var j := src.Position(cursor);
      if clean {
        PageAdvancesDeleted(src, index.docs, from, j);
      }
      killed := IndexPage(src, j, env, base, b, retried, upserted, pages);
      if killed {
        return true, 0;
      }
      indexed := |page.docs|;
      NextCursorPosition(src, base, index.docs, j);
      if page.nextCursor != "" {
        killed := Checkpoint(src, page.nextCursor, env, now, base, b, retried, upserted + indexed, pages);
      }
    }

    /** The checkpoint written after page j is one the index is consistent with. */
    lemma {:induction false} NextCursorPosition(src: Source, base: Index, docs: Index, j: nat)
      requires src.Valid() && j < |src.pages| && ConsistentAt(src, base, docs, j + 1)
      ensures Consistent(src, base, docs, src.NextCursor(j))
      ensures j < |src.tokens| ==> src.Position(src.NextCursor(j)) == j + 1
    {
      if j < |src.tokens| {
        assert src.tokens[j] in src.tokens;
      } else {
        ExhaustedIsConsistent(src, base, docs, src.Position(src.finalToken));
      }
    }

    /** One run from the stored cursor. However it ends, index and checkpoint
        stay consistent with `base`; if it returns with both passes done, the
        index is the full crawl of `base`, whatever was interrupted before,
        exactly when every deleted id listed before the page the run began with
        is listed again from there on; so always where no deleted id is listed.

        A run is killed exactly by a kill or an authorisation error, or by a
        failure of a write, and takes no step after it. A failure to fetch
        deleted ids ends pass 1 and leaves pass 2 to run; a page fetch ends pass
        2 early only if it fails, or its cursor is called invalid when there is
        none or for the second time. Deletions come before any page, and the
        stored cursor is the last one saved. */
    method RunTwoPassSync(src: Source, env: Environment, now: int, ghost base: Index)
      returns (outcome: Outcome, stats: Stats, ghost from: nat)
      requires src.Valid() && Invariant(src, base) && env.Faithful()
      modifies index, store, env
      ensures Invariant(src, base)
      ensures outcome.Returned? && outcome.pagesDone ==> Exhausted(src, base, index.docs)
      ensures from == src.Position(old(Stored())) || from == 0
      ensures outcome == Returned(true, true) ==> (index.docs == FullCrawl(src, base) <==> src.Relisted(from))
      ensures outcome == Returned(true, true) && src.Apart() ==> index.docs == FullCrawl(src, base)
      ensures outcome.Returned? ==> stats.finalCursor == Stored()
      ensures env.Quiet() ==> outcome == Returned(true, true) && from == src.Position(old(Stored()))
      ensures env.Faithful()
      ensures RunLogged(src, old(env.log), env.log, old(Stored()), Stored(), outcome, stats)
      ensures outcome.Returned? && outcome.pagesDone ==> Stored() == src.LastCursor()
    {
      var cursor := Stored();
      stats := Stats(0, 0, 0, cursor);
      ghost var start := env.log;
      var killed, deletionsDone, deletedCount := DeletionPass(src, env, base);
      hide InPages, PagesOver, DeletionsOver, RunLogged;
      if killed {
        StoppedInDeletions(src, start, env.log, deletedCount, cursor, stats);
        return Killed, stats, 0;
      }
      ghost var first := env.log;
      PagesStart(src, start, first, deletionsDone, deletedCount, cursor);
      var pagesDone;
      killed, pagesDone, stats, from :=
        DeltaPass(src, cursor, env, now, base, deletionsDone, Began(|start|, first, cursor));
      stats := stats.(deletedCount := deletedCount);
      if killed {
        StoppedInPages(src, start, first, env.log, deletionsDone, deletedCount, 0, 0, cursor, Stored(), stats);
        return Killed, stats, from;
      }
      BothJudged(src, start, first, env.log, deletionsDone, pagesDone, cursor, Stored(), stats);
      if deletionsDone && pagesDone {
        ResumeIsExactIff(src, base, index.docs, from);
        if src.Apart() {
          ApartIsRelisted(src, from);
        }
      }
      hide Exhausted, DeletedFrom, FullCrawl, Consistent;
      return Returned(deletionsDone, pagesDone), stats, from;
    }

    /** Any number of runs, each stopped or disturbed as its script says, and each
        restarted from the persisted cursor, until one returns with both passes
        done: it leaves the index of one undisturbed crawl of `base`, under the
        condition of that last run. */
    method RunUntilDone(src: Source, scripts: seq<seq<Fault>>, now: int, ghost base: Index)
      returns (done: bool, ghost from: nat)
      requires src.Valid() && Invariant(src, base)
      modifies index, store
      ensures Invariant(src, base)
      ensures from <= |src.pages|
      ensures done ==> (index.docs == FullCrawl(src, base) <==> src.Relisted(from))
      ensures done && src.Apart() ==> index.docs == FullCrawl(src, base)
      ensures |scripts| > 0 && (forall f :: f in scripts[|scripts| - 1] ==> f.NoFault?) ==> done
    {
      from := 0;
      for i := 0 to |scripts|
        invariant Invariant(src, base)
        invariant i > 0 ==> exists f :: f in scripts[i - 1] && !f.NoFault?
      {
        var env := new Environment(scripts[i]);
        var outcome, _, start := RunTwoPassSync(src, env, now, base);
        from := start;
        if outcome == Returned(true, true) {
          return true, from;
        }
      }
      return false, 0;
    }
  }
}
